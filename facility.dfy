/**
 * Bookings and the per-facility queries over them: the half-open overlap
 * test, `Facility.is_available`, and `Facility.get_availability`'s
 * sorted-gap sweep. A facility's bookings are given as the sequence of its
 * `Booking` values in insertion order, cancelled ones included.
 */
module Facilities {
  import opened TimeSlots

  datatype Booking = Booking(
    confirmationId: string,
    facilityName: string,
    startTime: TimeSlot,
    endTime: TimeSlot,
    originalEndTime: TimeSlot,  // the end given at booking time; Extend counts from it
    cancelled: bool)

  /** `Booking.overlaps`: a cancelled booking overlaps nothing; otherwise the half-open intervals intersect. */
  function Overlaps(b: Booking, start: TimeSlot, end: TimeSlot): (r: bool)
    ensures r <==> !b.cancelled && ToMinutes(b.startTime) < ToMinutes(end) && ToMinutes(start) < ToMinutes(b.endTime)
  {
    if b.cancelled then false else !(Le(end, b.startTime) || Le(b.endTime, start))
  }

  /** No booking of the facility overlaps `[start, end)`. */
  predicate Available(bookings: seq<Booking>, start: TimeSlot, end: TimeSlot)
  {
    forall i :: 0 <= i < |bookings| ==> !Overlaps(bookings[i], start, end)
  }

  /** `Facility.is_available`. */
  method IsAvailable(bookings: seq<Booking>, start: TimeSlot, end: TimeSlot) returns (ok: bool)
    ensures ok <==> Available(bookings, start, end)
  {
    var i := 0;
    while i < |bookings|
      invariant 0 <= i <= |bookings|
      invariant forall k :: 0 <= k < i ==> !Overlaps(bookings[k], start, end)
    {
      if Overlaps(bookings[i], start, end) {
        return false;
      }
      i := i + 1;
    }
    return true;
  }

  // ------------------------------------------------------------------ sorting

  ghost predicate SortedByStart(s: seq<Booking>)
  {
    forall i, j :: 0 <= i < j < |s| ==> Le(s[i].startTime, s[j].startTime)
  }

  /** The bookings of `s` whose start is `m` minutes into the week, in order. */
  function StartingAt(s: seq<Booking>, m: int): seq<Booking>
  {
    if s == [] then []
    else (if ToMinutes(s[0].startTime) == m then [s[0]] else []) + StartingAt(s[1..], m)
  }

  /** Puts `b` before the first element that does not start earlier than it. */
  function InsertByStart(b: Booking, s: seq<Booking>): seq<Booking>
  {
    if s == [] || Le(b.startTime, s[0].startTime) then [b] + s
    else [s[0]] + InsertByStart(b, s[1..])
  }

  /** `sorted(..., key=lambda x: x.start_time)`, built by insertion from the back. */
  function SortByStart(s: seq<Booking>): seq<Booking>
  {
    if s == [] then [] else InsertByStart(s[0], SortByStart(s[1..]))
  }

  lemma {:induction false} InsertByStartPermutes(b: Booking, s: seq<Booking>)
    ensures multiset(InsertByStart(b, s)) == multiset(s) + multiset{b}
    decreases |s|
  {
    if s != [] && !Le(b.startTime, s[0].startTime) {
      InsertByStartPermutes(b, s[1..]);
      assert s == [s[0]] + s[1..];
    }
  }

  /** A lower bound on the starts of `b` and of `s` bounds the inserted sequence. */
  lemma {:induction false} InsertByStartBounded(b: Booking, s: seq<Booking>, lo: TimeSlot)
    requires Le(lo, b.startTime) && forall i :: 0 <= i < |s| ==> Le(lo, s[i].startTime)
    ensures forall k :: 0 <= k < |InsertByStart(b, s)| ==> Le(lo, InsertByStart(b, s)[k].startTime)
    decreases |s|
  {
    if s != [] && !Le(b.startTime, s[0].startTime) {
      InsertByStartBounded(b, s[1..], lo);
    }
  }

  lemma {:induction false} InsertByStartSorted(b: Booking, s: seq<Booking>)
    requires SortedByStart(s)
    ensures SortedByStart(InsertByStart(b, s))
    decreases |s|
  {
    if s != [] && !Le(b.startTime, s[0].startTime) {
      var t := InsertByStart(b, s[1..]);
      InsertByStartSorted(b, s[1..]);
      InsertByStartBounded(b, s[1..], s[0].startTime);
      var r := InsertByStart(b, s);
      assert r == [s[0]] + t;
      forall i, j | 0 <= i < j < |r|
        ensures Le(r[i].startTime, r[j].startTime)
      {
        assert r[j] == t[j - 1];
        if i > 0 {
          assert r[i] == t[i - 1];
        }
      }
    }
  }

  /** Inserting `b` adds it in front of the bookings that start at the same minute. */
  lemma {:induction false} InsertByStartStable(b: Booking, s: seq<Booking>, m: int)
    ensures StartingAt(InsertByStart(b, s), m) == (if ToMinutes(b.startTime) == m then [b] else []) + StartingAt(s, m)
    decreases |s|
  {
    var r := InsertByStart(b, s);
    var own := if ToMinutes(b.startTime) == m then [b] else [];
    if s == [] || Le(b.startTime, s[0].startTime) {
      assert r[1..] == s;
    } else {
      var t := InsertByStart(b, s[1..]);
      var first := if ToMinutes(s[0].startTime) == m then [s[0]] else [];
      InsertByStartStable(b, s[1..], m);
      assert r[1..] == t;
      assert StartingAt(r, m) == first + (own + StartingAt(s[1..], m));
      assert first == [] || own == [];
      assert StartingAt(s, m) == first + StartingAt(s[1..], m);
    }
  }

  /**
   * The sort is ascending, a permutation, and stable: for every start minute,
   * the bookings starting then appear in their original order.
   */
  lemma {:induction false} SortByStartCorrect(s: seq<Booking>)
    ensures SortedByStart(SortByStart(s)) && multiset(SortByStart(s)) == multiset(s)
    ensures forall m :: StartingAt(SortByStart(s), m) == StartingAt(s, m)
    decreases |s|
  {
    if s != [] {
      var t := SortByStart(s[1..]);
      SortByStartCorrect(s[1..]);
      InsertByStartSorted(s[0], t);
      InsertByStartPermutes(s[0], t);
      assert s == [s[0]] + s[1..];
      forall m: int
        ensures StartingAt(SortByStart(s), m) == StartingAt(s, m)
      {
        InsertByStartStable(s[0], t, m);
      }
    }
  }

  // ------------------------------------------------------------ availability

  datatype Slot = Slot(start: TimeSlot, end: TimeSlot)

  /** One entry of the returned dictionary. */
  datatype DayEntry = DayEntry(day: nat, slots: seq<Slot>)

  /** The list comprehension: non-cancelled bookings starting on `day`, in insertion order. */
  function LiveOnDay(bookings: seq<Booking>, day: nat): (r: seq<Booking>)
    ensures |r| <= |bookings|
    ensures forall b :: b in r <==> b in bookings && !b.cancelled && b.startTime.day == day
  {
    if bookings == [] then []
    else
      var b := bookings[0];
      (if !b.cancelled && b.startTime.day == day then [b] else []) + LiveOnDay(bookings[1..], day)
  }

  function DayBookings(bookings: seq<Booking>, day: nat): seq<Booking>
  {
    SortByStart(LiveOnDay(bookings, day))
  }

  /** The gap loop: the gaps found, and `current` after the last booking. */
  function Sweep(s: seq<Booking>, current: TimeSlot): (seq<Slot>, TimeSlot)
  {
    if s == [] then ([], current)
    else
      var gap := if Lt(current, s[0].startTime) then [Slot(current, s[0].startTime)] else [];
      var rest := Sweep(s[1..], Max(current, s[0].endTime));
      (gap + rest.0, rest.1)
  }

  /**
   * The slots reported for one day. The trailing slot is added whenever
   * `current` is at or before 23:59, and the "no bookings" slot on top of it,
   * so an empty day reports the whole day twice.
   */
  function DaySlots(bookings: seq<Booking>, day: nat): seq<Slot>
  {
    var dayBookings := DayBookings(bookings, day);
    var swept := Sweep(dayBookings, TimeSlot(day, 0, 0));
    var trailing := if Le(swept.1, TimeSlot(day, 23, 59)) then [Slot(swept.1, TimeSlot(day, 24, 0))] else [];
    var whole := if dayBookings == [] then [Slot(TimeSlot(day, 0, 0), TimeSlot(day, 24, 0))] else [];
    swept.0 + trailing + whole
  }

  /** The keys of the returned dictionary: requested days in first-occurrence order. */
  function Distinct(days: seq<nat>): (r: seq<nat>)
    ensures forall d :: d in r <==> d in days
    ensures forall i, j :: 0 <= i < j < |r| ==> r[i] != r[j]
    ensures |r| <= |days|
  {
    if days == [] then []
    else
      var init := Distinct(days[..|days| - 1]);
      var last := days[|days| - 1];
      assert days == days[..|days| - 1] + [last];
      if last in init then init else init + [last]
  }

  function Entries(bookings: seq<Booking>, keys: seq<nat>): seq<DayEntry>
  {
    seq(|keys|, i requires 0 <= i < |keys| => DayEntry(keys[i], DaySlots(bookings, keys[i])))
  }

  /** `get_availability(days)`. */
  function Availability(bookings: seq<Booking>, days: seq<nat>): seq<DayEntry>
  {
    Entries(bookings, Distinct(days))
  }

  /** Dictionary assignment `availability[day] = slots`: overwrite in place, or append a new key. */
  function Assign(entries: seq<DayEntry>, day: nat, slots: seq<Slot>): (r: seq<DayEntry>)
  {
    if entries == [] then [DayEntry(day, slots)]
    else if entries[0].day == day then [DayEntry(day, slots)] + entries[1..]
    else [entries[0]] + Assign(entries[1..], day, slots)
  }

  lemma {:induction false} AssignSame(entries: seq<DayEntry>, day: nat, slots: seq<Slot>)
    requires exists i :: 0 <= i < |entries| && entries[i].day == day
    requires forall i :: 0 <= i < |entries| && entries[i].day == day ==> entries[i].slots == slots
    ensures Assign(entries, day, slots) == entries
    decreases |entries|
  {
    if entries[0].day == day {
      assert entries == [DayEntry(day, slots)] + entries[1..];
    } else {
      var i :| 0 <= i < |entries| && entries[i].day == day;
      assert entries[1..][i - 1].day == day;
      AssignSame(entries[1..], day, slots);
      assert entries == [entries[0]] + entries[1..];
    }
  }

  lemma {:induction false} AssignNew(entries: seq<DayEntry>, day: nat, slots: seq<Slot>)
    requires forall i :: 0 <= i < |entries| ==> entries[i].day != day
    ensures Assign(entries, day, slots) == entries + [DayEntry(day, slots)]
    decreases |entries|
  {
    if entries != [] {
      AssignNew(entries[1..], day, slots);
      assert entries == [entries[0]] + entries[1..];
    }
  }

  lemma DistinctSnoc(days: seq<nat>, day: nat)
    ensures Distinct(days + [day]) == if day in Distinct(days) then Distinct(days) else Distinct(days) + [day]
  {
    assert (days + [day])[..|days|] == days;
  }

  lemma EntriesSnoc(bookings: seq<Booking>, keys: seq<nat>, day: nat)
    ensures Entries(bookings, keys + [day]) == Entries(bookings, keys) + [DayEntry(day, DaySlots(bookings, day))]
  {
  }

  /** Adding one more requested day to the loop's prefix is one dictionary assignment. */
  lemma AvailabilityStep(bookings: seq<Booking>, days: seq<nat>, day: nat)
    ensures Availability(bookings, days + [day]) == Assign(Availability(bookings, days), day, DaySlots(bookings, day))
  {
    var keys := Distinct(days);
    var entries := Entries(bookings, keys);
    DistinctSnoc(days, day);
    if day in keys {
      var k :| 0 <= k < |keys| && keys[k] == day;
      assert entries[k].day == day;
      AssignSame(entries, day, DaySlots(bookings, day));
    } else {
      AssignNew(entries, day, DaySlots(bookings, day));
      EntriesSnoc(bookings, keys, day);
    }
  }

  /** The gap loop of `Facility.get_availability` over one day's sorted bookings. */
  method SweepGapsLoop(dayBookings: seq<Booking>, start: TimeSlot) returns (gaps: seq<Slot>, current: TimeSlot)
    ensures gaps == Sweep(dayBookings, start).0 && current == Sweep(dayBookings, start).1
  {
    gaps := [];
    current := start;
    var j := 0;
    while j < |dayBookings|
      invariant 0 <= j <= |dayBookings|
      invariant gaps + Sweep(dayBookings[j..], current).0 == Sweep(dayBookings, start).0
      invariant Sweep(dayBookings[j..], current).1 == Sweep(dayBookings, start).1
    {
      var b := dayBookings[j];
      assert dayBookings[j..][1..] == dayBookings[j + 1..];
      if Lt(current, b.startTime) {
        gaps := gaps + [Slot(current, b.startTime)];
      }
      current := Max(current, b.endTime);
      j := j + 1;
    }
    assert dayBookings[j..] == [];
  }

  /** The body of the loop over days in `Facility.get_availability`: the gap sweep for one day. */
  method SlotsForDay(bookings: seq<Booking>, day: nat) returns (slots: seq<Slot>)
    ensures slots == DaySlots(bookings, day)
  {
    var dayBookings := DayBookings(bookings, day);
    var current;
    slots, current := SweepGapsLoop(dayBookings, TimeSlot(day, 0, 0));
    if Le(current, TimeSlot(day, 23, 59)) {
      slots := slots + [Slot(current, TimeSlot(day, 24, 0))];
    }
    if dayBookings == [] {
      slots := slots + [Slot(TimeSlot(day, 0, 0), TimeSlot(day, 24, 0))];
    }
  }

  /** `Facility.get_availability`: one dictionary entry per distinct requested day, in first-request order. */
  method GetAvailability(bookings: seq<Booking>, days: seq<nat>) returns (availability: seq<DayEntry>)
    ensures availability == Availability(bookings, days)
  {
    availability := [];
    var i := 0;
    while i < |days|
      invariant 0 <= i <= |days|
      invariant availability == Availability(bookings, days[..i])
    {
      var slots := SlotsForDay(bookings, days[i]);
      AvailabilityStep(bookings, days[..i], days[i]);
      assert days[..i + 1] == days[..i] + [days[i]];
      availability := Assign(availability, days[i], slots);
      i := i + 1;
    }
    assert days[..i] == days;
  }

  // -------------------------------------------------------------- properties

  /**
   * Every gap the sweep reports is non-empty, starts no earlier than `current`,
   * and overlaps none of the swept bookings; `current` ends past all their ends.
   */
  lemma {:induction false} SweepGaps(s: seq<Booking>, current: TimeSlot)
    requires SortedByStart(s)
    ensures ToMinutes(current) <= ToMinutes(Sweep(s, current).1)
    ensures forall i :: 0 <= i < |s| ==> ToMinutes(s[i].endTime) <= ToMinutes(Sweep(s, current).1)
    ensures forall g :: g in Sweep(s, current).0 ==>
      ToMinutes(current) <= ToMinutes(g.start) < ToMinutes(g.end)
      && forall i :: 0 <= i < |s| ==> !Overlaps(s[i], g.start, g.end)
    ensures |Sweep(s, current).0| <= |s|
    decreases |s|
  {
    if s != [] {
      var next := Max(current, s[0].endTime);
      var rest := Sweep(s[1..], next);
      SweepGaps(s[1..], next);
      assert forall i :: 1 <= i < |s| ==> s[i] == s[1..][i - 1];
      var w := Sweep(s, current);
      forall g | g in w.0
        ensures ToMinutes(current) <= ToMinutes(g.start) < ToMinutes(g.end)
        ensures forall i :: 0 <= i < |s| ==> !Overlaps(s[i], g.start, g.end)
      {
        if g !in rest.0 {
          assert g == Slot(current, s[0].startTime);
          assert forall i :: 0 <= i < |s| ==> Le(s[0].startTime, s[i].startTime);
        }
      }
    }
  }

  /** No reported slot overlaps a live booking that starts on the queried day. */
  lemma DaySlotsFree(bookings: seq<Booking>, day: nat)
    ensures forall g, b :: g in DaySlots(bookings, day) && b in bookings && b.startTime.day == day ==> !Overlaps(b, g.start, g.end)
  {
    var live := LiveOnDay(bookings, day);
    var dayBookings := DayBookings(bookings, day);
    SortByStartCorrect(live);
    var w := Sweep(dayBookings, TimeSlot(day, 0, 0));
    SweepGaps(dayBookings, TimeSlot(day, 0, 0));
    forall g, b | g in DaySlots(bookings, day) && b in bookings && b.startTime.day == day && !b.cancelled
      ensures !Overlaps(b, g.start, g.end)
    {
      assert b in live;
      assert b in multiset(dayBookings);
      var i :| 0 <= i < |dayBookings| && dayBookings[i] == b;
      if g !in w.0 {
        assert g.start == w.1;
      }
    }
  }

  /**
   * The sweep drops no free time: a minute at or after the starting point
   * that no swept booking covers lies in a reported gap, or at or after
   * the sweep's final point.
   */
  lemma {:induction false} SweepCovers(s: seq<Booking>, current: TimeSlot, m: int)
    requires ToMinutes(current) <= m
    requires forall i :: 0 <= i < |s| ==> !(ToMinutes(s[i].startTime) <= m < ToMinutes(s[i].endTime))
    ensures (exists g :: g in Sweep(s, current).0 && ToMinutes(g.start) <= m < ToMinutes(g.end))
      || ToMinutes(Sweep(s, current).1) <= m
    decreases |s|
  {
    if s != [] {
      var b := s[0];
      var gap := if Lt(current, b.startTime) then [Slot(current, b.startTime)] else [];
      var next := Max(current, b.endTime);
      var rest := Sweep(s[1..], next);
      assert Sweep(s, current) == (gap + rest.0, rest.1);
      if m < ToMinutes(b.startTime) {
        assert Slot(current, b.startTime) in Sweep(s, current).0;
      } else {
        assert forall i :: 0 <= i < |s[1..]| ==> s[1..][i] == s[i + 1];
        SweepCovers(s[1..], next, m);
        if exists g :: g in rest.0 && ToMinutes(g.start) <= m < ToMinutes(g.end) {
          var g :| g in rest.0 && ToMinutes(g.start) <= m < ToMinutes(g.end);
          assert g in Sweep(s, current).0;
        }
      }
    }
  }

  /**
   * Every free minute of the day is reported: a minute of `day` that no live
   * booking starting on that day overlaps lies inside some reported slot.
   */
  lemma DaySlotsComplete(bookings: seq<Booking>, day: nat, m: int)
    requires day * MINUTES_PER_DAY <= m < day * MINUTES_PER_DAY + MINUTES_PER_DAY
    requires forall b :: b in bookings && b.startTime.day == day ==> !Overlaps(b, FromMinutes(m), FromMinutes(m + 1))
    ensures exists g :: g in DaySlots(bookings, day) && ToMinutes(g.start) <= m < ToMinutes(g.end)
  {
    var live := LiveOnDay(bookings, day);
    var dayBookings := DayBookings(bookings, day);
    SortByStartCorrect(live);
    forall i | 0 <= i < |dayBookings|
      ensures !(ToMinutes(dayBookings[i].startTime) <= m < ToMinutes(dayBookings[i].endTime))
    {
      var b := dayBookings[i];
      assert b in multiset(dayBookings);
      assert b in live;
      assert !Overlaps(b, FromMinutes(m), FromMinutes(m + 1));
    }
    var w := Sweep(dayBookings, TimeSlot(day, 0, 0));
    SweepCovers(dayBookings, TimeSlot(day, 0, 0), m);
    if exists g :: g in w.0 && ToMinutes(g.start) <= m < ToMinutes(g.end) {
      var g :| g in w.0 && ToMinutes(g.start) <= m < ToMinutes(g.end);
      assert g in DaySlots(bookings, day);
    } else {
      assert Le(w.1, TimeSlot(day, 23, 59));
      assert Slot(w.1, TimeSlot(day, 24, 0)) in DaySlots(bookings, day);
    }
  }

  /** Every non-empty gap the sweep reports has `start < end`. */
  lemma DaySlotsNonEmptyGaps(bookings: seq<Booking>, day: nat)
    ensures forall g :: g in Sweep(DayBookings(bookings, day), TimeSlot(day, 0, 0)).0 ==> Lt(g.start, g.end)
  {
    SortByStartCorrect(LiveOnDay(bookings, day));
    SweepGaps(DayBookings(bookings, day), TimeSlot(day, 0, 0));
  }

  /** With no live booking starting that day, both the trailing and the whole-day branch fire. */
  lemma EmptyDayTwoSlots(bookings: seq<Booking>, day: nat)
    requires forall b :: b in bookings ==> b.cancelled || b.startTime.day != day
    ensures DaySlots(bookings, day) == [Slot(TimeSlot(day, 0, 0), TimeSlot(day, 24, 0)), Slot(TimeSlot(day, 0, 0), TimeSlot(day, 24, 0))]
  {
    NoneLiveOnDay(bookings, day);
  }

  lemma {:induction false} NoneLiveOnDay(bookings: seq<Booking>, day: nat)
    requires forall b :: b in bookings ==> b.cancelled || b.startTime.day != day
    ensures LiveOnDay(bookings, day) == []
    decreases |bookings|
  {
    if bookings != [] {
      assert bookings[0] in bookings;
      assert forall b :: b in bookings[1..] ==> b in bookings;
      NoneLiveOnDay(bookings[1..], day);
    }
  }

  /** A booking covering the whole day leaves no slot at all. */
  lemma FullyBookedDay(b: Booking, day: nat)
    requires !b.cancelled && b.startTime == TimeSlot(day, 0, 0) && Same(b.endTime, TimeSlot(day, 24, 0))
    ensures DaySlots([b], day) == []
  {
    assert [b][1..] == [];
    assert LiveOnDay([b], day) == [b];
    assert InsertByStart(b, []) == [b];
    assert SortByStart([b]) == InsertByStart(b, SortByStart([]));
    assert Max(TimeSlot(day, 0, 0), b.endTime) == b.endTime;
    assert Sweep([], b.endTime) == ([], b.endTime);
    var w := Sweep([b], TimeSlot(day, 0, 0));
    assert !Lt(TimeSlot(day, 0, 0), b.startTime);
    assert w == ([] + Sweep([b][1..], b.endTime).0, Sweep([b][1..], b.endTime).1);
  }

  /**
   * Back-to-back bookings leave no gap: starting at their first start, the
   * sweep ends at the last booking's end.
   */
  lemma {:induction false} SweepChain(s: seq<Booking>, current: TimeSlot)
    requires |s| > 0 && Same(current, s[0].startTime)
    requires forall i :: 0 <= i < |s| ==> Le(s[i].startTime, s[i].endTime)
    requires forall i :: 0 < i < |s| ==> Same(s[i].startTime, s[i - 1].endTime)
    ensures Sweep(s, current).0 == [] && Same(Sweep(s, current).1, s[|s| - 1].endTime)
    decreases |s|
  {
    var next := Max(current, s[0].endTime);
    assert Same(next, s[0].endTime);
    if |s| > 1 {
      SweepChain(s[1..], next);
    }
  }

  /**
   * A day covered by back-to-back bookings from 00:00 to 24:00 leaves no
   * slot at all.
   */
  lemma BackToBackDay(bookings: seq<Booking>, day: nat)
    requires var d := DayBookings(bookings, day);
      && |d| > 0 && d[0].startTime == TimeSlot(day, 0, 0)
      && (forall i :: 0 <= i < |d| ==> Le(d[i].startTime, d[i].endTime))
      && (forall i :: 0 < i < |d| ==> Same(d[i].startTime, d[i - 1].endTime))
      && Same(d[|d| - 1].endTime, TimeSlot(day, 24, 0))
    ensures DaySlots(bookings, day) == []
  {
    SweepChain(DayBookings(bookings, day), TimeSlot(day, 0, 0));
  }

  /**
   * Only bookings that start on the day are swept: one that runs past
   * midnight into the next day does not show up in that day's slots.
   */
  lemma OvernightBookingNotSeen()
    ensures var b := Booking("CONF000001", "Meeting Room A", TimeSlot(0, 23, 0), TimeSlot(1, 2, 0), TimeSlot(1, 2, 0), false);
      DaySlots([b], 1)[0] == Slot(TimeSlot(1, 0, 0), TimeSlot(1, 24, 0))
      && Overlaps(b, TimeSlot(1, 0, 0), TimeSlot(1, 24, 0))
  {
    var b := Booking("CONF000001", "Meeting Room A", TimeSlot(0, 23, 0), TimeSlot(1, 2, 0), TimeSlot(1, 2, 0), false);
    assert [b][1..] == [];
    assert LiveOnDay([b], 1) == [];
  }

  /** Fewest slots: at most one gap per booking of the day, plus the two end-of-day entries. */
  lemma DaySlotsCount(bookings: seq<Booking>, day: nat)
    ensures |DaySlots(bookings, day)| <= |bookings| + 2
  {
    var live := LiveOnDay(bookings, day);
    SortByStartCorrect(live);
    assert |multiset(DayBookings(bookings, day))| == |multiset(live)|;
    SweepGaps(DayBookings(bookings, day), TimeSlot(day, 0, 0));
    if DayBookings(bookings, day) == [] {
      assert live == [];
    }
  }

  /** A time every field of which `pack_time` accepts. */
  predicate Fits(t: TimeSlot)
  {
    0 <= t.day < 0x100 && t.hour < 0x100 && t.minute < 0x100
  }

  /**
   * The parts of a booking that can end up in a reported slot: the start's
   * hour and minute, and an end that fits whenever it is not before Monday.
   */
  predicate WireSafe(b: Booking)
  {
    b.startTime.hour < 0x100 && b.startTime.minute < 0x100
    && b.endTime.day < 0x100 && b.endTime.hour < 0x100 && b.endTime.minute < 0x100
    && (b.endTime.day < 0 ==> ToMinutes(b.endTime) < 0)
  }

  /** A booking whose end is shifted to a time within the week stays wire-safe. */
  lemma ShiftedEndWireSafe(b: Booking, end: TimeSlot, minutes: int)
    requires b.startTime.hour < 0x100 && b.startTime.minute < 0x100 && ToMinutes(end) + minutes <= MINUTES_PER_WEEK
    ensures WireSafe(b.(endTime := Shift(end, minutes)))
  {
    var t := Shift(end, minutes);
    var m := ToMinutes(end) + minutes;
    assert t == FromMinutes(m);
    assert t.day <= 7 && t.hour < 24 && t.minute < 60;
    assert t.day < 0 ==> m < 0;
  }

  lemma {:induction false} SweepFits(s: seq<Booking>, current: TimeSlot, day: nat)
    requires day < 0x100 && Fits(current)
    requires forall i :: 0 <= i < |s| ==> WireSafe(s[i]) && s[i].startTime.day == day
    ensures Fits(Sweep(s, current).1)
    ensures forall g :: g in Sweep(s, current).0 ==> Fits(g.start) && Fits(g.end)
    decreases |s|
  {
    if s != [] {
      assert forall i :: 1 <= i < |s| ==> s[i] == s[1..][i - 1];
      SweepFits(s[1..], Max(current, s[0].endTime), day);
    }
  }

  /** Availability for a byte-sized day over wire-safe bookings can always be packed. */
  lemma DaySlotsFit(bookings: seq<Booking>, day: nat)
    requires day < 0x100
    requires forall b :: b in bookings ==> WireSafe(b)
    ensures forall g :: g in DaySlots(bookings, day) ==> Fits(g.start) && Fits(g.end)
  {
    var live := LiveOnDay(bookings, day);
    var dayBookings := DayBookings(bookings, day);
    SortByStartCorrect(live);
    forall i | 0 <= i < |dayBookings|
      ensures WireSafe(dayBookings[i]) && dayBookings[i].startTime.day == day
    {
      assert dayBookings[i] in multiset(live);
    }
    SweepFits(dayBookings, TimeSlot(day, 0, 0), day);
  }
}
