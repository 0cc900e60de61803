/**
 * Week-relative times. A `TimeSlot` keeps the day, hour and minute it was
 * built from (they are what goes on the wire), but every comparison uses only
 * its minutes since Monday 00:00, so `(d, 24, 0)` and `(d + 1, 0, 0)` compare
 * equal while being different values.
 */
module TimeSlots {
  import opened Wrappers
  import opened Faults
  import Text

  const MINUTES_PER_DAY: nat := 24 * 60
  const MINUTES_PER_WEEK: nat := 7 * 24 * 60

  /**
   * The fields are unbounded: a request may carry any byte in each, and the
   * renormalised times Change produces can fall on a "day" past Sunday or,
   * for a booking that ends before it starts, before Monday.
   */
  datatype TimeSlot = TimeSlot(day: int, hour: nat, minute: nat)

  /** `to_minutes`: the ordering key. */
  function ToMinutes(t: TimeSlot): int
  {
    t.day * MINUTES_PER_DAY + t.hour * 60 + t.minute
  }

  /** `__lt__`, `__le__` and `__eq__`. */
  predicate Lt(a: TimeSlot, b: TimeSlot) { ToMinutes(a) < ToMinutes(b) }
  predicate Le(a: TimeSlot, b: TimeSlot) { ToMinutes(a) <= ToMinutes(b) }
  predicate Same(a: TimeSlot, b: TimeSlot) { ToMinutes(a) == ToMinutes(b) }

  /** Python's `min(a, b)` and `max(a, b)` on slots: on a tie both return `a`. */
  function Min(a: TimeSlot, b: TimeSlot): (r: TimeSlot)
    ensures ToMinutes(r) <= ToMinutes(a) && ToMinutes(r) <= ToMinutes(b) && (r == a || r == b)
    ensures Same(a, b) ==> r == a
  {
    if Lt(b, a) then b else a
  }

  function Max(a: TimeSlot, b: TimeSlot): (r: TimeSlot)
    ensures ToMinutes(r) >= ToMinutes(a) && ToMinutes(r) >= ToMinutes(b) && (r == a || r == b)
    ensures Same(a, b) ==> r == a
  {
    if Lt(a, b) then b else a
  }

  /**
   * The renormalisation the server applies to minute counts:
   * `TimeSlot(m // 1440, (m // 60) % 24, m % 60)`. Python's `//` and `%`
   * floor, which for a positive divisor is what Dafny's `/` and `%` do.
   */
  function FromMinutes(m: int): (t: TimeSlot)
    ensures ToMinutes(t) == m && t.hour < 24 && t.minute < 60
    ensures m <= MINUTES_PER_WEEK ==> t.day <= 7
    ensures t.day == 7 ==> m >= MINUTES_PER_WEEK
    ensures (t.day >= 0) == (m >= 0)
  {
    var h := m / 60;
    assert m == h * 60 + m % 60;
    assert h == (h / 24) * 24 + h % 24;
    assert m / MINUTES_PER_DAY == h / 24;
    TimeSlot(m / MINUTES_PER_DAY, h % 24, m % 60)
  }

  /**
   * On normalised slots the `to_minutes` key orders by day, then hour, then
   * minute, and renormalising the key gives the slot back.
   */
  lemma ToMinutesOrder(a: TimeSlot, b: TimeSlot)
    requires a.hour < 24 && a.minute < 60 && b.hour < 24 && b.minute < 60
    ensures Lt(a, b) <==> a.day < b.day || (a.day == b.day && (a.hour < b.hour || (a.hour == b.hour && a.minute < b.minute)))
    ensures Same(a, b) <==> a == b
    ensures FromMinutes(ToMinutes(a)) == a
  {
    var ca, cb := a.hour * 60 + a.minute, b.hour * 60 + b.minute;
    assert 0 <= ca < MINUTES_PER_DAY && 0 <= cb < MINUTES_PER_DAY;
    assert ToMinutes(a) == a.day * MINUTES_PER_DAY + ca && ToMinutes(b) == b.day * MINUTES_PER_DAY + cb;
    if a.day < b.day {
      assert a.day * MINUTES_PER_DAY + MINUTES_PER_DAY <= b.day * MINUTES_PER_DAY;
    } else if b.day < a.day {
      assert b.day * MINUTES_PER_DAY + MINUTES_PER_DAY <= a.day * MINUTES_PER_DAY;
    }
  }

  /** `t` moved by `minutes` and renormalised, as the change and extend handlers compute new times. */
  function Shift(t: TimeSlot, minutes: int): (r: TimeSlot)
    ensures ToMinutes(r) == ToMinutes(t) + minutes && r.hour < 24 && r.minute < 60
  {
    FromMinutes(ToMinutes(t) + minutes)
  }

  const DAY_NAMES: seq<string> := ["Mon", "Tue", "Wed", "Thu", "Fri", "Sat", "Sun"]

  /**
   * `__str__`, e.g. "Mon 10:30". Python list indexing accepts -7..6, a
   * negative index counting from the end, and raises IndexError otherwise.
   */
  function Format(t: TimeSlot): (r: Result<string, Fault>)
    ensures r.Err? <==> t.day >= 7 || t.day < -7
    ensures r.Err? ==> r.error == IndexError
    ensures r.Ok? ==> |r.value| >= 9 && r.value[..3] == DAY_NAMES[if t.day < 0 then t.day + 7 else t.day]
  {
    if -|DAY_NAMES| <= t.day < |DAY_NAMES| then
      var name := DAY_NAMES[if t.day < 0 then t.day + |DAY_NAMES| else t.day];
      Ok(name + " " + Text.ZeroPadded(t.hour, 2) + ":" + Text.ZeroPadded(t.minute, 2))
    else
      Err(IndexError)
  }

  /** A normalised time prints in exactly nine characters, "Ddd HH:MM". */
  lemma FormatLength(t: TimeSlot)
    requires t.hour < 24 && t.minute < 60 && Format(t).Ok?
    ensures |Format(t).value| == 9
  {
    Text.DecimalLength(t.hour, 2, 100);
    Text.DecimalLength(t.minute, 2, 100);
  }

  /** After the day name, a normalised time prints a space, the hour in two digits, a colon and the minute in two digits. */
  lemma FormatClock(t: TimeSlot)
    requires t.hour < 24 && t.minute < 60 && Format(t).Ok?
    ensures |Format(t).value| == 9 && Format(t).value[3] == ' ' && Format(t).value[6] == ':'
    ensures Text.AllDigits(Format(t).value[4..6]) && Text.DigitsValue(Format(t).value[4..6]) == t.hour
    ensures Text.AllDigits(Format(t).value[7..9]) && Text.DigitsValue(Format(t).value[7..9]) == t.minute
  {
    FormatLength(t);
    var hh, mm := Text.ZeroPadded(t.hour, 2), Text.ZeroPadded(t.minute, 2);
    Text.DecimalLength(t.hour, 2, 100);
    Text.DecimalLength(t.minute, 2, 100);
    Text.ZeroPaddedValue(t.hour, 2);
    Text.ZeroPaddedValue(t.minute, 2);
    var v := Format(t).value;
    assert v == DAY_NAMES[if t.day < 0 then t.day + 7 else t.day] + " " + hh + ":" + mm;
    assert v[4..6] == hh;
    assert v[7..9] == mm;
  }

  /** End of day and the next midnight are the same time, though not the same slot. */
  lemma EndOfDayIsNextMidnight(d: int)
    ensures Same(TimeSlot(d, 24, 0), TimeSlot(d + 1, 0, 0))
    ensures TimeSlot(d, 24, 0) != TimeSlot(d + 1, 0, 0)
  {}

  /** A sample rendering: hour and minute are zero-padded to two digits. */
  lemma FormatMonday()
    ensures Format(TimeSlot(0, 9, 5)) == Ok("Mon 09:05")
  {
    assert Text.Decimal(9) == "9" && Text.Decimal(5) == "5" && Text.Zeros(1) == "0";
    assert Text.ZeroPadded(9, 2) == "09" && Text.ZeroPadded(5, 2) == "05";
    assert DAY_NAMES[0] + " " + "09" + ":" + "05" == "Mon 09:05";
  }

  /** The end of the week renormalises to day 7, which cannot be printed. */
  lemma FormatWeekEnd()
    ensures Format(FromMinutes(MINUTES_PER_WEEK)) == Err(IndexError)
  {
  }

  /** Ten minutes before Monday renormalises to day -1, which prints as Sunday. */
  lemma FormatBeforeMonday()
    ensures Format(FromMinutes(-10)) == Ok("Sun 23:50")
  {
    assert FromMinutes(-10) == TimeSlot(-1, 23, 50);
    assert Text.Decimal(23) == "23" && Text.Decimal(50) == "50";
    assert Text.ZeroPadded(23, 2) == "23" && Text.ZeroPadded(50, 2) == "50";
    assert DAY_NAMES[6] + " " + "23" + ":" + "50" == "Sun 23:50";
  }
}
