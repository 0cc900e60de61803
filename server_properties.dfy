/**
 * What the booking engine promises across requests: the order in which the
 * handlers reject a request and that a rejected request changes nothing, the
 * exact effect of an accepted one, the shape invariant every handler keeps,
 * that live bookings of a facility never overlap, that Extend can be
 * repeated and Cancel cannot, and how the at-most-once cache answers a
 * retransmitted request.
 */
module ServerProperties {
  import opened Wrappers
  import opened Bytes
  import opened Faults
  import Utf8
  import Text
  import opened Marshalling
  import opened Protocol
  import opened TimeSlots
  import opened Facilities
  import opened Service
  import CodecProperties

  // ------------------------------------------------------------ reply codes

  /** The error code of a reply as a client reads it: the ERROR type byte, then the code. */
  function ErrorCode(reply: seq<byte>): Option<byte>
  {
    if ReadUint8(reply, 0).result == Ok(ERROR) && ReadUint8(reply, 1).result.Ok? then
      Some(ReadUint8(reply, 1).result.value)
    else None
  }

  /** The code a handler's outcome is answered with; a raised exception becomes INVALID_REQUEST. */
  function OutcomeCode(o: Outcome): Option<byte>
  {
    ErrorCode(ReplyBytes(o.reply))
  }

  lemma ErrorReplyCode(st: State, code: byte, message: string)
    requires |message| < 0x4000_0000
    ensures OutcomeCode(ErrorReply(st, code, message)) == Some(code)
    ensures ErrorReply(st, code, message).state == st && ErrorReply(st, code, message).sent == []
  {
    TextFits(message);
    var r := ErrorResponse(code, message);
    assert r[0] == ERROR && r[1] == code;
  }

  lemma RaiseCode(st: State, fault: Fault)
    ensures OutcomeCode(Raise(st, fault)) == Some(INVALID_REQUEST)
  {
    TextFits(Message(fault));
    var r := ErrorResponse(INVALID_REQUEST, Message(fault));
    assert r[0] == ERROR && r[1] == INVALID_REQUEST;
  }

  // --------------------------------------------------------------- booking

  /** Distinct counter values give distinct confirmation ids. */
  lemma ConfirmationIdInjective(a: nat, b: nat)
    requires ConfirmationId(a) == ConfirmationId(b)
    ensures a == b
  {
    assert ConfirmationId(a)[4..] == Text.ZeroPadded(a, 6);
    assert ConfirmationId(b)[4..] == Text.ZeroPadded(b, 6);
    Text.ZeroPaddedInjective(a, b, 6);
  }

  /**
   * Book's error precedence: a time that cannot be printed (answered
   * INVALID_REQUEST), then an unknown facility, then an empty or reversed
   * range, then a clash with a live booking. A rejected request changes
   * nothing and notifies no one.
   */
  lemma BookErrorOrder(st: State, name: string, start: TimeSlot, end: TimeSlot, now: int)
    requires Ready(st) && |name| <= MAX_MESSAGE_SIZE && Fits(start) && Fits(end)
    ensures var o := Book(st, name, start, end, now);
      && (start.day >= 7 || end.day >= 7 ==> OutcomeCode(o) == Some(INVALID_REQUEST))
      && (start.day < 7 && end.day < 7 && name !in st.facilities ==> OutcomeCode(o) == Some(FACILITY_NOT_FOUND))
      && (start.day < 7 && end.day < 7 && name in st.facilities && Le(end, start) ==> OutcomeCode(o) == Some(INVALID_TIME_RANGE))
      && ((start.day < 7 && end.day < 7 && name in st.facilities && Lt(start, end)
           && !Available(FacilityBookings(st, name), start, end)) ==> OutcomeCode(o) == Some(FACILITY_UNAVAILABLE))
      && (!(start.day < 7 && end.day < 7 && name in st.facilities && Lt(start, end) && Available(FacilityBookings(st, name), start, end))
          ==> o.state == st && o.sent == [])
  {
    if start.day >= 7 || end.day >= 7 {
      RaiseCode(st, IndexError);
    } else if name !in st.facilities {
      ErrorReplyCode(st, FACILITY_NOT_FOUND, NotFoundText(name));
    } else if Le(end, start) {
      ErrorReplyCode(st, INVALID_TIME_RANGE, MSG_BAD_RANGE);
    } else if !Available(FacilityBookings(st, name), start, end) {
      ErrorReplyCode(st, FACILITY_UNAVAILABLE, MSG_UNAVAILABLE);
    }
  }

  /**
   * An accepted booking gets the next counter value as its id, which no
   * booking has yet; it is appended to the facility's list and the id map, the
   * counter moves on, and the reply carries the id.
   */
  lemma BookAccepted(st: State, name: string, start: TimeSlot, end: TimeSlot, now: int)
    requires Ready(st) && Valid(st) && |name| <= MAX_MESSAGE_SIZE && Fits(start) && Fits(end)
    requires start.day < 7 && end.day < 7 && name in st.facilities && Lt(start, end)
    requires Available(FacilityBookings(st, name), start, end)
    ensures var o := Book(st, name, start, end, now); var id := ConfirmationId(st.nextConfirmationId);
      && id !in st.bookings
      && o.state.bookings == st.bookings[id := Booking(id, name, start, end, end, false)]
      && o.state.facilities == st.facilities[name := st.facilities[name] + [id]]
      && o.state.nextConfirmationId == st.nextConfirmationId + 1
      && o.state.monitors == CleanExpired(st.monitors, now)
      && o.state.history == st.history
      && o.reply.Ok? && ReadUint8(o.reply.value, 0).result == Ok(BOOK_RESPONSE)
      && ReadString(o.reply.value, 1).result == Ok(id)
    ensures Packable(Book(st, name, start, end, now).state.(monitors := st.monitors))
    ensures var o := Book(st, name, start, end, now);
      o.sent == Notify(o.state.(monitors := st.monitors), name, now).1
  {
    var id := ConfirmationId(st.nextConfirmationId);
    ConfirmationIdFits(st.nextConfirmationId);
    AddBookingPackable(st, name, id, Booking(id, name, start, end, end, false));
    CodecProperties.ReadStringPacked(PackUint8(BOOK_RESPONSE), id, []);
    assert PackUint8(BOOK_RESPONSE) + PackString(id) + [] == BookReply(id);
  }

  // ------------------------------------------------------------- invariant

  /** A valid state is ready for the next request as long as the id counter has room. */
  lemma ValidReady(st: State)
    requires Valid(st) && st.nextConfirmationId < BOOKING_LIMIT
    ensures Ready(st)
  {
  }

  /** The monitor sweep touches only the monitor list. */
  lemma NotifyOnlyMonitors(st: State, name: string, now: int)
    requires Packable(st)
    ensures Notify(st, name, now).0 == st.(monitors := CleanExpired(st.monitors, now))
  {
  }

  /** Every built-in facility name is short enough for a length prefix. */
  lemma FacilityNamesFit()
    ensures forall n :: n in FACILITY_NAMES ==> |Utf8.Encode(n)| < TWO_32
  {
    forall n | n in FACILITY_NAMES
      ensures |Utf8.Encode(n)| < TWO_32
    {
      assert |n| < 20;
      TextFits(n);
    }
  }

  /** The server starts with the four facilities, each with an empty list, and the counter at 1. */
  lemma InitialValid()
    ensures Valid(InitialState())
  {
    FacilityNamesFit();
  }

  /** The initial state has no bookings, so nothing overlaps. */
  lemma InitialSound()
    ensures InitialState().bookings == map[] && Sound(InitialState())
  {
  }

  /** Rewriting a booking in place keeps the shape, as long as its id and facility stay. */
  lemma ReplaceKeepsValid(st: State, id: string, b: Booking)
    requires Valid(st) && id in st.bookings && WireSafe(b)
    requires b.confirmationId == id && b.facilityName == st.bookings[id].facilityName
    ensures Valid(st.(bookings := st.bookings[id := b]))
  {
    ReplaceBookingPackable(st, id, b);
  }

  /** The invariants read only the facility lists, the bookings and the counter. */
  lemma SameShapeKeeps(a: State, b: State)
    requires a.facilities == b.facilities && a.bookings == b.bookings && a.nextConfirmationId == b.nextConfirmationId
    ensures Valid(a) ==> Valid(b)
    ensures Ready(a) ==> Ready(b)
    ensures Sound(a) ==> Sound(b)
  {
  }

  /** Once the counter's id is taken and the counter moves on, every later id is still free. */
  lemma FreshIdsAfterAdd(bookings: map<string, Booking>, next: nat, b: Booking)
    requires FreshIds(bookings, next) && b.confirmationId == ConfirmationId(next)
    ensures FreshIds(bookings[b.confirmationId := b], next + 1)
  {
    forall k: nat | k >= next + 1
      ensures ConfirmationId(k) !in bookings[b.confirmationId := b]
    {
      if ConfirmationId(k) == b.confirmationId {
        ConfirmationIdInjective(k, next);
      }
    }
  }

  /** Listing a new booking at the end of its facility keeps every listed id booked. */
  lemma ListedBookedAfterAdd(facilities: map<string, seq<string>>, bookings: map<string, Booking>, b: Booking)
    requires ListedBooked(facilities, bookings) && b.facilityName in facilities && b.confirmationId !in bookings
    ensures ListedBooked(facilities[b.facilityName := facilities[b.facilityName] + [b.confirmationId]],
                         bookings[b.confirmationId := b])
  {
    var name, id := b.facilityName, b.confirmationId;
    var f, m := facilities[name := facilities[name] + [id]], bookings[id := b];
    forall n, i | n in f && 0 <= i < |f[n]|
      ensures f[n][i] in m && m[f[n][i]].facilityName == n
    {
      if n == name && i == |facilities[n]| {
        assert f[n][i] == id;
      } else {
        assert f[n][i] == facilities[n][i];
      }
    }
  }

  /** Booking a fresh id and listing it keeps every booking listed. */
  lemma BookedListedAfterAdd(facilities: map<string, seq<string>>, bookings: map<string, Booking>, b: Booking)
    requires BookedListed(facilities, bookings) && b.facilityName in facilities && b.confirmationId !in bookings
    ensures BookedListed(facilities[b.facilityName := facilities[b.facilityName] + [b.confirmationId]],
                         bookings[b.confirmationId := b])
  {
    var name, id := b.facilityName, b.confirmationId;
    var f, m := facilities[name := facilities[name] + [id]], bookings[id := b];
    forall x | x in m
      ensures m[x].confirmationId == x && m[x].facilityName in f && x in f[m[x].facilityName]
    {
      if x != id {
        var n := bookings[x].facilityName;
        assert x in facilities[n];
        assert f[n] == facilities[n] || f[n] == facilities[n] + [id];
      }
    }
  }

  /** Adding a fresh booking under the counter's id keeps the shape. */
  lemma AddBookingKeepsValid(st: State, name: string, b: Booking)
    requires Valid(st) && name in st.facilities && |st.facilities[name]| < BOOKING_LIMIT && WireSafe(b)
    requires b.confirmationId == ConfirmationId(st.nextConfirmationId) && b.facilityName == name
    ensures Valid(st.(facilities := st.facilities[name := st.facilities[name] + [b.confirmationId]],
                      bookings := st.bookings[b.confirmationId := b],
                      nextConfirmationId := st.nextConfirmationId + 1))
  {
    AddBookingPackable(st, name, b.confirmationId, b);
    FreshIdsAfterAdd(st.bookings, st.nextConfirmationId, b);
    ListedBookedAfterAdd(st.facilities, st.bookings, b);
    BookedListedAfterAdd(st.facilities, st.bookings, b);
  }

  // ---------------------------------------------------------------- change

  /**
   * Change's error precedence: an unknown id, then a cancelled booking, then
   * a shifted range outside the week, then a clash with another booking of
   * the facility. A rejected change changes nothing and notifies no one.
   */
  lemma ChangeErrorOrder(st: State, id: string, offset: int32, now: int)
    requires Ready(st)
    ensures var o := Change(st, id, offset, now);
      && (id !in st.bookings ==> OutcomeCode(o) == Some(INVALID_CONFIRMATION_ID) && o.state == st && o.sent == [])
      && (id in st.bookings && st.bookings[id].cancelled ==> OutcomeCode(o) == Some(BOOKING_NOT_FOUND) && o.state == st && o.sent == [])
      && (id in st.bookings && !st.bookings[id].cancelled ==> o == ChangeBy(st, id, offset, now))
  {
    if id !in st.bookings {
      ErrorReplyCode(st, INVALID_CONFIRMATION_ID, MSG_INVALID_ID);
    } else if st.bookings[id].cancelled {
      ErrorReplyCode(st, BOOKING_NOT_FOUND, MSG_CANCELLED);
    }
  }

  /** The range and clash checks of Change, for a live booking. */
  lemma ChangeByErrorOrder(st: State, id: string, offset: int32, now: int)
    requires Ready(st) && id in st.bookings
    ensures var o := ChangeBy(st, id, offset, now); var b := st.bookings[id];
      && (ToMinutes(b.startTime) + offset < 0 || ToMinutes(b.endTime) + offset > MINUTES_PER_WEEK
          ==> OutcomeCode(o) == Some(INVALID_TIME_RANGE) && o.state == st && o.sent == [])
      && ((ToMinutes(b.startTime) + offset >= 0 && ToMinutes(b.endTime) + offset <= MINUTES_PER_WEEK
           && !OthersClear(FacilityBookings(st, b.facilityName), id, Shift(b.startTime, offset), Shift(b.endTime, offset)))
          ==> OutcomeCode(o) == Some(FACILITY_UNAVAILABLE) && o.state == st && o.sent == [])
  {
    var b := st.bookings[id];
    if ToMinutes(b.startTime) + offset < 0 || ToMinutes(b.endTime) + offset > MINUTES_PER_WEEK {
      ErrorReplyCode(st, INVALID_TIME_RANGE, MSG_OUTSIDE_WEEK);
    } else if !OthersClear(FacilityBookings(st, b.facilityName), id, Shift(b.startTime, offset), Shift(b.endTime, offset)) {
      ErrorReplyCode(st, FACILITY_UNAVAILABLE, MSG_CHANGE_UNAVAILABLE);
    }
  }

  /**
   * An accepted change moves both ends of the booking by exactly the offset
   * and touches nothing else: not the original end, not the facility lists,
   * not the counter; the reply is CHANGE_RESPONSE with `True`.
   */
  lemma ChangeAccepted(st: State, id: string, offset: int32, now: int)
    requires Ready(st) && id in st.bookings && !st.bookings[id].cancelled
    requires ToMinutes(st.bookings[id].startTime) + offset >= 0 && ToMinutes(st.bookings[id].endTime) + offset <= MINUTES_PER_WEEK
    requires OthersClear(FacilityBookings(st, st.bookings[id].facilityName), id,
                         Shift(st.bookings[id].startTime, offset), Shift(st.bookings[id].endTime, offset))
    ensures var o := Change(st, id, offset, now); var b := st.bookings[id];
      && o.state.bookings.Keys == st.bookings.Keys
      && (forall x :: x in st.bookings && x != id ==> o.state.bookings[x] == st.bookings[x])
      && ToMinutes(o.state.bookings[id].startTime) == ToMinutes(b.startTime) + offset
      && ToMinutes(o.state.bookings[id].endTime) == ToMinutes(b.endTime) + offset
      && o.state.bookings[id] == b.(startTime := o.state.bookings[id].startTime, endTime := o.state.bookings[id].endTime)
      && o.state.facilities == st.facilities && o.state.nextConfirmationId == st.nextConfirmationId
      && o.state.monitors == CleanExpired(st.monitors, now) && o.state.history == st.history
      && o.reply == Ok(ChangeReply())
    ensures Packable(Change(st, id, offset, now).state.(monitors := st.monitors))
    ensures var o := Change(st, id, offset, now);
      o.sent == Notify(o.state.(monitors := st.monitors), st.bookings[id].facilityName, now).1
  {
    var b := st.bookings[id];
    var moved := b.(startTime := Shift(b.startTime, offset), endTime := Shift(b.endTime, offset));
    ShiftedEndWireSafe(b.(startTime := Shift(b.startTime, offset)), b.endTime, offset);
    ReplaceBookingPackable(st, id, moved);
    NotifyOnlyMonitors(st.(bookings := st.bookings[id := moved]), b.facilityName, now);
  }

  // ---------------------------------------------------------------- extend

  /**
   * Extend's error precedence: an unknown id, then a cancelled booking, then
   * a target end past the week, where the target counts from the end the
   * booking was made with, then a clash in the window between the current
   * and the target end.
   */
  lemma ExtendErrorOrder(st: State, id: string, minutes: uint32, now: int)
    requires Ready(st)
    ensures var o := Extend(st, id, minutes, now);
      && (id !in st.bookings ==> OutcomeCode(o) == Some(INVALID_CONFIRMATION_ID) && o.state == st && o.sent == [])
      && (id in st.bookings && st.bookings[id].cancelled ==> OutcomeCode(o) == Some(BOOKING_NOT_FOUND) && o.state == st && o.sent == [])
      && (id in st.bookings && !st.bookings[id].cancelled ==> o == ExtendUntil(st, id, minutes, now))
  {
    if id !in st.bookings {
      ErrorReplyCode(st, INVALID_CONFIRMATION_ID, MSG_INVALID_ID);
    } else if st.bookings[id].cancelled {
      ErrorReplyCode(st, BOOKING_NOT_FOUND, MSG_CANCELLED);
    }
  }

  lemma ExtendUntilErrorOrder(st: State, id: string, minutes: uint32, now: int)
    requires Ready(st) && id in st.bookings
    ensures var o := ExtendUntil(st, id, minutes, now); var b := st.bookings[id];
      && (ToMinutes(b.originalEndTime) + minutes > MINUTES_PER_WEEK
          ==> OutcomeCode(o) == Some(INVALID_TIME_RANGE) && o.state == st && o.sent == [])
      && (ToMinutes(b.originalEndTime) + minutes <= MINUTES_PER_WEEK ==> o == ExtendTo(st, id, Shift(b.originalEndTime, minutes), now))
  {
    var b := st.bookings[id];
    if ToMinutes(b.originalEndTime) + minutes > MINUTES_PER_WEEK {
      ErrorReplyCode(st, INVALID_TIME_RANGE, MSG_EXTEND_TOO_LATE);
    }
  }

  /** An end already at the target is only reported: no change and no update sent. */
  lemma ExtendToSame(st: State, id: string, newEnd: TimeSlot, now: int)
    requires Ready(st) && id in st.bookings && newEnd.hour < 24 && newEnd.minute < 60
    requires WireSafe(st.bookings[id].(endTime := newEnd)) && Same(st.bookings[id].endTime, newEnd)
    ensures var o := ExtendTo(st, id, newEnd, now);
      o.state == st && o.sent == [] && (Format(newEnd).Ok? ==> o.reply == Ok(ExtendReply(newEnd)))
  {
  }

  /** A clash in the window between the current and the target end is FACILITY_UNAVAILABLE with no change. */
  lemma ExtendToBlocked(st: State, id: string, newEnd: TimeSlot, now: int)
    requires Ready(st) && id in st.bookings && newEnd.hour < 24 && newEnd.minute < 60
    requires WireSafe(st.bookings[id].(endTime := newEnd)) && !Same(st.bookings[id].endTime, newEnd)
    requires !OthersClear(FacilityBookings(st, st.bookings[id].facilityName), id,
                          Min(st.bookings[id].endTime, newEnd), Max(st.bookings[id].endTime, newEnd))
    ensures var o := ExtendTo(st, id, newEnd, now);
      OutcomeCode(o) == Some(FACILITY_UNAVAILABLE) && o.state == st && o.sent == []
  {
    ErrorReplyCode(st, FACILITY_UNAVAILABLE, MSG_EXTEND_UNAVAILABLE);
  }

  /**
   * With the window clear, the end moves to the target and only that
   * booking changes; when both ends can be printed the reply is
   * EXTEND_RESPONSE naming the new end.
   */
  lemma ExtendToMoves(st: State, id: string, newEnd: TimeSlot, now: int)
    requires Ready(st) && id in st.bookings && newEnd.hour < 24 && newEnd.minute < 60
    requires WireSafe(st.bookings[id].(endTime := newEnd)) && !Same(st.bookings[id].endTime, newEnd)
    requires OthersClear(FacilityBookings(st, st.bookings[id].facilityName), id,
                         Min(st.bookings[id].endTime, newEnd), Max(st.bookings[id].endTime, newEnd))
    ensures var o := ExtendTo(st, id, newEnd, now);
      && o.state.bookings == st.bookings[id := st.bookings[id].(endTime := newEnd)]
      && o.state.facilities == st.facilities && o.state.nextConfirmationId == st.nextConfirmationId
      && o.state.history == st.history
      && (Format(st.bookings[id].endTime).Ok? && Format(newEnd).Ok? ==> o.reply == Ok(ExtendReply(newEnd)))
    ensures var o := ExtendTo(st, id, newEnd, now);
      Format(st.bookings[id].endTime).Ok? && Format(newEnd).Ok? ==> o.state.monitors == CleanExpired(st.monitors, now)
    ensures Packable(ExtendTo(st, id, newEnd, now).state.(monitors := st.monitors))
    ensures var o := ExtendTo(st, id, newEnd, now);
      Format(st.bookings[id].endTime).Ok? && Format(newEnd).Ok? ==>
        o.sent == Notify(o.state.(monitors := st.monitors), st.bookings[id].facilityName, now).1
    ensures var o := ExtendTo(st, id, newEnd, now);
      Format(st.bookings[id].endTime).Err? || Format(newEnd).Err? ==>
        OutcomeCode(o) == Some(INVALID_REQUEST) && o.sent == [] && o.state.monitors == st.monitors
  {
    var b := st.bookings[id];
    var st1 := st.(bookings := st.bookings[id := b.(endTime := newEnd)]);
    if Format(b.endTime).Err? || Format(newEnd).Err? {
      RaiseCode(st1, IndexError);
    } else {
      ReplaceBookingPackable(st, id, b.(endTime := newEnd));
      NotifyOnlyMonitors(st1, b.facilityName, now);
    }
  }

  /**
   * The target end exactly at the end of the week: when the end is already
   * there, the print raises and nothing changes; otherwise the end is moved
   * first and the print after it raises, so the state changes, no update is
   * sent, and the client is told INVALID_REQUEST.
   */
  lemma ExtendToWeekEnd(st: State, id: string, newEnd: TimeSlot, now: int)
    requires Ready(st) && id in st.bookings && newEnd.hour < 24 && newEnd.minute < 60
    requires WireSafe(st.bookings[id].(endTime := newEnd)) && ToMinutes(newEnd) == MINUTES_PER_WEEK
    requires Same(st.bookings[id].endTime, newEnd)
      || OthersClear(FacilityBookings(st, st.bookings[id].facilityName), id, Min(st.bookings[id].endTime, newEnd), Max(st.bookings[id].endTime, newEnd))
    ensures var o := ExtendTo(st, id, newEnd, now);
      && OutcomeCode(o) == Some(INVALID_REQUEST) && o.sent == []
      && o.state == (if Same(st.bookings[id].endTime, newEnd) then st else st.(bookings := st.bookings[id := st.bookings[id].(endTime := newEnd)]))
  {
    assert newEnd.day == 7;
    var b := st.bookings[id];
    if Same(b.endTime, newEnd) {
      RaiseCode(st, IndexError);
    } else {
      RaiseCode(st.(bookings := st.bookings[id := b.(endTime := newEnd)]), IndexError);
    }
  }

  /** ExtendTo keeps the invariant, on every path, the one that raises after the update included. */
  lemma ExtendToKeepsValid(st: State, id: string, newEnd: TimeSlot, now: int)
    requires Ready(st) && Valid(st) && id in st.bookings && newEnd.hour < 24 && newEnd.minute < 60
    requires WireSafe(st.bookings[id].(endTime := newEnd))
    ensures Valid(ExtendTo(st, id, newEnd, now).state) && Ready(ExtendTo(st, id, newEnd, now).state)
  {
    var o := ExtendTo(st, id, newEnd, now);
    var b := st.bookings[id];
    if Same(b.endTime, newEnd) {
      ExtendToSame(st, id, newEnd, now);
    } else if !OthersClear(FacilityBookings(st, b.facilityName), id, Min(b.endTime, newEnd), Max(b.endTime, newEnd)) {
      ExtendToBlocked(st, id, newEnd, now);
    } else {
      ExtendToMoves(st, id, newEnd, now);
      ReplaceKeepsValid(st, id, b.(endTime := newEnd));
      SameShapeKeeps(st.(bookings := st.bookings[id := b.(endTime := newEnd)]), o.state);
    }
  }

  /**
   * Extend is idempotent: once an extension has gone through (the end was
   * already at the target, or the window was clear), repeating the same
   * request changes nothing, sends no update, and answers EXTEND_RESPONSE
   * with the same end whenever that end can be printed.
   */
  lemma ExtendRepeat(st: State, id: string, minutes: uint32, now: int, later: int)
    requires Ready(st) && Valid(st) && id in st.bookings && !st.bookings[id].cancelled
    requires ToMinutes(st.bookings[id].originalEndTime) + minutes <= MINUTES_PER_WEEK
    requires var b := st.bookings[id]; var target := Shift(b.originalEndTime, minutes);
      Same(b.endTime, target) || OthersClear(FacilityBookings(st, b.facilityName), id, Min(b.endTime, target), Max(b.endTime, target))
    ensures var o1 := Extend(st, id, minutes, now);
      && Valid(o1.state) && Ready(o1.state)
      && id in o1.state.bookings && Same(o1.state.bookings[id].endTime, Shift(st.bookings[id].originalEndTime, minutes))
    ensures var o1 := Extend(st, id, minutes, now); var o2 := Extend(o1.state, id, minutes, later);
      var target := Shift(st.bookings[id].originalEndTime, minutes);
      && o2.state == o1.state && o2.sent == []
      && (Format(target).Ok? ==> o2.reply == Ok(ExtendReply(target)))
  {
    var b := st.bookings[id];
    var target := Shift(b.originalEndTime, minutes);
    ExtendErrorOrder(st, id, minutes, now);
    ExtendUntilErrorOrder(st, id, minutes, now);
    ShiftedEndWireSafe(b, b.originalEndTime, minutes);
    ExtendToKeepsValid(st, id, target, now);
    var o1 := Extend(st, id, minutes, now);
    if Same(b.endTime, target) {
      ExtendToSame(st, id, target, now);
    } else {
      ExtendToMoves(st, id, target, now);
    }
    var s1 := o1.state;
    assert s1.bookings[id] == b || s1.bookings[id] == b.(endTime := target);
    ExtendErrorOrder(s1, id, minutes, later);
    ExtendUntilErrorOrder(s1, id, minutes, later);
    ShiftedEndWireSafe(s1.bookings[id], b.originalEndTime, minutes);
    ExtendToSame(s1, id, target, later);
  }

  // ---------------------------------------------------------------- cancel

  /** Cancel's error precedence: an unknown id, then a booking already cancelled; neither changes anything. */
  lemma CancelErrorOrder(st: State, id: string, now: int)
    requires Ready(st)
    ensures var o := Cancel(st, id, now);
      && (id !in st.bookings ==> OutcomeCode(o) == Some(INVALID_CONFIRMATION_ID) && o.state == st && o.sent == [])
      && (id in st.bookings && st.bookings[id].cancelled ==> OutcomeCode(o) == Some(ALREADY_CANCELLED) && o.state == st && o.sent == [])
  {
    if id !in st.bookings {
      ErrorReplyCode(st, INVALID_CONFIRMATION_ID, MSG_INVALID_ID);
    } else if st.bookings[id].cancelled {
      ErrorReplyCode(st, ALREADY_CANCELLED, MSG_ALREADY_CANCELLED);
    }
  }

  /**
   * The first cancel of a live booking marks it cancelled, keeps it in both
   * collections, and answers CANCEL_RESPONSE; every later cancel of it is
   * ALREADY_CANCELLED and changes nothing.
   */
  lemma CancelTwice(st: State, id: string, now: int, later: int)
    requires Ready(st) && Valid(st) && id in st.bookings && !st.bookings[id].cancelled
    ensures var o1 := Cancel(st, id, now);
      && o1.state.bookings == st.bookings[id := st.bookings[id].(cancelled := true)]
      && o1.state.facilities == st.facilities && o1.state.nextConfirmationId == st.nextConfirmationId
      && o1.state.history == st.history
      && o1.reply == Ok(CancelReply())
      && Valid(o1.state) && Ready(o1.state)
    ensures Cancel(st, id, now).state.monitors == CleanExpired(st.monitors, now)
    ensures Packable(Cancel(st, id, now).state.(monitors := st.monitors))
    ensures var o1 := Cancel(st, id, now);
      o1.sent == Notify(o1.state.(monitors := st.monitors), st.bookings[id].facilityName, now).1
    ensures var o1 := Cancel(st, id, now); var o2 := Cancel(o1.state, id, later);
      OutcomeCode(o2) == Some(ALREADY_CANCELLED) && o2.state == o1.state && o2.sent == []
  {
    var b := st.bookings[id];
    var st1 := st.(bookings := st.bookings[id := b.(cancelled := true)]);
    ReplaceBookingPackable(st, id, b.(cancelled := true));
    NotifyOnlyMonitors(st1, b.facilityName, now);
    ReplaceKeepsValid(st, id, b.(cancelled := true));
    var o1 := Cancel(st, id, now);
    SameShapeKeeps(st1, o1.state);
    CancelErrorOrder(o1.state, id, later);
  }

  // -------------------------------------------------------------- monitors

  /**
   * Registering for an unknown facility is FACILITY_NOT_FOUND and changes
   * nothing; otherwise the registration `(name, client, now + seconds)` is
   * appended and the reply is MONITOR_RESPONSE, `True` and a text: the
   * availability the handler computes is not part of it.
   */
  lemma MonitorEffect(st: State, name: string, seconds: uint32, client: Endpoint, now: int)
    requires Ready(st) && |name| <= MAX_MESSAGE_SIZE
    ensures var o := Monitor(st, name, seconds, client, now);
      && (name !in st.facilities ==> OutcomeCode(o) == Some(FACILITY_NOT_FOUND) && o.state == st && o.sent == [])
      && (name in st.facilities ==>
            && o.state == st.(monitors := st.monitors + [Registration(name, client, now + seconds)])
            && o.sent == [] && o.reply.Ok?
            && ReadUint8(o.reply.value, 0).result == Ok(MONITOR_RESPONSE)
            && ReadBool(o.reply.value, 1).result == Ok(true)
            && ReadString(o.reply.value, 2).result == Ok(MonitoringText(name, seconds)))
  {
    if name !in st.facilities {
      ErrorReplyCode(st, FACILITY_NOT_FOUND, NotFoundText(name));
    } else {
      DecimalFits(seconds);
      var text := MonitoringText(name, seconds);
      TextFits(text);
      CodecProperties.ReadStringPacked(PackUint8(MONITOR_RESPONSE) + PackBool(true), text, []);
      assert PackUint8(MONITOR_RESPONSE) + PackBool(true) + PackString(text) + [] == SuccessReply(MONITOR_RESPONSE, text);
    }
  }

  lemma ConcatAssociates<T>(x: seq<T>, y: seq<T>, z: seq<T>)
    ensures x + (y + z) == (x + y) + z
  {
  }

  /** The sweep keeps the list order: cleaning a concatenation cleans each part in place. */
  lemma {:induction false} CleanExpiredAppend(a: seq<Registration>, b: seq<Registration>, now: int)
    ensures CleanExpired(a + b, now) == CleanExpired(a, now) + CleanExpired(b, now)
    decreases |a|
  {
    if a == [] {
      assert a + b == b;
    } else {
      assert (a + b)[0] == a[0] && (a + b)[1..] == a[1..] + b;
      CleanExpiredAppend(a[1..], b, now);
      var head := if a[0].expiry > now then [a[0]] else [];
      ConcatAssociates(head, CleanExpired(a[1..], now), CleanExpired(b, now));
      calc {
        CleanExpired(a + b, now);
        head + CleanExpired(a[1..] + b, now);
        head + (CleanExpired(a[1..], now) + CleanExpired(b, now));
        (head + CleanExpired(a[1..], now)) + CleanExpired(b, now);
      }
    }
  }

  /** The registrations for a facility, in list order. */
  function FacilityRegistrations(monitors: seq<Registration>, name: string): (r: seq<Registration>)
    ensures forall m :: m in r <==> m in monitors && m.facilityName == name
  {
    if monitors == [] then []
    else (if monitors[0].facilityName == name then [monitors[0]] else []) + FacilityRegistrations(monitors[1..], name)
  }

  /** The updates go, in list order, to exactly the registrations for the facility, a duplicate registration getting its own. */
  lemma {:induction false} UpdatesTargets(monitors: seq<Registration>, name: string, payload: seq<byte>)
    ensures |Updates(monitors, name, payload)| == |FacilityRegistrations(monitors, name)|
    ensures forall i :: 0 <= i < |Updates(monitors, name, payload)| ==>
      Updates(monitors, name, payload)[i] == Datagram(FacilityRegistrations(monitors, name)[i].client, payload)
  {
    if monitors != [] {
      UpdatesTargets(monitors[1..], name, payload);
      var head: seq<Datagram> := if monitors[0].facilityName == name then [Datagram(monitors[0].client, payload)] else [];
      var regs: seq<Registration> := if monitors[0].facilityName == name then [monitors[0]] else [];
      var u, f := Updates(monitors[1..], name, payload), FacilityRegistrations(monitors[1..], name);
      assert Updates(monitors, name, payload) == head + u;
      assert FacilityRegistrations(monitors, name) == regs + f;
      assert |head| == |regs|;
      forall i | 0 <= i < |head + u|
        ensures (head + u)[i] == Datagram((regs + f)[i].client, payload)
      {
        if i >= |head| {
          assert (head + u)[i] == u[i - |head|] && (regs + f)[i] == f[i - |head|];
        }
      }
    }
  }

  /**
   * A notification first drops every expired registration, of any facility,
   * then sends the facility's MONITOR_UPDATE to each remaining registration
   * for it; the update names the facility and covers days 0 to 6.
   */
  lemma NotifyEffect(st: State, name: string, now: int)
    requires Packable(st) && name in st.facilities
    ensures var n := Notify(st, name, now); var live := CleanExpired(st.monitors, now);
      && n.0 == st.(monitors := live)
      && |n.1| == |FacilityRegistrations(live, name)|
      && (forall i :: 0 <= i < |n.1| ==>
            (n.1[i].to == FacilityRegistrations(live, name)[i].client
             && ReadUint8(n.1[i].payload, 0).result == Ok(MONITOR_UPDATE)
             && ReadString(n.1[i].payload, 1).result == Ok(name)))
    ensures |Utf8.Encode(name)| < TWO_32 && EntriesPackable(Availability(FacilityBookings(st, name), WEEK_DAYS))
    ensures var n := Notify(st, name, now);
      forall i :: 0 <= i < |n.1| ==>
        n.1[i].payload == AvailabilityResponse(MONITOR_UPDATE, name, Availability(FacilityBookings(st, name), WEEK_DAYS))
  {
    var live := CleanExpired(st.monitors, now);
    var bookings := FacilityBookings(st, name);
    FacilityBookingsPackable(st, name);
    AvailabilityPackable(bookings, WEEK_DAYS);
    var entries := Availability(bookings, WEEK_DAYS);
    var payload := AvailabilityResponse(MONITOR_UPDATE, name, entries);
    UpdatesTargets(live, name, payload);
    AvailabilityResponseHeader(MONITOR_UPDATE, name, entries);
  }

  /** An availability reply starts with its type byte, followed by the facility name as a string field. */
  lemma AvailabilityResponseHeader(msgType: byte, name: string, entries: seq<DayEntry>)
    requires |Utf8.Encode(name)| < TWO_32 && EntriesPackable(entries)
    ensures ReadUint8(AvailabilityResponse(msgType, name, entries), 0).result == Ok(msgType)
    ensures ReadString(AvailabilityResponse(msgType, name, entries), 1).result == Ok(name)
  {
    var rest := PackUint32(|entries|) + PackEntries(entries);
    CodecProperties.ReadStringPacked(PackUint8(msgType), name, rest);
    assert PackUint8(msgType) + PackString(name) + rest == AvailabilityResponse(msgType, name, entries);
  }

  // ------------------------------------------------------------ one request

  /**
   * What one request may do to the state: keep the invariant and the cache,
   * move the counter on by at most one, and keep every booking under its id
   * and facility; a cancelled booking is never touched again, so bookings
   * are never removed and `cancelled` is never reset.
   */
  ghost predicate Successor(st: State, s: State)
  {
    && Valid(s) && s.history == st.history
    && st.nextConfirmationId <= s.nextConfirmationId <= st.nextConfirmationId + 1
    && (forall id :: id in st.bookings ==>
          id in s.bookings && s.bookings[id].facilityName == st.bookings[id].facilityName
          && (st.bookings[id].cancelled ==> s.bookings[id] == st.bookings[id]))
  }

  lemma SuccessorOfSelf(st: State, s: State)
    requires Valid(st) && s.facilities == st.facilities && s.bookings == st.bookings
    requires s.nextConfirmationId == st.nextConfirmationId && s.history == st.history
    ensures Successor(st, s)
  {
    SameShapeKeeps(st, s);
  }

  /** Rewriting a live booking in place, under the same id and facility, is a successor. */
  lemma ReplaceSuccessor(st: State, id: string, b: Booking, s: State)
    requires Valid(st) && id in st.bookings && !st.bookings[id].cancelled && WireSafe(b)
    requires b.confirmationId == id && b.facilityName == st.bookings[id].facilityName
    requires s.facilities == st.facilities && s.bookings == st.bookings[id := b]
    requires s.nextConfirmationId == st.nextConfirmationId && s.history == st.history
    ensures Successor(st, s)
  {
    ReplaceKeepsValid(st, id, b);
    SameShapeKeeps(st.(bookings := st.bookings[id := b]), s);
  }

  lemma QuerySuccessor(st: State, name: string, days: seq<byte>)
    requires Ready(st) && Valid(st) && |name| <= MAX_MESSAGE_SIZE && |days| <= MAX_MESSAGE_SIZE
    ensures Query(st, name, days).state == st
  {
  }

  lemma MonitorSuccessor(st: State, name: string, seconds: uint32, client: Endpoint, now: int)
    requires Ready(st) && Valid(st) && |name| <= MAX_MESSAGE_SIZE
    ensures Successor(st, Monitor(st, name, seconds, client, now).state)
  {
    MonitorEffect(st, name, seconds, client, now);
    SuccessorOfSelf(st, Monitor(st, name, seconds, client, now).state);
  }

  /** Adding a fresh booking under the counter's id, the counter moving on, is a successor. */
  lemma AddSuccessor(st: State, b: Booking, s: State)
    requires Valid(st) && b.facilityName in st.facilities && |st.facilities[b.facilityName]| < BOOKING_LIMIT && WireSafe(b)
    requires b.confirmationId == ConfirmationId(st.nextConfirmationId)
    requires s.facilities == st.facilities[b.facilityName := st.facilities[b.facilityName] + [b.confirmationId]]
    requires s.bookings == st.bookings[b.confirmationId := b]
    requires s.nextConfirmationId == st.nextConfirmationId + 1 && s.history == st.history
    ensures Successor(st, s)
  {
    AddBookingKeepsValid(st, b.facilityName, b);
    SameShapeKeeps(st.(facilities := s.facilities, bookings := s.bookings, nextConfirmationId := s.nextConfirmationId), s);
    assert b.confirmationId !in st.bookings;
  }

  lemma BookSuccessor(st: State, name: string, start: TimeSlot, end: TimeSlot, now: int)
    requires Ready(st) && Valid(st) && |name| <= MAX_MESSAGE_SIZE && Fits(start) && Fits(end)
    ensures Successor(st, Book(st, name, start, end, now).state)
  {
    BookErrorOrder(st, name, start, end, now);
    if start.day < 7 && end.day < 7 && name in st.facilities && Lt(start, end) && Available(FacilityBookings(st, name), start, end) {
      BookAccepted(st, name, start, end, now);
      var id := ConfirmationId(st.nextConfirmationId);
      AddSuccessor(st, Booking(id, name, start, end, end, false), Book(st, name, start, end, now).state);
    } else {
      SuccessorOfSelf(st, st);
    }
  }

  lemma ChangeToSuccessor(st: State, id: string, newStart: TimeSlot, newEnd: TimeSlot, now: int)
    requires Ready(st) && Valid(st) && id in st.bookings && !st.bookings[id].cancelled
    requires WireSafe(st.bookings[id].(startTime := newStart, endTime := newEnd))
    ensures Successor(st, ChangeTo(st, id, newStart, newEnd, now).state)
  {
    var b := st.bookings[id];
    if !OthersClear(FacilityBookings(st, b.facilityName), id, newStart, newEnd) {
      SuccessorOfSelf(st, st);
    } else {
      var moved := b.(startTime := newStart, endTime := newEnd);
      var st1 := st.(bookings := st.bookings[id := moved]);
      ReplaceBookingPackable(st, id, moved);
      NotifyOnlyMonitors(st1, b.facilityName, now);
      ReplaceSuccessor(st, id, moved, ChangeTo(st, id, newStart, newEnd, now).state);
    }
  }

  lemma ChangeSuccessor(st: State, id: string, offset: int32, now: int)
    requires Ready(st) && Valid(st)
    ensures Successor(st, Change(st, id, offset, now).state)
  {
    ChangeErrorOrder(st, id, offset, now);
    if id !in st.bookings || st.bookings[id].cancelled {
      SuccessorOfSelf(st, st);
    } else {
      var b := st.bookings[id];
      ChangeByErrorOrder(st, id, offset, now);
      if ToMinutes(b.startTime) + offset < 0 || ToMinutes(b.endTime) + offset > MINUTES_PER_WEEK {
        SuccessorOfSelf(st, st);
      } else {
        ShiftedEndWireSafe(b.(startTime := Shift(b.startTime, offset)), b.endTime, offset);
        ChangeToSuccessor(st, id, Shift(b.startTime, offset), Shift(b.endTime, offset), now);
      }
    }
  }

  lemma ExtendToSuccessor(st: State, id: string, newEnd: TimeSlot, now: int)
    requires Ready(st) && Valid(st) && id in st.bookings && !st.bookings[id].cancelled
    requires newEnd.hour < 24 && newEnd.minute < 60 && WireSafe(st.bookings[id].(endTime := newEnd))
    ensures Successor(st, ExtendTo(st, id, newEnd, now).state)
  {
    var b := st.bookings[id];
    if Same(b.endTime, newEnd) {
      ExtendToSame(st, id, newEnd, now);
      SuccessorOfSelf(st, st);
    } else if !OthersClear(FacilityBookings(st, b.facilityName), id, Min(b.endTime, newEnd), Max(b.endTime, newEnd)) {
      ExtendToBlocked(st, id, newEnd, now);
      SuccessorOfSelf(st, st);
    } else {
      ExtendToMoves(st, id, newEnd, now);
      ReplaceSuccessor(st, id, b.(endTime := newEnd), ExtendTo(st, id, newEnd, now).state);
    }
  }

  lemma ExtendSuccessor(st: State, id: string, minutes: uint32, now: int)
    requires Ready(st) && Valid(st)
    ensures Successor(st, Extend(st, id, minutes, now).state)
  {
    ExtendErrorOrder(st, id, minutes, now);
    if id !in st.bookings || st.bookings[id].cancelled {
      SuccessorOfSelf(st, st);
    } else {
      var b := st.bookings[id];
      ExtendUntilErrorOrder(st, id, minutes, now);
      if ToMinutes(b.originalEndTime) + minutes > MINUTES_PER_WEEK {
        SuccessorOfSelf(st, st);
      } else {
        ShiftedEndWireSafe(b, b.originalEndTime, minutes);
        ExtendToSuccessor(st, id, Shift(b.originalEndTime, minutes), now);
      }
    }
  }

  lemma CancelSuccessor(st: State, id: string, now: int)
    requires Ready(st) && Valid(st)
    ensures Successor(st, Cancel(st, id, now).state)
  {
    CancelErrorOrder(st, id, now);
    if id !in st.bookings || st.bookings[id].cancelled {
      SuccessorOfSelf(st, st);
    } else {
      var b := st.bookings[id];
      var st1 := st.(bookings := st.bookings[id := b.(cancelled := true)]);
      ReplaceBookingPackable(st, id, b.(cancelled := true));
      NotifyOnlyMonitors(st1, b.facilityName, now);
      ReplaceSuccessor(st, id, b.(cancelled := true), Cancel(st, id, now).state);
    }
  }

  lemma QueryRequestSuccessor(st: State, data: seq<byte>, off: nat)
    requires Ready(st) && Valid(st) && |data| <= MAX_MESSAGE_SIZE
    ensures QueryRequest(st, data, off).state == st
  {
    var name := ReadString(data, off);
    if name.result.Ok? {
      var days := ReadListOfInts(data, name.next);
      if days.result.Ok? {
        ReadStringFits(data, off);
        QuerySuccessor(st, name.result.value, days.result.value);
      }
    }
  }

  lemma BookRequestSuccessor(st: State, data: seq<byte>, off: nat, now: int)
    requires Ready(st) && Valid(st) && |data| <= MAX_MESSAGE_SIZE
    ensures Successor(st, BookRequest(st, data, off, now).state)
  {
    var name := ReadString(data, off);
    var start := ReadTime(data, name.next);
    var end := ReadTime(data, start.next);
    if name.result.Ok? && start.result.Ok? && end.result.Ok? {
      var (sd, sh, sm) := start.result.value;
      var (ed, eh, em) := end.result.value;
      ReadStringFits(data, off);
      BookSuccessor(st, name.result.value, TimeSlot(sd, sh, sm), TimeSlot(ed, eh, em), now);
    } else {
      SuccessorOfSelf(st, st);
    }
  }

  lemma ChangeRequestSuccessor(st: State, data: seq<byte>, off: nat, now: int)
    requires Ready(st) && Valid(st)
    ensures Successor(st, ChangeRequest(st, data, off, now).state)
  {
    var id := ReadString(data, off);
    var offset := ReadInt32(data, id.next);
    if id.result.Ok? && offset.result.Ok? {
      ChangeSuccessor(st, id.result.value, offset.result.value, now);
    } else {
      SuccessorOfSelf(st, st);
    }
  }

  lemma MonitorRequestSuccessor(st: State, data: seq<byte>, off: nat, client: Endpoint, now: int)
    requires Ready(st) && Valid(st) && |data| <= MAX_MESSAGE_SIZE
    ensures Successor(st, MonitorRequest(st, data, off, client, now).state)
  {
    var name := ReadString(data, off);
    var seconds := ReadUint32(data, name.next);
    if name.result.Ok? && seconds.result.Ok? {
      ReadStringFits(data, off);
      MonitorSuccessor(st, name.result.value, seconds.result.value, client, now);
    } else {
      SuccessorOfSelf(st, st);
    }
  }

  lemma ExtendRequestSuccessor(st: State, data: seq<byte>, off: nat, now: int)
    requires Ready(st) && Valid(st)
    ensures Successor(st, ExtendRequest(st, data, off, now).state)
  {
    var id := ReadString(data, off);
    var minutes := ReadUint32(data, id.next);
    if id.result.Ok? && minutes.result.Ok? {
      ExtendSuccessor(st, id.result.value, minutes.result.value, now);
    } else {
      SuccessorOfSelf(st, st);
    }
  }

  lemma CancelRequestSuccessor(st: State, data: seq<byte>, off: nat, now: int)
    requires Ready(st) && Valid(st)
    ensures Successor(st, CancelRequest(st, data, off, now).state)
  {
    var id := ReadString(data, off);
    if id.result.Ok? {
      CancelSuccessor(st, id.result.value, now);
    } else {
      SuccessorOfSelf(st, st);
    }
  }

  /** Whatever the message type, one dispatched request leaves a successor state. */
  lemma DispatchSuccessor(st: State, msgType: byte, data: seq<byte>, off: nat, client: Endpoint, now: int)
    requires Ready(st) && Valid(st) && |data| <= MAX_MESSAGE_SIZE
    ensures Successor(st, Dispatch(st, msgType, data, off, client, now).state)
  {
    if msgType == QUERY_AVAILABILITY {
      QueryRequestSuccessor(st, data, off);
      SuccessorOfSelf(st, st);
    } else if msgType == BOOK_FACILITY {
      BookRequestSuccessor(st, data, off, now);
    } else if msgType == CHANGE_BOOKING {
      ChangeRequestSuccessor(st, data, off, now);
    } else if msgType == MONITOR_REGISTER {
      MonitorRequestSuccessor(st, data, off, client, now);
    } else if msgType == EXTEND_BOOKING {
      ExtendRequestSuccessor(st, data, off, now);
    } else if msgType == CANCEL_BOOKING {
      CancelRequestSuccessor(st, data, off, now);
    } else {
      SuccessorOfSelf(st, st);
    }
  }

  // ------------------------------------------------------- request history

  /** The cache key of a datagram whose header can be read: `"host:port"` and the request id, not the type. */
  function RequestKey(data: seq<byte>, client: Endpoint): CacheKey
    requires |data| >= 5
  {
    CacheKey(ClientKey(client), ReadUint32(data, 1).result.value)
  }

  /** A datagram too short for the type and the request id gets no reply and changes nothing. */
  lemma ShortHeaderUnanswered(st: State, semantics: Semantics, data: seq<byte>, client: Endpoint, now: int)
    requires Ready(st) && |data| < 5
    ensures Process(st, semantics, data, client, now) == Processed(st, None, [])
  {
    if |data| >= 1 {
      CodecProperties.ShortFixedReadFails(data, 1);
    }
  }

  /** Under at-most-once, a request whose key is cached is answered with the stored bytes; no handler runs and nothing is evicted. */
  lemma CacheHit(st: State, data: seq<byte>, client: Endpoint, now: int)
    requires Ready(st) && |data| <= MAX_MESSAGE_SIZE && |data| >= 5 && RequestKey(data, client) in st.history
    ensures Process(st, AtMostOnce, data, client, now) == Processed(st, Some(st.history[RequestKey(data, client)].reply), [])
  {
  }

  /**
   * A request the cache does not answer runs its handler. Under
   * at-least-once the cache is left alone; under at-most-once the reply,
   * an error reply included, is stored with the current time, and of the
   * older entries exactly those at most 300 seconds old remain.
   */
  lemma RespondEffect(st: State, semantics: Semantics, msgType: byte, data: seq<byte>, off: nat,
                      key: CacheKey, client: Endpoint, now: int)
    requires Ready(st) && Valid(st) && |data| <= MAX_MESSAGE_SIZE
    ensures var p := Respond(st, semantics, msgType, data, off, key, client, now);
      var o := Dispatch(st, msgType, data, off, client, now);
      && p.reply == Some(ReplyBytes(o.reply)) && p.sent == o.sent
      && Successor(st, p.state.(history := st.history))
      && (semantics == AtLeastOnce ==> p.state == o.state)
      && (semantics == AtMostOnce ==>
            && p.state == o.state.(history := p.state.history)
            && key in p.state.history && p.state.history[key] == CacheEntry(ReplyBytes(o.reply), now)
            && forall k :: k in p.state.history && k != key <==> k in st.history && k != key && now - st.history[k].time <= HISTORY_SECONDS)
  {
    var o := Dispatch(st, msgType, data, off, client, now);
    DispatchSuccessor(st, msgType, data, off, client, now);
    var p := Respond(st, semantics, msgType, data, off, key, client, now);
    SameShapeKeeps(o.state, p.state.(history := st.history));
  }

  /** What `Process` does with a request whose header reads and whose key the cache does not answer. */
  lemma ProcessMiss(st: State, semantics: Semantics, data: seq<byte>, client: Endpoint, now: int)
    requires Ready(st) && |data| <= MAX_MESSAGE_SIZE && |data| >= 5
    requires semantics == AtLeastOnce || RequestKey(data, client) !in st.history
    ensures Process(st, semantics, data, client, now)
      == Respond(st, semantics, data[0], data, 5, RequestKey(data, client), client, now)
  {
  }

  /**
   * At-most-once: once a request has been answered, the same datagram from
   * the same client, however much later, is answered with the same bytes,
   * and changes nothing and notifies no one: the stored reply is not evicted
   * on the store that made it, and no sweep runs on a hit.
   */
  lemma RetransmissionAnsweredFromCache(st: State, data: seq<byte>, client: Endpoint, now: int, later: int)
    requires Ready(st) && Valid(st) && |data| <= MAX_MESSAGE_SIZE && |data| >= 5
    requires st.nextConfirmationId + 1 < BOOKING_LIMIT
    ensures var p1 := Process(st, AtMostOnce, data, client, now);
      Valid(p1.state) && Ready(p1.state) && RequestKey(data, client) in p1.state.history
    ensures var p1 := Process(st, AtMostOnce, data, client, now);
      Process(p1.state, AtMostOnce, data, client, later) == Processed(p1.state, p1.reply, [])
  {
    var key := RequestKey(data, client);
    var p1 := Process(st, AtMostOnce, data, client, now);
    if key in st.history {
      CacheHit(st, data, client, now);
    } else {
      ProcessMiss(st, AtMostOnce, data, client, now);
      RespondEffect(st, AtMostOnce, data[0], data, 5, key, client, now);
      SameShapeKeeps(p1.state.(history := st.history), p1.state);
      ValidReady(p1.state);
    }
    CacheHit(p1.state, data, client, later);
  }

  // ---------------------------------------------------------- no overlaps

  /** Every booking of a facility is among the bookings its list resolves to. */
  lemma ListedResolved(st: State, x: string)
    requires Valid(st) && x in st.bookings
    ensures st.bookings[x] in FacilityBookings(st, st.bookings[x].facilityName)
  {
    assert x in st.facilities[st.bookings[x].facilityName];
  }

  /**
   * Putting a booking under its id keeps the live bookings disjoint, as long
   * as, if it is live, it spans a non-empty interval that no other live
   * booking of its facility overlaps.
   */
  lemma PutKeepsSound(st: State, nb: Booking, s: State)
    requires Sound(st) && s.bookings == st.bookings[nb.confirmationId := nb]
    requires !nb.cancelled ==> Lt(nb.startTime, nb.endTime)
    requires !nb.cancelled ==>
      forall x :: (x in st.bookings && x != nb.confirmationId && st.bookings[x].facilityName == nb.facilityName)
                  ==> !Overlaps(st.bookings[x], nb.startTime, nb.endTime)
    ensures Sound(s)
  {
  }

  /** An accepted booking overlaps no live booking of its facility, so Book keeps the live bookings disjoint. */
  lemma BookKeepsSound(st: State, name: string, start: TimeSlot, end: TimeSlot, now: int)
    requires Ready(st) && Valid(st) && Sound(st) && |name| <= MAX_MESSAGE_SIZE && Fits(start) && Fits(end)
    ensures Sound(Book(st, name, start, end, now).state)
  {
    BookErrorOrder(st, name, start, end, now);
    if start.day < 7 && end.day < 7 && name in st.facilities && Lt(start, end) && Available(FacilityBookings(st, name), start, end) {
      BookAccepted(st, name, start, end, now);
      var id := ConfirmationId(st.nextConfirmationId);
      var nb := Booking(id, name, start, end, end, false);
      forall x | x in st.bookings && x != id && st.bookings[x].facilityName == name
        ensures !Overlaps(st.bookings[x], start, end)
      {
        ListedResolved(st, x);
      }
      PutKeepsSound(st, nb, Book(st, name, start, end, now).state);
    }
  }

  /** The bookings the facility's list resolves to, other than `id`, are clear of a span that OthersClear passed. */
  lemma OthersClearResolved(st: State, id: string, start: TimeSlot, end: TimeSlot)
    requires Valid(st) && id in st.bookings
    requires OthersClear(FacilityBookings(st, st.bookings[id].facilityName), id, start, end)
    ensures forall x :: (x in st.bookings && x != id && st.bookings[x].facilityName == st.bookings[id].facilityName)
                        ==> !Overlaps(st.bookings[x], start, end)
  {
    forall x | x in st.bookings && x != id && st.bookings[x].facilityName == st.bookings[id].facilityName
      ensures !Overlaps(st.bookings[x], start, end)
    {
      ListedResolved(st, x);
    }
  }

  /** A change moves a booking to a span the others leave free, by the same offset at both ends, so nothing overlaps after it. */
  lemma ChangeKeepsSound(st: State, id: string, offset: int32, now: int)
    requires Ready(st) && Valid(st) && Sound(st)
    ensures Sound(Change(st, id, offset, now).state)
  {
    ChangeErrorOrder(st, id, offset, now);
    if id in st.bookings && !st.bookings[id].cancelled {
      var b := st.bookings[id];
      ChangeByErrorOrder(st, id, offset, now);
      var ns, ne := Shift(b.startTime, offset), Shift(b.endTime, offset);
      if ToMinutes(b.startTime) + offset >= 0 && ToMinutes(b.endTime) + offset <= MINUTES_PER_WEEK && OthersClear(FacilityBookings(st, b.facilityName), id, ns, ne) {
        ChangeAccepted(st, id, offset, now);
        OthersClearResolved(st, id, ns, ne);
        var o := Change(st, id, offset, now);
        assert o.state.bookings == st.bookings[id := o.state.bookings[id]];
        PutKeepsSound(st, o.state.bookings[id], o.state);
      }
    }
  }

  /**
   * An extension keeps the live bookings disjoint when the booking still
   * starts before both its current and its target end: the extended span is
   * the old one together with the window the handler checked. Without that
   * condition a booking moved by Change can be extended to end before it
   * starts (see ExtendAfterChangeReverses).
   */
  lemma ExtendToKeepsSound(st: State, id: string, newEnd: TimeSlot, now: int)
    requires Ready(st) && Valid(st) && Sound(st) && id in st.bookings && !st.bookings[id].cancelled
    requires newEnd.hour < 24 && newEnd.minute < 60 && WireSafe(st.bookings[id].(endTime := newEnd))
    requires Lt(st.bookings[id].startTime, Min(st.bookings[id].endTime, newEnd))
    ensures Sound(ExtendTo(st, id, newEnd, now).state)
  {
    var b := st.bookings[id];
    if Same(b.endTime, newEnd) {
      ExtendToSame(st, id, newEnd, now);
    } else if !OthersClear(FacilityBookings(st, b.facilityName), id, Min(b.endTime, newEnd), Max(b.endTime, newEnd)) {
      ExtendToBlocked(st, id, newEnd, now);
    } else {
      ExtendToMoves(st, id, newEnd, now);
      OthersClearResolved(st, id, Min(b.endTime, newEnd), Max(b.endTime, newEnd));
      forall x | x in st.bookings && x != id && st.bookings[x].facilityName == b.facilityName
        ensures !Overlaps(st.bookings[x], b.startTime, newEnd)
      {
        assert !Overlaps(st.bookings[x], b.startTime, b.endTime);
        if !st.bookings[x].cancelled {
          assert Lt(st.bookings[x].startTime, st.bookings[x].endTime);
        }
      }
      PutKeepsSound(st, b.(endTime := newEnd), ExtendTo(st, id, newEnd, now).state);
    }
  }

  /** Extend keeps the live bookings disjoint under the same condition, the target counting from the original end. */
  lemma ExtendKeepsSound(st: State, id: string, minutes: uint32, now: int)
    requires Ready(st) && Valid(st) && Sound(st)
    requires id in st.bookings ==>
      Lt(st.bookings[id].startTime, Min(st.bookings[id].endTime, Shift(st.bookings[id].originalEndTime, minutes)))
    ensures Sound(Extend(st, id, minutes, now).state)
  {
    ExtendErrorOrder(st, id, minutes, now);
    if id in st.bookings && !st.bookings[id].cancelled {
      var b := st.bookings[id];
      ExtendUntilErrorOrder(st, id, minutes, now);
      if ToMinutes(b.originalEndTime) + minutes <= MINUTES_PER_WEEK {
        ShiftedEndWireSafe(b, b.originalEndTime, minutes);
        ExtendToKeepsSound(st, id, Shift(b.originalEndTime, minutes), now);
      }
    }
  }

  /** Cancelling takes a booking out of every overlap. */
  lemma CancelKeepsSound(st: State, id: string, now: int)
    requires Ready(st) && Valid(st) && Sound(st)
    ensures Sound(Cancel(st, id, now).state)
  {
    CancelErrorOrder(st, id, now);
    if id in st.bookings && !st.bookings[id].cancelled {
      CancelTwice(st, id, now, now);
      PutKeepsSound(st, st.bookings[id].(cancelled := true), Cancel(st, id, now).state);
    }
  }

  /**
   * Change leaves the original end where it was, so a booking moved later
   * and then extended by zero minutes gets its end put back to the original
   * one, before its new start.
   */
  lemma ExtendAfterChangeReverses(st: State, id: string, now: int)
    requires Ready(st) && id in st.bookings && !st.bookings[id].cancelled
    requires st.bookings[id].startTime == TimeSlot(0, 12, 0) && st.bookings[id].endTime == TimeSlot(0, 13, 0)
    requires st.bookings[id].originalEndTime == TimeSlot(0, 11, 0)
    requires OthersClear(FacilityBookings(st, st.bookings[id].facilityName), id, TimeSlot(0, 11, 0), TimeSlot(0, 13, 0))
    ensures var o := Extend(st, id, 0, now);
      o.state.bookings[id].endTime == TimeSlot(0, 11, 0) && Lt(o.state.bookings[id].endTime, o.state.bookings[id].startTime)
  {
    var b := st.bookings[id];
    var target := TimeSlot(0, 11, 0);
    assert ToMinutes(b.originalEndTime) == 660 && ToMinutes(b.endTime) == 780 && ToMinutes(b.startTime) == 720;
    assert Shift(b.originalEndTime, 0) == target;
    assert Min(b.endTime, target) == target && Max(b.endTime, target) == b.endTime;
    ExtendErrorOrder(st, id, 0, now);
    ExtendUntilErrorOrder(st, id, 0, now);
    ShiftedEndWireSafe(b, b.originalEndTime, 0);
    ExtendToMoves(st, id, target, now);
  }

  // ------------------------------------------------------ request decoding

  /** A time as a client packs it. */
  function PackSlot(t: TimeSlot): seq<byte>
    requires Fits(t)
  {
    PackTime(t.day, t.hour, t.minute)
  }

  /** Two packed times read back in order, whatever precedes them. */
  lemma ReadTwoTimes(pre: seq<byte>, start: TimeSlot, end: TimeSlot)
    requires Fits(start) && Fits(end)
    ensures ReadTime(pre + PackSlot(start) + PackSlot(end), |pre|)
      == Read(Ok((start.day as byte, start.hour as byte, start.minute as byte)), |pre| + 3)
    ensures ReadTime(pre + PackSlot(start) + PackSlot(end), |pre| + 3)
      == Read(Ok((end.day as byte, end.hour as byte, end.minute as byte)), |pre| + 6)
  {
    CodecProperties.ReadTimePacked(pre, start.day, start.hour, start.minute, PackSlot(end));
    CodecProperties.ReadTimePacked(pre + PackSlot(start), end.day, end.hour, end.minute, []);
    assert pre + PackSlot(start) + PackSlot(end) + [] == pre + PackSlot(start) + PackSlot(end);
  }

  /** A book request as a client builds it reaches Book with the fields it was built from. */
  lemma BookRequestDecodes(st: State, pre: seq<byte>, name: string, start: TimeSlot, end: TimeSlot, now: int)
    requires Ready(st) && Fits(start) && Fits(end) && |Utf8.Encode(name)| < TWO_32
    requires |pre + PackString(name) + PackSlot(start) + PackSlot(end)| <= MAX_MESSAGE_SIZE
    ensures |name| <= MAX_MESSAGE_SIZE
    ensures BookRequest(st, pre + PackString(name) + PackSlot(start) + PackSlot(end), |pre|, now) == Book(st, name, start, end, now)
  {
    BookRequestFields(pre, name, start, end);
    ReadStringFits(pre + PackString(name) + PackSlot(start) + PackSlot(end), |pre|);
  }

  /** The fields of a book request read back in order: the name, then the two times. */
  lemma BookRequestFields(pre: seq<byte>, name: string, start: TimeSlot, end: TimeSlot)
    requires Fits(start) && Fits(end) && |Utf8.Encode(name)| < TWO_32
    ensures var data := pre + PackString(name) + PackSlot(start) + PackSlot(end);
      var p := |pre + PackString(name)|;
      && ReadString(data, |pre|) == Read(Ok(name), p)
      && ReadTime(data, p) == Read(Ok((start.day as byte, start.hour as byte, start.minute as byte)), p + 3)
      && ReadTime(data, p + 3) == Read(Ok((end.day as byte, end.hour as byte, end.minute as byte)), p + 6)
  {
    var p1 := pre + PackString(name);
    var data := p1 + PackSlot(start) + PackSlot(end);
    CodecProperties.ReadStringPacked(pre, name, PackSlot(start) + PackSlot(end));
    assert pre + PackString(name) + (PackSlot(start) + PackSlot(end)) == data;
    ReadTwoTimes(p1, start, end);
  }

  /** A cancel request as a client builds it reaches Cancel with its id. */
  lemma CancelRequestDecodes(st: State, pre: seq<byte>, id: string, now: int)
    requires Ready(st) && |Utf8.Encode(id)| < TWO_32
    ensures CancelRequest(st, pre + PackString(id), |pre|, now) == Cancel(st, id, now)
  {
    CodecProperties.ReadStringPacked(pre, id, []);
    assert pre + PackString(id) + [] == pre + PackString(id);
  }

  /** A change request as a client builds it reaches Change with its id and signed offset. */
  lemma ChangeRequestDecodes(st: State, pre: seq<byte>, id: string, offset: int32, now: int)
    requires Ready(st) && |Utf8.Encode(id)| < TWO_32
    ensures ChangeRequest(st, pre + PackString(id) + PackInt32(offset), |pre|, now) == Change(st, id, offset, now)
  {
    CodecProperties.ReadStringPacked(pre, id, PackInt32(offset));
    CodecProperties.ReadInt32Packed(pre + PackString(id), offset, []);
    assert pre + PackString(id) + PackInt32(offset) + [] == pre + PackString(id) + PackInt32(offset);
  }

  /** An extend request as a client builds it reaches Extend with its id and minutes. */
  lemma ExtendRequestDecodes(st: State, pre: seq<byte>, id: string, minutes: uint32, now: int)
    requires Ready(st) && |Utf8.Encode(id)| < TWO_32
    ensures ExtendRequest(st, pre + PackString(id) + PackUint32(minutes), |pre|, now) == Extend(st, id, minutes, now)
  {
    CodecProperties.ReadStringPacked(pre, id, PackUint32(minutes));
    CodecProperties.ReadUint32Packed(pre + PackString(id), minutes, []);
    assert pre + PackString(id) + PackUint32(minutes) + [] == pre + PackString(id) + PackUint32(minutes);
  }

  /** The reply of a request the cache does not answer is the dispatched handler's, an exception turned into an error reply. */
  lemma RespondReply(st: State, semantics: Semantics, msgType: byte, data: seq<byte>, off: nat,
                     key: CacheKey, client: Endpoint, now: int)
    requires Ready(st) && |data| <= MAX_MESSAGE_SIZE
    ensures Respond(st, semantics, msgType, data, off, key, client, now).reply
      == Some(ReplyBytes(Dispatch(st, msgType, data, off, client, now).reply))
  {
  }

  lemma DispatchCancel(st: State, data: seq<byte>, off: nat, client: Endpoint, now: int)
    requires Ready(st) && |data| <= MAX_MESSAGE_SIZE
    ensures Dispatch(st, CANCEL_BOOKING, data, off, client, now) == CancelRequest(st, data, off, now)
  {
  }

  /** A full cancel datagram, header included, is answered by Cancel, under either semantics on a cache miss. */
  lemma CancelDatagram(st: State, semantics: Semantics, requestId: uint32, id: string, client: Endpoint, now: int)
    requires Ready(st) && |Utf8.Encode(id)| < MAX_MESSAGE_SIZE - 9
    requires semantics == AtLeastOnce || CacheKey(ClientKey(client), requestId) !in st.history
    ensures var data := PackUint8(CANCEL_BOOKING) + PackUint32(requestId) + PackString(id);
      Process(st, semantics, data, client, now).reply == Some(ReplyBytes(Cancel(st, id, now).reply))
  {
    var pre := PackUint8(CANCEL_BOOKING) + PackUint32(requestId);
    var data := pre + PackString(id);
    assert |pre| == 5 && data[0] == CANCEL_BOOKING;
    CodecProperties.ReadUint32Packed(PackUint8(CANCEL_BOOKING), requestId, PackString(id));
    assert RequestKey(data, client) == CacheKey(ClientKey(client), requestId);
    ProcessMiss(st, semantics, data, client, now);
    RespondReply(st, semantics, CANCEL_BOOKING, data, 5, RequestKey(data, client), client, now);
    DispatchCancel(st, data, 5, client, now);
    CancelRequestDecodes(st, pre, id, now);
  }
}
