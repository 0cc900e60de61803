/**
 * `FacilityBookingServer`: the state lives in fields that the handlers update
 * in place, and every method is proved to leave exactly the state, reply and
 * monitor datagrams that the functions of `Service` describe.
 */
module Server {
  import opened Wrappers
  import opened Bytes
  import opened Faults
  import Utf8
  import Text
  import opened Marshalling
  import opened Protocol
  import opened TimeSlots
  import opened Facilities
  import opened Service

  lemma {:induction false} UpdatesAppend(monitors: seq<Registration>, m: Registration, name: string, payload: seq<byte>)
    ensures Updates(monitors + [m], name, payload)
      == Updates(monitors, name, payload) + (if m.facilityName == name then [Datagram(m.client, payload)] else [])
    decreases |monitors|
  {
    if monitors == [] {
      assert [m][1..] == [];
    } else {
      assert (monitors + [m])[1..] == monitors[1..] + [m];
      UpdatesAppend(monitors[1..], m, name, payload);
    }
  }

  lemma PackEntriesHead(entries: seq<DayEntry>, i: nat)
    requires EntriesPackable(entries) && i < |entries|
    ensures EntriesPackable(entries[i..]) && EntriesPackable(entries[i + 1..])
    ensures PackEntries(entries[i..]) == PackUint8(entries[i].day) + PackUint32(|entries[i].slots|) + PackSlots(entries[i].slots) + PackEntries(entries[i + 1..])
  {
    assert entries[i..][1..] == entries[i + 1..];
    assert forall k :: 0 <= k < |entries[i..]| ==> entries[i..][k] == entries[i + k];
  }

  lemma PackSlotsHead(slots: seq<Slot>, j: nat)
    requires SlotsPackable(slots) && j < |slots|
    ensures SlotsPackable(slots[j..]) && SlotsPackable(slots[j + 1..])
    ensures PackSlots(slots[j..]) == PackTime(slots[j].start.day, slots[j].start.hour, slots[j].start.minute)
      + PackTime(slots[j].end.day, slots[j].end.hour, slots[j].end.minute) + PackSlots(slots[j + 1..])
  {
    assert slots[j..][1..] == slots[j + 1..];
    assert forall k :: 0 <= k < |slots[j..]| ==> slots[j..][k] == slots[j + k];
  }

  lemma Concat3(a: seq<byte>, b: seq<byte>, c: seq<byte>, d: seq<byte>)
    ensures a + b + c + d == a + (b + c + d)
  {
  }

  lemma Concat4(a: seq<byte>, b: seq<byte>, c: seq<byte>, d: seq<byte>, e: seq<byte>)
    ensures a + b + c + d + e == a + (b + c + d + e)
  {
  }

  /** The inner loop of `_build_availability_response`: one day's slots, start then end. */
  method AppendSlots(builder: MessageBuilder, slots: seq<Slot>)
    requires SlotsPackable(slots)
    modifies builder
    ensures builder.buffer == old(builder.buffer) + PackSlots(slots)
  {
    assert slots[0..] == slots;
    var j := 0;
    while j < |slots|
      invariant 0 <= j <= |slots|
      invariant SlotsPackable(slots[j..])
      invariant builder.buffer + PackSlots(slots[j..]) == old(builder.buffer) + PackSlots(slots)
    {
      var slot := slots[j];
      PackSlotsHead(slots, j);
      ghost var b0 := builder.buffer;
      ghost var t1 := PackTime(slot.start.day, slot.start.hour, slot.start.minute);
      ghost var t2 := PackTime(slot.end.day, slot.end.hour, slot.end.minute);
      builder.AddTime(slot.start.day, slot.start.hour, slot.start.minute);
      builder.AddTime(slot.end.day, slot.end.hour, slot.end.minute);
      assert builder.buffer == b0 + t1 + t2;
      Concat3(b0, t1, t2, PackSlots(slots[j + 1..]));
      j := j + 1;
    }
    assert slots[j..] == [];
  }

  /** The outer loop of `_build_availability_response`: per day its number, slot count and slots. */
  method AppendEntries(builder: MessageBuilder, entries: seq<DayEntry>)
    requires EntriesPackable(entries)
    modifies builder
    ensures builder.buffer == old(builder.buffer) + PackEntries(entries)
  {
    assert entries[0..] == entries;
    var i := 0;
    while i < |entries|
      invariant 0 <= i <= |entries|
      invariant EntriesPackable(entries[i..])
      invariant builder.buffer + PackEntries(entries[i..]) == old(builder.buffer) + PackEntries(entries)
    {
      var entry := entries[i];
      PackEntriesHead(entries, i);
      ghost var e0 := builder.buffer;
      builder.AddUint8(entry.day);
      builder.AddUint32(|entry.slots|);
      AppendSlots(builder, entry.slots);
      assert builder.buffer == e0 + PackUint8(entry.day) + PackUint32(|entry.slots|) + PackSlots(entry.slots);
      Concat4(e0, PackUint8(entry.day), PackUint32(|entry.slots|), PackSlots(entry.slots), PackEntries(entries[i + 1..]));
      i := i + 1;
    }
    assert entries[i..] == [];
  }

  /** `_build_availability_response`. */
  method BuildAvailabilityResponse(name: string, availability: seq<DayEntry>, isUpdate: bool) returns (r: seq<byte>)
    requires |Utf8.Encode(name)| < TWO_32 && EntriesPackable(availability)
    ensures r == AvailabilityResponse(if isUpdate then MONITOR_UPDATE else QUERY_RESPONSE, name, availability)
  {
    var msgType := if isUpdate then MONITOR_UPDATE else QUERY_RESPONSE;
    var builder := new MessageBuilder();
    builder.AddUint8(msgType);
    assert builder.buffer == PackUint8(msgType);
    builder.AddString(name);
    builder.AddUint32(|availability|);
    AppendEntries(builder, availability);
    r := builder.Build();
  }

  /** `_build_error_response`. */
  method BuildErrorResponse(code: byte, message: string) returns (r: seq<byte>)
    requires |Utf8.Encode(message)| < TWO_32
    ensures r == ErrorResponse(code, message)
  {
    var builder := new MessageBuilder();
    builder.AddUint8(ERROR);
    builder.AddUint8(code);
    builder.AddString(message);
    r := builder.Build();
  }

  method BuildBookResponse(id: string) returns (r: seq<byte>)
    requires |Utf8.Encode(id)| < TWO_32
    ensures r == BookReply(id)
  {
    var builder := new MessageBuilder();
    builder.AddUint8(BOOK_RESPONSE);
    builder.AddString(id);
    r := builder.Build();
  }

  method BuildChangeResponse() returns (r: seq<byte>)
    ensures r == ChangeReply()
  {
    var builder := new MessageBuilder();
    builder.AddUint8(CHANGE_RESPONSE);
    builder.AddBool(true);
    r := builder.Build();
  }

  /** The replies that carry `True` and a text. */
  method BuildSuccessResponse(msgType: byte, message: string) returns (r: seq<byte>)
    requires |Utf8.Encode(message)| < TWO_32
    ensures r == SuccessReply(msgType, message)
  {
    var builder := new MessageBuilder();
    builder.AddUint8(msgType);
    builder.AddBool(true);
    builder.AddString(message);
    r := builder.Build();
  }

  class FacilityBookingServer {
    const semantics: Semantics
    var facilities: map<string, seq<string>>
    var bookings: map<string, Booking>
    var nextConfirmationId: nat
    var monitors: seq<Registration>
    var history: map<CacheKey, CacheEntry>

    function Snapshot(): State
      reads this
    {
      State(facilities, bookings, nextConfirmationId, monitors, history)
    }

    /** `__init__` without the socket: empty collections, the counter at 1, then the sample facilities. */
    constructor (semantics: Semantics)
      ensures this.semantics == semantics && Snapshot() == InitialState()
    {
      this.semantics := semantics;
      facilities := map[];
      bookings := map[];
      nextConfirmationId := 1;
      monitors := [];
      history := map[];
      new;
      InitializeFacilities();
    }

    /** `_initialize_facilities`. */
    method InitializeFacilities()
      modifies this
      ensures Snapshot() == old(Snapshot()).(facilities := WithFacilities(old(facilities), FACILITY_NAMES))
    {
      var names := FACILITY_NAMES;
      var i := 0;
      while i < |names|
        invariant 0 <= i <= |names|
        invariant WithFacilities(facilities, names[i..]) == WithFacilities(old(facilities), names)
        invariant Snapshot() == old(Snapshot()).(facilities := facilities)
      {
        assert names[i..][1..] == names[i + 1..];
        facilities := facilities[names[i] := []];
        i := i + 1;
      }
      assert names[i..] == [];
    }

    /** `_generate_confirmation_id`. */
    method GenerateConfirmationId() returns (id: string)
      modifies this
      ensures id == ConfirmationId(old(nextConfirmationId))
      ensures Snapshot() == old(Snapshot()).(nextConfirmationId := old(nextConfirmationId) + 1)
    {
      id := "CONF" + Text.ZeroPadded(nextConfirmationId, 6);
      nextConfirmationId := nextConfirmationId + 1;
    }

    /** `_clean_expired_monitors`. */
    method CleanExpiredMonitors(now: int)
      modifies this
      ensures Snapshot() == old(Snapshot()).(monitors := CleanExpired(old(monitors), now))
    {
      monitors := CleanExpired(monitors, now);
    }

    /** `_notify_monitors`: one update per matching registration, built afresh for each. */
    method NotifyMonitors(name: string, now: int) returns (sent: seq<Datagram>)
      requires Packable(Snapshot())
      modifies this
      ensures (Snapshot(), sent) == Notify(old(Snapshot()), name, now)
    {
      CleanExpiredMonitors(now);
      sent := [];
      if name !in facilities {
        return;
      }
      var facilityBookings := FacilityBookings(Snapshot(), name);
      FacilityBookingsPackable(Snapshot(), name);
      AvailabilityPackable(facilityBookings, WEEK_DAYS);
      var availability := GetAvailability(facilityBookings, WEEK_DAYS);
      sent := SendUpdates(monitors, name, availability);
    }

    /** The loop of `_notify_monitors`: an update for each registration of the facility, built afresh each time. */
    method SendUpdates(registrations: seq<Registration>, name: string, availability: seq<DayEntry>) returns (sent: seq<Datagram>)
      requires |Utf8.Encode(name)| < TWO_32 && EntriesPackable(availability)
      ensures sent == Updates(registrations, name, AvailabilityResponse(MONITOR_UPDATE, name, availability))
    {
      ghost var payload := AvailabilityResponse(MONITOR_UPDATE, name, availability);
      sent := [];
      var i := 0;
      while i < |registrations|
        invariant 0 <= i <= |registrations|
        invariant sent == Updates(registrations[..i], name, payload)
      {
        var registration := registrations[i];
        UpdatesAppend(registrations[..i], registration, name, payload);
        assert registrations[..i + 1] == registrations[..i] + [registration];
        if registration.facilityName == name {
          var response := BuildAvailabilityResponse(name, availability, true);
          sent := sent + [Datagram(registration.client, response)];
        }
        i := i + 1;
      }
      assert registrations[..i] == registrations;
    }

    /** Store the updated booking under its id, then notify the facility's monitors. */
    method StoreAndNotify(id: string, updated: Booking, now: int) returns (sent: seq<Datagram>)
      requires Packable(Snapshot()) && WireSafe(updated)
      modifies this
      ensures (Snapshot(), sent) == Notify(old(Snapshot()).(bookings := old(bookings)[id := updated]), updated.facilityName, now)
    {
      ghost var before := Snapshot();
      bookings := bookings[id := updated];
      ReplaceBookingPackable(before, id, updated);
      assert Snapshot() == before.(bookings := before.bookings[id := updated]);
      sent := NotifyMonitors(updated.facilityName, now);
    }

    /** `_handle_query_availability`: read the name and the days, then answer. */
    method HandleQueryAvailability(u: Unmarshaller) returns (r: Result<seq<byte>, Fault>)
      requires Ready(Snapshot()) && |u.data| <= MAX_MESSAGE_SIZE
      modifies u
      ensures Outcome(Snapshot(), r, []) == QueryRequest(Snapshot(), u.data, old(u.offset))
    {
      var name := u.UnpackString();
      if name.Err? {
        return Err(name.error);
      }
      var days := u.UnpackListOfInts();
      if days.Err? {
        return Err(days.error);
      }
      ReadStringFits(u.data, old(u.offset));
      r := QueryAvailability(name.value, days.value);
    }

    /** The body of `_handle_query_availability` after the reads. */
    method QueryAvailability(name: string, days: seq<byte>) returns (r: Result<seq<byte>, Fault>)
      requires Ready(Snapshot()) && |name| <= MAX_MESSAGE_SIZE && |days| <= MAX_MESSAGE_SIZE
      ensures Outcome(Snapshot(), r, []) == Query(Snapshot(), name, days)
    {
      if name !in facilities {
        TextFits(NotFoundText(name));
        var response := BuildErrorResponse(FACILITY_NOT_FOUND, NotFoundText(name));
        return Ok(response);
      }
      var facilityBookings := FacilityBookings(Snapshot(), name);
      FacilityBookingsPackable(Snapshot(), name);
      AvailabilityPackable(facilityBookings, days);
      var availability := GetAvailability(facilityBookings, days);
      var response := BuildAvailabilityResponse(name, availability, false);
      return Ok(response);
    }

    /** `_handle_book_facility`: read the name and both times, then book. */
    method HandleBookFacility(u: Unmarshaller, now: int) returns (r: Result<seq<byte>, Fault>, sent: seq<Datagram>)
      requires Ready(Snapshot()) && |u.data| <= MAX_MESSAGE_SIZE
      modifies this, u
      ensures Outcome(Snapshot(), r, sent) == BookRequest(old(Snapshot()), u.data, old(u.offset), now)
    {
      var name := u.UnpackString();
      if name.Err? {
        return Err(name.error), [];
      }
      var start := u.UnpackTime();
      if start.Err? {
        return Err(start.error), [];
      }
      var end := u.UnpackTime();
      if end.Err? {
        return Err(end.error), [];
      }
      ReadStringFits(u.data, old(u.offset));
      var startTime := TimeSlot(start.value.0, start.value.1, start.value.2);
      var endTime := TimeSlot(end.value.0, end.value.1, end.value.2);
      r, sent := BookFacility(name.value, startTime, endTime, now);
    }

    /** The body of `_handle_book_facility` after the reads. */
    method BookFacility(name: string, startTime: TimeSlot, endTime: TimeSlot, now: int) returns (r: Result<seq<byte>, Fault>, sent: seq<Datagram>)
      requires Ready(Snapshot()) && |name| <= MAX_MESSAGE_SIZE && Fits(startTime) && Fits(endTime)
      modifies this
      ensures Outcome(Snapshot(), r, sent) == Book(old(Snapshot()), name, startTime, endTime, now)
    {
      if Format(startTime).Err? || Format(endTime).Err? {
        return Err(IndexError), [];
      }
      if name !in facilities {
        TextFits(NotFoundText(name));
        var response := BuildErrorResponse(FACILITY_NOT_FOUND, NotFoundText(name));
        return Ok(response), [];
      }
      if Le(endTime, startTime) {
        TextFits(MSG_BAD_RANGE);
        var response := BuildErrorResponse(INVALID_TIME_RANGE, MSG_BAD_RANGE);
        return Ok(response), [];
      }
      var available := IsAvailable(FacilityBookings(Snapshot(), name), startTime, endTime);
      if !available {
        TextFits(MSG_UNAVAILABLE);
        var response := BuildErrorResponse(FACILITY_UNAVAILABLE, MSG_UNAVAILABLE);
        return Ok(response), [];
      }
      ghost var before := Snapshot();
      var id := GenerateConfirmationId();
      var booking := Booking(id, name, startTime, endTime, endTime, false);
      facilities := facilities[name := facilities[name] + [id]];
      bookings := bookings[id := booking];
      ConfirmationIdFits(before.nextConfirmationId);
      AddBookingPackable(before, name, id, booking);
      ghost var st1 := before.(
        facilities := before.facilities[name := before.facilities[name] + [id]],
        bookings := before.bookings[id := booking],
        nextConfirmationId := before.nextConfirmationId + 1);
      assert Snapshot() == st1;
      sent := NotifyMonitors(name, now);
      var response := BuildBookResponse(id);
      r := Ok(response);
    }

    /** `_handle_change_booking`: read the id and the offset, then change. */
    method HandleChangeBooking(u: Unmarshaller, now: int) returns (r: Result<seq<byte>, Fault>, sent: seq<Datagram>)
      requires Ready(Snapshot())
      modifies this, u
      ensures Outcome(Snapshot(), r, sent) == ChangeRequest(old(Snapshot()), u.data, old(u.offset), now)
    {
      var id := u.UnpackString();
      if id.Err? {
        return Err(id.error), [];
      }
      var offset := u.UnpackInt32();
      if offset.Err? {
        return Err(offset.error), [];
      }
      r, sent := ChangeBooking(id.value, offset.value, now);
    }

    /** The overlap loop shared by change and extend: does any other booking of the list overlap `[start, end)`? */
    method OthersClearLoop(others: seq<Booking>, id: string, start: TimeSlot, end: TimeSlot) returns (clear: bool)
      ensures clear <==> OthersClear(others, id, start, end)
    {
      var i := 0;
      while i < |others|
        invariant 0 <= i <= |others|
        invariant forall k :: 0 <= k < i ==> others[k].confirmationId == id || !Overlaps(others[k], start, end)
      {
        if others[i].confirmationId != id && Overlaps(others[i], start, end) {
          return false;
        }
        i := i + 1;
      }
      return true;
    }

    /** The body of `_handle_change_booking` after the reads. */
    method ChangeBooking(id: string, offset: int32, now: int) returns (r: Result<seq<byte>, Fault>, sent: seq<Datagram>)
      requires Ready(Snapshot())
      modifies this
      ensures Outcome(Snapshot(), r, sent) == Change(old(Snapshot()), id, offset, now)
    {
      if id !in bookings {
        TextFits(MSG_INVALID_ID);
        var response := BuildErrorResponse(INVALID_CONFIRMATION_ID, MSG_INVALID_ID);
        return Ok(response), [];
      }
      var booking := bookings[id];
      if booking.cancelled {
        TextFits(MSG_CANCELLED);
        var response := BuildErrorResponse(BOOKING_NOT_FOUND, MSG_CANCELLED);
        return Ok(response), [];
      }
      r, sent := ChangeBookingBy(id, offset, now);
    }

    /** The range check: both ends move by the offset and must stay in the week. */
    method ChangeBookingBy(id: string, offset: int32, now: int) returns (r: Result<seq<byte>, Fault>, sent: seq<Datagram>)
      requires Ready(Snapshot()) && id in bookings
      modifies this
      ensures Outcome(Snapshot(), r, sent) == ChangeBy(old(Snapshot()), id, offset, now)
    {
      var booking := bookings[id];
      if ToMinutes(booking.startTime) + offset < 0 || ToMinutes(booking.endTime) + offset > MINUTES_PER_WEEK {
        TextFits(MSG_OUTSIDE_WEEK);
        var response := BuildErrorResponse(INVALID_TIME_RANGE, MSG_OUTSIDE_WEEK);
        return Ok(response), [];
      }
      ShiftedEndWireSafe(booking.(startTime := Shift(booking.startTime, offset)), booking.endTime, offset);
      r, sent := ChangeBookingTo(id, Shift(booking.startTime, offset), Shift(booking.endTime, offset), now);
    }

    /** The overlap check, then the move. */
    method ChangeBookingTo(id: string, newStart: TimeSlot, newEnd: TimeSlot, now: int) returns (r: Result<seq<byte>, Fault>, sent: seq<Datagram>)
      requires Ready(Snapshot()) && id in bookings && WireSafe(bookings[id].(startTime := newStart, endTime := newEnd))
      modifies this
      ensures Outcome(Snapshot(), r, sent) == ChangeTo(old(Snapshot()), id, newStart, newEnd, now)
    {
      var booking := bookings[id];
      var clear := OthersClearLoop(FacilityBookings(Snapshot(), booking.facilityName), id, newStart, newEnd);
      if !clear {
        TextFits(MSG_CHANGE_UNAVAILABLE);
        var response := BuildErrorResponse(FACILITY_UNAVAILABLE, MSG_CHANGE_UNAVAILABLE);
        return Ok(response), [];
      }
      sent := StoreAndNotify(id, booking.(startTime := newStart, endTime := newEnd), now);
      var response := BuildChangeResponse();
      r := Ok(response);
    }

    /** `_handle_monitor_register`: read the name and the interval, then register. */
    method HandleMonitorRegister(u: Unmarshaller, client: Endpoint, now: int) returns (r: Result<seq<byte>, Fault>)
      requires Ready(Snapshot()) && |u.data| <= MAX_MESSAGE_SIZE
      modifies this, u
      ensures Outcome(Snapshot(), r, []) == MonitorRequest(old(Snapshot()), u.data, old(u.offset), client, now)
    {
      var name := u.UnpackString();
      if name.Err? {
        return Err(name.error);
      }
      var seconds := u.UnpackUint32();
      if seconds.Err? {
        return Err(seconds.error);
      }
      ReadStringFits(u.data, old(u.offset));
      r := MonitorRegister(name.value, seconds.value, client, now);
    }

    /** The body of `_handle_monitor_register` after the reads; the availability it computes is not used. */
    method MonitorRegister(name: string, seconds: uint32, client: Endpoint, now: int) returns (r: Result<seq<byte>, Fault>)
      requires Ready(Snapshot()) && |name| <= MAX_MESSAGE_SIZE
      modifies this
      ensures Outcome(Snapshot(), r, []) == Monitor(old(Snapshot()), name, seconds, client, now)
    {
      if name !in facilities {
        TextFits(NotFoundText(name));
        var response := BuildErrorResponse(FACILITY_NOT_FOUND, NotFoundText(name));
        return Ok(response);
      }
      monitors := monitors + [Registration(name, client, now + seconds)];
      var unused := GetAvailability(FacilityBookings(Snapshot(), name), WEEK_DAYS);
      DecimalFits(seconds);
      TextFits(MonitoringText(name, seconds));
      var response := BuildSuccessResponse(MONITOR_RESPONSE, MonitoringText(name, seconds));
      r := Ok(response);
    }

    /** `_handle_extend_booking`: read the id and the minutes, then extend. */
    method HandleExtendBooking(u: Unmarshaller, now: int) returns (r: Result<seq<byte>, Fault>, sent: seq<Datagram>)
      requires Ready(Snapshot())
      modifies this, u
      ensures Outcome(Snapshot(), r, sent) == ExtendRequest(old(Snapshot()), u.data, old(u.offset), now)
    {
      var id := u.UnpackString();
      if id.Err? {
        return Err(id.error), [];
      }
      var minutes := u.UnpackUint32();
      if minutes.Err? {
        return Err(minutes.error), [];
      }
      r, sent := ExtendBooking(id.value, minutes.value, now);
    }

    /** The body of `_handle_extend_booking` after the reads. */
    method ExtendBooking(id: string, minutes: uint32, now: int) returns (r: Result<seq<byte>, Fault>, sent: seq<Datagram>)
      requires Ready(Snapshot())
      modifies this
      ensures Outcome(Snapshot(), r, sent) == Extend(old(Snapshot()), id, minutes, now)
    {
      if id !in bookings {
        TextFits(MSG_INVALID_ID);
        var response := BuildErrorResponse(INVALID_CONFIRMATION_ID, MSG_INVALID_ID);
        return Ok(response), [];
      }
      var booking := bookings[id];
      if booking.cancelled {
        TextFits(MSG_CANCELLED);
        var response := BuildErrorResponse(BOOKING_NOT_FOUND, MSG_CANCELLED);
        return Ok(response), [];
      }
      r, sent := ExtendBookingUntil(id, minutes, now);
    }

    /** The week-limit check: the new end counts from the original one. */
    method ExtendBookingUntil(id: string, minutes: uint32, now: int) returns (r: Result<seq<byte>, Fault>, sent: seq<Datagram>)
      requires Ready(Snapshot()) && id in bookings
      modifies this
      ensures Outcome(Snapshot(), r, sent) == ExtendUntil(old(Snapshot()), id, minutes, now)
    {
      var booking := bookings[id];
      if ToMinutes(booking.originalEndTime) + minutes > MINUTES_PER_WEEK {
        TextFits(MSG_EXTEND_TOO_LATE);
        var response := BuildErrorResponse(INVALID_TIME_RANGE, MSG_EXTEND_TOO_LATE);
        return Ok(response), [];
      }
      ShiftedEndWireSafe(booking, booking.originalEndTime, minutes);
      r, sent := ExtendBookingTo(id, Shift(booking.originalEndTime, minutes), now);
    }

    /** The rest of `_handle_extend_booking`, once the new end is known. */
    method ExtendBookingTo(id: string, newEnd: TimeSlot, now: int) returns (r: Result<seq<byte>, Fault>, sent: seq<Datagram>)
      requires Ready(Snapshot()) && id in bookings && newEnd.hour < 24 && newEnd.minute < 60
      requires WireSafe(bookings[id].(endTime := newEnd))
      modifies this
      ensures Outcome(Snapshot(), r, sent) == ExtendTo(old(Snapshot()), id, newEnd, now)
    {
      var booking := bookings[id];
      if Same(booking.endTime, newEnd) {
        var text := Format(newEnd);
        if text.Err? {
          return Err(text.error), [];
        }
        FormatLength(newEnd);
        TextFits(ExtendedText(text.value));
        var response := BuildSuccessResponse(EXTEND_RESPONSE, ExtendedText(text.value));
        return Ok(response), [];
      }
      var clear := OthersClearLoop(FacilityBookings(Snapshot(), booking.facilityName), id, Min(booking.endTime, newEnd), Max(booking.endTime, newEnd));
      if !clear {
        TextFits(MSG_EXTEND_UNAVAILABLE);
        var response := BuildErrorResponse(FACILITY_UNAVAILABLE, MSG_EXTEND_UNAVAILABLE);
        return Ok(response), [];
      }
      var oldEnd := booking.endTime;
      var extended := booking.(endTime := newEnd);
      if Format(oldEnd).Err? || Format(newEnd).Err? {
        // the update precedes the print that raises, so it stays in place
        bookings := bookings[id := extended];
        return Err(IndexError), [];
      }
      sent := StoreAndNotify(id, extended, now);
      FormatLength(newEnd);
      TextFits(ExtendedText(Format(newEnd).value));
      var response := BuildSuccessResponse(EXTEND_RESPONSE, ExtendedText(Format(newEnd).value));
      r := Ok(response);
    }

    /** `_handle_cancel_booking`: read the id, then cancel. */
    method HandleCancelBooking(u: Unmarshaller, now: int) returns (r: Result<seq<byte>, Fault>, sent: seq<Datagram>)
      requires Ready(Snapshot())
      modifies this, u
      ensures Outcome(Snapshot(), r, sent) == CancelRequest(old(Snapshot()), u.data, old(u.offset), now)
    {
      var id := u.UnpackString();
      if id.Err? {
        return Err(id.error), [];
      }
      r, sent := CancelBooking(id.value, now);
    }

    /** The body of `_handle_cancel_booking` after the read. */
    method CancelBooking(id: string, now: int) returns (r: Result<seq<byte>, Fault>, sent: seq<Datagram>)
      requires Ready(Snapshot())
      modifies this
      ensures Outcome(Snapshot(), r, sent) == Cancel(old(Snapshot()), id, now)
    {
      if id !in bookings {
        TextFits(MSG_INVALID_ID);
        var response := BuildErrorResponse(INVALID_CONFIRMATION_ID, MSG_INVALID_ID);
        return Ok(response), [];
      }
      var booking := bookings[id];
      if booking.cancelled {
        TextFits(MSG_ALREADY_CANCELLED);
        var response := BuildErrorResponse(ALREADY_CANCELLED, MSG_ALREADY_CANCELLED);
        return Ok(response), [];
      }
      sent := StoreAndNotify(id, booking.(cancelled := true), now);
      TextFits(MSG_CANCEL_DONE);
      var response := BuildSuccessResponse(CANCEL_RESPONSE, MSG_CANCEL_DONE);
      r := Ok(response);
    }

    /** The garbage collection of `_process_request`: collect the stale keys, then delete them one by one. */
    method EvictStale(now: int)
      modifies this
      ensures Snapshot() == old(Snapshot()).(history := Evict(old(history), now))
    {
      var stale := set k | k in history && now - history[k].time > HISTORY_SECONDS;
      while stale != {}
        invariant stale <= history.Keys
        invariant forall k :: k in history ==> k in old(history) && history[k] == old(history)[k]
        invariant forall k :: k in old(history) ==> (k in history || now - old(history)[k].time > HISTORY_SECONDS)
        invariant forall k :: k in history ==> (k in stale <==> now - history[k].time > HISTORY_SECONDS)
        invariant Snapshot() == old(Snapshot()).(history := history)
        decreases |stale|
      {
        var k :| k in stale;
        history := history - {k};
        stale := stale - {k};
      }
      assert history == Evict(old(history), now);
    }

    /** The `if`/`elif` chain of `_process_request` on the message type. */
    method DispatchRequest(msgType: byte, u: Unmarshaller, client: Endpoint, now: int) returns (r: Result<seq<byte>, Fault>, sent: seq<Datagram>)
      requires Ready(Snapshot()) && |u.data| <= MAX_MESSAGE_SIZE
      modifies this, u
      ensures Outcome(Snapshot(), r, sent) == Dispatch(old(Snapshot()), msgType, u.data, old(u.offset), client, now)
    {
      sent := [];
      if msgType == QUERY_AVAILABILITY {
        r := HandleQueryAvailability(u);
      } else if msgType == BOOK_FACILITY {
        r, sent := HandleBookFacility(u, now);
      } else if msgType == CHANGE_BOOKING {
        r, sent := HandleChangeBooking(u, now);
      } else if msgType == MONITOR_REGISTER {
        r := HandleMonitorRegister(u, client, now);
      } else if msgType == EXTEND_BOOKING {
        r, sent := HandleExtendBooking(u, now);
      } else if msgType == CANCEL_BOOKING {
        r, sent := HandleCancelBooking(u, now);
      } else {
        DecimalFits(msgType);
        TextFits(UnknownTypeText(msgType));
        var response := BuildErrorResponse(INVALID_REQUEST, UnknownTypeText(msgType));
        r := Ok(response);
      }
    }

    /** `_process_request`: header, cache lookup, dispatch, exception handling, cache store. */
    method ProcessRequest(data: seq<byte>, client: Endpoint, now: int) returns (reply: Option<seq<byte>>, sent: seq<Datagram>)
      requires Ready(Snapshot()) && |data| <= MAX_MESSAGE_SIZE
      modifies this
      ensures Processed(Snapshot(), reply, sent) == Process(old(Snapshot()), semantics, data, client, now)
    {
      var u := new Unmarshaller(data);
      var msgType := u.UnpackUint8();
      if msgType.Err? {
        return None, [];
      }
      var requestId := u.UnpackUint32();
      if requestId.Err? {
        return None, [];
      }
      var key := CacheKey(ClientKey(client), requestId.value);
      if semantics == AtMostOnce && key in history {
        return Some(history[key].reply), [];
      }
      reply, sent := RespondToRequest(msgType.value, u, key, client, now);
    }

    /** Dispatch, turn an exception into an error reply, and under at-most-once store the reply. */
    method RespondToRequest(msgType: byte, u: Unmarshaller, key: CacheKey, client: Endpoint, now: int)
        returns (reply: Option<seq<byte>>, sent: seq<Datagram>)
      requires Ready(Snapshot()) && |u.data| <= MAX_MESSAGE_SIZE
      modifies this, u
      ensures Processed(Snapshot(), reply, sent) == Respond(old(Snapshot()), semantics, msgType, u.data, old(u.offset), key, client, now)
    {
      var result;
      result, sent := DispatchRequest(msgType, u, client, now);
      var response: seq<byte>;
      match result {
        case Ok(bytes) =>
          response := bytes;
        case Err(e) =>
          TextFits(Message(e));
          response := BuildErrorResponse(INVALID_REQUEST, Message(e));
      }
      if semantics == AtMostOnce {
        history := history[key := CacheEntry(response, now)];
        EvictStale(now);
      }
      reply := Some(response);
    }
  }
}
