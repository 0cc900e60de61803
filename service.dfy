/**
 * The booking engine of `FacilityBookingServer` as functions on its state:
 * what each of the six request handlers, the monitor callbacks and the
 * dispatcher `_process_request` do, given the request bytes, the sender's
 * address and the wall-clock time. Outbound monitor updates are returned as
 * datagrams instead of being sent.
 */
module Service {
  import opened Wrappers
  import opened Bytes
  import opened Faults
  import Utf8
  import Text
  import opened Marshalling
  import opened Protocol
  import opened TimeSlots
  import opened Facilities

  /** At most this many confirmation ids are handed out; it keeps every count the server packs below 2^32. */
  const BOOKING_LIMIT: nat := TWO_31

  /** How long, in seconds, a cached reply is kept. */
  const HISTORY_SECONDS: int := 300

  datatype Semantics = AtLeastOnce | AtMostOnce

  /** A UDP address `(host, port)`. */
  datatype Endpoint = Endpoint(host: string, port: nat)

  /** `MonitorRegistration`: the expiry is `now + duration` at registration. */
  datatype Registration = Registration(facilityName: string, client: Endpoint, expiry: int)

  /** A datagram the server sends with `sendto`. */
  datatype Datagram = Datagram(to: Endpoint, payload: seq<byte>)

  /** The at-most-once cache key: `"host:port"` and the request id; the message type is not part of it. */
  datatype CacheKey = CacheKey(client: string, requestId: uint32)

  datatype CacheEntry = CacheEntry(reply: seq<byte>, time: int)

  /**
   * The server's mutable state. A facility's booking list holds confirmation
   * ids; `bookings` maps each id to the booking, so the booking a facility
   * list refers to and the one `bookings` holds are the same object.
   */
  datatype State = State(
    facilities: map<string, seq<string>>,
    bookings: map<string, Booking>,
    nextConfirmationId: nat,
    monitors: seq<Registration>,
    history: map<CacheKey, CacheEntry>)

  /** What a handler leaves behind: the new state, the reply or the exception it raised, and the monitor updates it sent. */
  datatype Outcome = Outcome(state: State, reply: Result<seq<byte>, Fault>, sent: seq<Datagram>)

  /** What `_process_request` leaves behind; no reply when the header cannot be read. */
  datatype Processed = Processed(state: State, reply: Option<seq<byte>>, sent: seq<Datagram>)

  const FACILITY_NAMES: seq<string> := [Text.Phrase("Meeting Room A"), Text.Phrase("Lecture Theatre 1"), Text.Phrase("Conference Hall"), Text.Phrase("Seminar Room B")]

  const WEEK_DAYS: seq<nat> := [0, 1, 2, 3, 4, 5, 6]

  // ------------------------------------------------------------ reply texts

  const MSG_INVALID_ID := Text.Phrase("Invalid confirmation ID")
  const MSG_CANCELLED := Text.Phrase("Booking has been cancelled")
  const MSG_BAD_RANGE := Text.Phrase("Start time must be before end time")
  const MSG_UNAVAILABLE := Text.Phrase("Facility is not available during requested period")
  const MSG_OUTSIDE_WEEK := Text.Phrase("New time range is outside the week")
  const MSG_CHANGE_UNAVAILABLE := Text.Phrase("Facility is not available during new requested period")
  const MSG_EXTEND_TOO_LATE := Text.Phrase("Extended time exceeds the week")
  const MSG_EXTEND_UNAVAILABLE := Text.Phrase("Cannot extend: facility unavailable during extension period")
  const MSG_ALREADY_CANCELLED := Text.Phrase("Booking has already been cancelled")
  const MSG_CANCEL_DONE := Text.Phrase("Booking cancelled successfully")

  function NotFoundText(name: string): string { "Facility '" + name + "' not found" }
  function MonitoringText(name: string, seconds: nat): string { "Monitoring '" + name + "' for " + Text.Decimal(seconds) + " seconds" }
  function ExtendedText(time: string): string { "Booking extended to " + time }
  function UnknownTypeText(t: byte): string { "Unknown request type: " + Text.Decimal(t) }

  /** `f"{host}:{port}"`. */
  function ClientKey(client: Endpoint): string { client.host + ":" + Text.Decimal(client.port) }

  /** `f"CONF{n:06d}"`. */
  function ConfirmationId(n: nat): string { "CONF" + Text.ZeroPadded(n, 6) }

  // --------------------------------------------------------- initial state

  /** `self.facilities[name] = Facility(name)` for each name in turn. */
  function WithFacilities(m: map<string, seq<string>>, names: seq<string>): (r: map<string, seq<string>>)
    ensures r.Keys == m.Keys + set n | n in names
    ensures forall n :: n in names ==> r[n] == []
    ensures forall n :: n in m && n !in names ==> r[n] == m[n]
    decreases |names|
  {
    if names == [] then m else WithFacilities(m[names[0] := []], names[1..])
  }

  function InitialState(): State
  {
    State(WithFacilities(map[], FACILITY_NAMES), map[], 1, [], map[])
  }

  // ------------------------------------------------------------- invariants

  /** The bookings of a facility list that the id map resolves, in list order. */
  function Resolve(ids: seq<string>, bookings: map<string, Booking>): (r: seq<Booking>)
    ensures |r| <= |ids|
    ensures forall b :: b in r ==> exists id :: id in ids && id in bookings && bookings[id] == b
    ensures forall id :: id in ids && id in bookings ==> bookings[id] in r
  {
    if ids == [] then []
    else (if ids[0] in bookings then [bookings[ids[0]]] else []) + Resolve(ids[1..], bookings)
  }

  /** `self.facilities[name].bookings`. */
  function FacilityBookings(st: State, name: string): seq<Booking>
  {
    if name in st.facilities then Resolve(st.facilities[name], st.bookings) else []
  }

  /**
   * What lets the server's availability replies always be packed: facility
   * names fit a string field, a facility's list length a uint32 count, and
   * every booking's times a `pack_time`.
   */
  predicate Packable(st: State)
  {
    (forall n :: n in st.facilities ==> |Utf8.Encode(n)| < TWO_32 && |st.facilities[n]| <= BOOKING_LIMIT)
    && forall id :: id in st.bookings ==> WireSafe(st.bookings[id])
  }

  /** Every id a facility lists is booked, for that facility. */
  ghost predicate ListedBooked(facilities: map<string, seq<string>>, bookings: map<string, Booking>)
  {
    forall n, i :: n in facilities && 0 <= i < |facilities[n]| ==>
      facilities[n][i] in bookings && bookings[facilities[n][i]].facilityName == n
  }

  /** Every booking is stored under its own id and listed by its facility. */
  ghost predicate BookedListed(facilities: map<string, seq<string>>, bookings: map<string, Booking>)
  {
    forall id :: id in bookings ==>
      bookings[id].confirmationId == id
      && bookings[id].facilityName in facilities
      && id in facilities[bookings[id].facilityName]
  }

  /** No id the counter has yet to hand out is booked. */
  ghost predicate FreshIds(bookings: map<string, Booking>, next: nat)
  {
    forall k: nat :: k >= next ==> ConfirmationId(k) !in bookings
  }

  /** The shape of the state that every handler keeps. */
  ghost predicate Valid(st: State)
  {
    && st.nextConfirmationId >= 1
    && Packable(st)
    && (forall n :: n in st.facilities ==> |st.facilities[n]| < st.nextConfirmationId)
    && ListedBooked(st.facilities, st.bookings)
    && BookedListed(st.facilities, st.bookings)
    && FreshIds(st.bookings, st.nextConfirmationId)
  }

  /** Every live booking spans a non-empty interval, and no two live bookings of a facility overlap. */
  ghost predicate Sound(st: State)
  {
    (forall id :: id in st.bookings && !st.bookings[id].cancelled ==> Lt(st.bookings[id].startTime, st.bookings[id].endTime))
    && forall a, b :: (a in st.bookings && b in st.bookings && a != b && !st.bookings[b].cancelled
         && st.bookings[a].facilityName == st.bookings[b].facilityName) ==>
         !Overlaps(st.bookings[a], st.bookings[b].startTime, st.bookings[b].endTime)
  }

  // ---------------------------------------------------------------- replies

  function ErrorResponse(code: byte, message: string): seq<byte>
    requires |Utf8.Encode(message)| < TWO_32
  {
    PackUint8(ERROR) + PackUint8(code) + PackString(message)
  }

  predicate SlotsPackable(slots: seq<Slot>)
  {
    |slots| < TWO_32 && forall j :: 0 <= j < |slots| ==> Fits(slots[j].start) && Fits(slots[j].end)
  }

  predicate EntriesPackable(entries: seq<DayEntry>)
  {
    |entries| < TWO_32 && forall i :: 0 <= i < |entries| ==> entries[i].day < 0x100 && SlotsPackable(entries[i].slots)
  }

  function PackSlots(slots: seq<Slot>): seq<byte>
    requires SlotsPackable(slots)
  {
    if slots == [] then []
    else
      var s := slots[0];
      PackTime(s.start.day, s.start.hour, s.start.minute) + PackTime(s.end.day, s.end.hour, s.end.minute) + PackSlots(slots[1..])
  }

  function PackEntries(entries: seq<DayEntry>): seq<byte>
    requires EntriesPackable(entries)
  {
    if entries == [] then []
    else PackUint8(entries[0].day) + PackUint32(|entries[0].slots|) + PackSlots(entries[0].slots) + PackEntries(entries[1..])
  }

  /** `_build_availability_response`: type, facility name, day count, then per day its slot count and slots. */
  function AvailabilityResponse(msgType: byte, name: string, entries: seq<DayEntry>): seq<byte>
    requires |Utf8.Encode(name)| < TWO_32 && EntriesPackable(entries)
  {
    PackUint8(msgType) + PackString(name) + PackUint32(|entries|) + PackEntries(entries)
  }

  /** The reply to a booking: the type, then the confirmation id. */
  function BookReply(id: string): seq<byte>
    requires |Utf8.Encode(id)| < TWO_32
  {
    PackUint8(BOOK_RESPONSE) + PackString(id)
  }

  /** The reply to a change: the type, then `True`. */
  function ChangeReply(): seq<byte>
  {
    PackUint8(CHANGE_RESPONSE) + PackBool(true)
  }

  /** A success reply that carries a text: the type, `True`, then the text. */
  function SuccessReply(msgType: byte, message: string): seq<byte>
    requires |Utf8.Encode(message)| < TWO_32
  {
    PackUint8(msgType) + PackBool(true) + PackString(message)
  }

  function Reply(st: State, bytes: seq<byte>): Outcome { Outcome(st, Ok(bytes), []) }

  /** `_build_error_response` as a handler's return value. */
  function ErrorReply(st: State, code: byte, message: string): Outcome
    requires |message| < 0x4000_0000
  {
    TextFits(message);
    Reply(st, ErrorResponse(code, message))
  }

  function Raise(st: State, fault: Fault): Outcome { Outcome(st, Err(fault), []) }

  // ----------------------------------------------------------- size facts

  lemma TextFits(s: string)
    requires |s| < 0x4000_0000
    ensures |Utf8.Encode(s)| < TWO_32
  {
    Utf8.EncodeLength(s);
  }

  /** A string read from a datagram is no longer, in characters or in bytes, than the datagram. */
  lemma ReadStringFits(data: seq<byte>, off: nat)
    requires ReadString(data, off).result.Ok?
    ensures |ReadString(data, off).result.value| <= |Utf8.Encode(ReadString(data, off).result.value)| <= |data|
  {
    var n := ReadUint32(data, off).result.value;
    var start := off + 4;
    var stop := if start + n <= |data| then start + n else |data|;
    Utf8.EncodeDecode(data[start..stop]);
    Utf8.EncodeLength(ReadString(data, off).result.value);
  }

  lemma DecimalFits(n: nat)
    requires n < TWO_32
    ensures |Text.Decimal(n)| <= 10
  {
    assert Text.Pow10(10) == 10_000_000_000;
    Text.DecimalLength(n, 10, Text.Pow10(10));
  }

  lemma ConfirmationIdFits(n: nat)
    requires n < BOOKING_LIMIT
    ensures |ConfirmationId(n)| <= 14 && |Utf8.Encode(ConfirmationId(n))| < TWO_32
  {
    DecimalFits(n);
    TextFits(ConfirmationId(n));
  }

  /** The availability of any wire-safe facility for byte-sized days can be packed. */
  lemma AvailabilityPackable(bookings: seq<Booking>, days: seq<nat>)
    requires |days| < TWO_32 && |bookings| <= BOOKING_LIMIT
    requires forall i :: 0 <= i < |days| ==> days[i] < 0x100
    requires forall b :: b in bookings ==> WireSafe(b)
    ensures EntriesPackable(Availability(bookings, days))
  {
    var keys := Distinct(days);
    var entries := Availability(bookings, days);
    forall i | 0 <= i < |entries|
      ensures entries[i].day < 0x100 && SlotsPackable(entries[i].slots)
    {
      assert keys[i] in days;
      DaySlotsCount(bookings, keys[i]);
      DaySlotsFit(bookings, keys[i]);
      assert forall j :: 0 <= j < |entries[i].slots| ==> entries[i].slots[j] in DaySlots(bookings, keys[i]);
    }
  }

  lemma FacilityBookingsPackable(st: State, name: string)
    requires Packable(st)
    ensures |FacilityBookings(st, name)| <= BOOKING_LIMIT
    ensures forall b :: b in FacilityBookings(st, name) ==> WireSafe(b)
  {
  }

  // -------------------------------------------------------------- monitors

  /** `_clean_expired_monitors`: keep the registrations that expire after `now`, in order. */
  function CleanExpired(monitors: seq<Registration>, now: int): (r: seq<Registration>)
    ensures forall m :: m in r <==> m in monitors && m.expiry > now
    ensures |r| <= |monitors|
  {
    if monitors == [] then []
    else (if monitors[0].expiry > now then [monitors[0]] else []) + CleanExpired(monitors[1..], now)
  }

  /** Each unexpired registration is kept as often as it occurs; an expired one not at all. */
  lemma {:induction false} CleanExpiredCounts(monitors: seq<Registration>, now: int)
    ensures forall m :: multiset(CleanExpired(monitors, now))[m] == if m.expiry > now then multiset(monitors)[m] else 0
  {
    if monitors != [] {
      assert monitors == [monitors[0]] + monitors[1..];
      CleanExpiredCounts(monitors[1..], now);
    }
  }

  /** One update per registration for the facility, in list order, duplicates included. */
  function Updates(monitors: seq<Registration>, name: string, payload: seq<byte>): (r: seq<Datagram>)
    ensures forall d :: d in r ==> d.payload == payload
  {
    if monitors == [] then []
    else (if monitors[0].facilityName == name then [Datagram(monitors[0].client, payload)] else []) + Updates(monitors[1..], name, payload)
  }

  /**
   * `_notify_monitors`: drop expired registrations of every facility, then
   * send the facility's availability for the whole week to each remaining
   * registration for it.
   */
  function Notify(st: State, name: string, now: int): (State, seq<Datagram>)
    requires Packable(st)
  {
    var live := CleanExpired(st.monitors, now);
    var st1 := st.(monitors := live);
    if name !in st1.facilities then (st1, [])
    else
      var bookings := FacilityBookings(st1, name);
      FacilityBookingsPackable(st1, name);
      AvailabilityPackable(bookings, WEEK_DAYS);
      (st1, Updates(live, name, AvailabilityResponse(MONITOR_UPDATE, name, Availability(bookings, WEEK_DAYS))))
  }

  function NotifyOutcome(st: State, name: string, now: int, reply: seq<byte>): Outcome
    requires Packable(st)
  {
    var n := Notify(st, name, now);
    Outcome(n.0, Ok(reply), n.1)
  }

  // -------------------------------------------------------------- handlers

  /**
   * What the handlers need of the state: everything stays packable, and one
   * more booking still fits under the id limit.
   */
  ghost predicate Ready(st: State)
  {
    Packable(st) && st.nextConfirmationId < BOOKING_LIMIT
    && forall n :: n in st.facilities ==> |st.facilities[n]| < st.nextConfirmationId
  }

  lemma ReplaceBookingPackable(st: State, id: string, b: Booking)
    requires Packable(st) && WireSafe(b)
    ensures Packable(st.(bookings := st.bookings[id := b]))
  {
  }

  lemma AddBookingPackable(st: State, name: string, id: string, b: Booking)
    requires Packable(st) && WireSafe(b) && name in st.facilities && |st.facilities[name]| < BOOKING_LIMIT
    ensures Packable(st.(facilities := st.facilities[name := st.facilities[name] + [id]], bookings := st.bookings[id := b]))
  {
  }

  /** No booking of the facility other than `id` overlaps `[start, end)`. */
  predicate OthersClear(bookings: seq<Booking>, id: string, start: TimeSlot, end: TimeSlot)
  {
    forall i :: 0 <= i < |bookings| ==> bookings[i].confirmationId == id || !Overlaps(bookings[i], start, end)
  }

  /** `_handle_query_availability` once its fields are read. */
  function Query(st: State, name: string, days: seq<byte>): Outcome
    requires Ready(st) && |name| <= MAX_MESSAGE_SIZE && |days| <= MAX_MESSAGE_SIZE
  {
    if name !in st.facilities then
      ErrorReply(st, FACILITY_NOT_FOUND, NotFoundText(name))
    else
      FacilityBookingsPackable(st, name);
      AvailabilityPackable(FacilityBookings(st, name), days);
      Reply(st, AvailabilityResponse(QUERY_RESPONSE, name, Availability(FacilityBookings(st, name), days)))
  }

  /** `_handle_book_facility` once its fields are read; the prints format both times first. */
  function Book(st: State, name: string, start: TimeSlot, end: TimeSlot, now: int): Outcome
    requires Ready(st) && |name| <= MAX_MESSAGE_SIZE && Fits(start) && Fits(end)
  {
    if Format(start).Err? || Format(end).Err? then Raise(st, IndexError)
    else if name !in st.facilities then
      ErrorReply(st, FACILITY_NOT_FOUND, NotFoundText(name))
    else if Le(end, start) then ErrorReply(st, INVALID_TIME_RANGE, MSG_BAD_RANGE)
    else if !Available(FacilityBookings(st, name), start, end) then ErrorReply(st, FACILITY_UNAVAILABLE, MSG_UNAVAILABLE)
    else
      var id := ConfirmationId(st.nextConfirmationId);
      var st1 := st.(
        facilities := st.facilities[name := st.facilities[name] + [id]],
        bookings := st.bookings[id := Booking(id, name, start, end, end, false)],
        nextConfirmationId := st.nextConfirmationId + 1);
      ConfirmationIdFits(st.nextConfirmationId);
      AddBookingPackable(st, name, id, Booking(id, name, start, end, end, false));
      NotifyOutcome(st1, name, now, BookReply(id))
  }

  /** `_handle_change_booking` once its fields are read. */
  function Change(st: State, id: string, offset: int32, now: int): Outcome
    requires Ready(st)
  {
    if id !in st.bookings then ErrorReply(st, INVALID_CONFIRMATION_ID, MSG_INVALID_ID)
    else
      var b := st.bookings[id];
      if b.cancelled then ErrorReply(st, BOOKING_NOT_FOUND, MSG_CANCELLED)
      else ChangeBy(st, id, offset, now)
  }

  /** The range check of `_handle_change_booking`: both ends move by the offset and must stay in the week. */
  function ChangeBy(st: State, id: string, offset: int32, now: int): Outcome
    requires Ready(st) && id in st.bookings
  {
    var b := st.bookings[id];
    if ToMinutes(b.startTime) + offset < 0 || ToMinutes(b.endTime) + offset > MINUTES_PER_WEEK then
      ErrorReply(st, INVALID_TIME_RANGE, MSG_OUTSIDE_WEEK)
    else
      ShiftedEndWireSafe(b.(startTime := Shift(b.startTime, offset)), b.endTime, offset);
      ChangeTo(st, id, Shift(b.startTime, offset), Shift(b.endTime, offset), now)
  }

  /** The rest of `_handle_change_booking`: the moved span must be free of the facility's other bookings. */
  function ChangeTo(st: State, id: string, newStart: TimeSlot, newEnd: TimeSlot, now: int): Outcome
    requires Ready(st) && id in st.bookings && WireSafe(st.bookings[id].(startTime := newStart, endTime := newEnd))
  {
    var b := st.bookings[id];
    if !OthersClear(FacilityBookings(st, b.facilityName), id, newStart, newEnd) then
      ErrorReply(st, FACILITY_UNAVAILABLE, MSG_CHANGE_UNAVAILABLE)
    else
      var moved := b.(startTime := newStart, endTime := newEnd);
      ReplaceBookingPackable(st, id, moved);
      NotifyOutcome(st.(bookings := st.bookings[id := moved]), b.facilityName, now, ChangeReply())
  }

  /** `_handle_monitor_register` once its fields are read. */
  function Monitor(st: State, name: string, seconds: uint32, client: Endpoint, now: int): Outcome
    requires Ready(st) && |name| <= MAX_MESSAGE_SIZE
  {
    if name !in st.facilities then
      ErrorReply(st, FACILITY_NOT_FOUND, NotFoundText(name))
    else
      var st1 := st.(monitors := st.monitors + [Registration(name, client, now + seconds)]);
      DecimalFits(seconds);
      TextFits(MonitoringText(name, seconds));
      Reply(st1, SuccessReply(MONITOR_RESPONSE, MonitoringText(name, seconds)))
  }

  /** The reply to an extension: the type, `True`, then the text naming the new end. */
  function ExtendReply(end: TimeSlot): seq<byte>
    requires end.hour < 24 && end.minute < 60 && Format(end).Ok?
  {
    FormatLength(end);
    TextFits(ExtendedText(Format(end).value));
    SuccessReply(EXTEND_RESPONSE, ExtendedText(Format(end).value))
  }

  /**
   * `_handle_extend_booking` once its fields are read. The target end counts
   * from the end the booking was made with.
   */
  function Extend(st: State, id: string, minutes: uint32, now: int): Outcome
    requires Ready(st)
  {
    if id !in st.bookings then ErrorReply(st, INVALID_CONFIRMATION_ID, MSG_INVALID_ID)
    else
      var b := st.bookings[id];
      if b.cancelled then ErrorReply(st, BOOKING_NOT_FOUND, MSG_CANCELLED)
      else ExtendUntil(st, id, minutes, now)
  }

  /** The week-limit check of `_handle_extend_booking`: the new end counts from the original one. */
  function ExtendUntil(st: State, id: string, minutes: uint32, now: int): Outcome
    requires Ready(st) && id in st.bookings
  {
    var b := st.bookings[id];
    if ToMinutes(b.originalEndTime) + minutes > MINUTES_PER_WEEK then ErrorReply(st, INVALID_TIME_RANGE, MSG_EXTEND_TOO_LATE)
    else
      ShiftedEndWireSafe(b, b.originalEndTime, minutes);
      ExtendTo(st, id, Shift(b.originalEndTime, minutes), now)
  }

  /**
   * The rest of `_handle_extend_booking`, once the new end is known. An
   * unchanged end is only reported. Otherwise the span between the old and
   * the new end must be free; after the update, the print formats the old
   * and the new end, either of which can raise.
   */
  function ExtendTo(st: State, id: string, newEnd: TimeSlot, now: int): Outcome
    requires Ready(st) && id in st.bookings && newEnd.hour < 24 && newEnd.minute < 60
    requires WireSafe(st.bookings[id].(endTime := newEnd))
  {
    var b := st.bookings[id];
    if Same(b.endTime, newEnd) then
      if Format(newEnd).Err? then Raise(st, Format(newEnd).error) else Reply(st, ExtendReply(newEnd))
    else if !OthersClear(FacilityBookings(st, b.facilityName), id, Min(b.endTime, newEnd), Max(b.endTime, newEnd)) then
      ErrorReply(st, FACILITY_UNAVAILABLE, MSG_EXTEND_UNAVAILABLE)
    else
      var st1 := st.(bookings := st.bookings[id := b.(endTime := newEnd)]);
      if Format(b.endTime).Err? || Format(newEnd).Err? then Raise(st1, IndexError)
      else
        ReplaceBookingPackable(st, id, b.(endTime := newEnd));
        NotifyOutcome(st1, b.facilityName, now, ExtendReply(newEnd))
  }

  /** The reply to a cancel: the type, `True`, then the confirmation text. */
  function CancelReply(): seq<byte>
  {
    TextFits(MSG_CANCEL_DONE);
    SuccessReply(CANCEL_RESPONSE, MSG_CANCEL_DONE)
  }

  /** `_handle_cancel_booking` once its field is read. */
  function Cancel(st: State, id: string, now: int): Outcome
    requires Ready(st)
  {
    if id !in st.bookings then ErrorReply(st, INVALID_CONFIRMATION_ID, MSG_INVALID_ID)
    else
      var b := st.bookings[id];
      if b.cancelled then ErrorReply(st, ALREADY_CANCELLED, MSG_ALREADY_CANCELLED)
      else
        var st1 := st.(bookings := st.bookings[id := b.(cancelled := true)]);
        ReplaceBookingPackable(st, id, b.(cancelled := true));
        NotifyOutcome(st1, b.facilityName, now, CancelReply())
  }

  // ------------------------------------------------- handlers on the wire

  function QueryRequest(st: State, data: seq<byte>, off: nat): Outcome
    requires Ready(st) && |data| <= MAX_MESSAGE_SIZE
  {
    var name := ReadString(data, off);
    if name.result.Err? then Raise(st, name.result.error)
    else
      var days := ReadListOfInts(data, name.next);
      if days.result.Err? then Raise(st, days.result.error)
      else
        ReadStringFits(data, off);
        Query(st, name.result.value, days.result.value)
  }

  function BookRequest(st: State, data: seq<byte>, off: nat, now: int): Outcome
    requires Ready(st) && |data| <= MAX_MESSAGE_SIZE
  {
    var name := ReadString(data, off);
    if name.result.Err? then Raise(st, name.result.error)
    else
      var start := ReadTime(data, name.next);
      if start.result.Err? then Raise(st, start.result.error)
      else
        var end := ReadTime(data, start.next);
        if end.result.Err? then Raise(st, end.result.error)
        else
          var (sd, sh, sm) := start.result.value;
          var (ed, eh, em) := end.result.value;
          ReadStringFits(data, off);
          Book(st, name.result.value, TimeSlot(sd, sh, sm), TimeSlot(ed, eh, em), now)
  }

  function ChangeRequest(st: State, data: seq<byte>, off: nat, now: int): Outcome
    requires Ready(st)
  {
    var id := ReadString(data, off);
    if id.result.Err? then Raise(st, id.result.error)
    else
      var offset := ReadInt32(data, id.next);
      if offset.result.Err? then Raise(st, offset.result.error)
      else Change(st, id.result.value, offset.result.value, now)
  }

  function MonitorRequest(st: State, data: seq<byte>, off: nat, client: Endpoint, now: int): Outcome
    requires Ready(st) && |data| <= MAX_MESSAGE_SIZE
  {
    var name := ReadString(data, off);
    if name.result.Err? then Raise(st, name.result.error)
    else
      var seconds := ReadUint32(data, name.next);
      if seconds.result.Err? then Raise(st, seconds.result.error)
      else
        ReadStringFits(data, off);
        Monitor(st, name.result.value, seconds.result.value, client, now)
  }

  function ExtendRequest(st: State, data: seq<byte>, off: nat, now: int): Outcome
    requires Ready(st)
  {
    var id := ReadString(data, off);
    if id.result.Err? then Raise(st, id.result.error)
    else
      var minutes := ReadUint32(data, id.next);
      if minutes.result.Err? then Raise(st, minutes.result.error)
      else Extend(st, id.result.value, minutes.result.value, now)
  }

  function CancelRequest(st: State, data: seq<byte>, off: nat, now: int): Outcome
    requires Ready(st)
  {
    var id := ReadString(data, off);
    if id.result.Err? then Raise(st, id.result.error)
    else Cancel(st, id.result.value, now)
  }

  /** The `if`/`elif` chain on the message type; an unknown type is answered, not raised. */
  function Dispatch(st: State, msgType: byte, data: seq<byte>, off: nat, client: Endpoint, now: int): Outcome
    requires Ready(st) && |data| <= MAX_MESSAGE_SIZE
  {
    if msgType == QUERY_AVAILABILITY then QueryRequest(st, data, off)
    else if msgType == BOOK_FACILITY then BookRequest(st, data, off, now)
    else if msgType == CHANGE_BOOKING then ChangeRequest(st, data, off, now)
    else if msgType == MONITOR_REGISTER then MonitorRequest(st, data, off, client, now)
    else if msgType == EXTEND_BOOKING then ExtendRequest(st, data, off, now)
    else if msgType == CANCEL_BOOKING then CancelRequest(st, data, off, now)
    else
      DecimalFits(msgType);
      TextFits(UnknownTypeText(msgType));
      Reply(st, ErrorResponse(INVALID_REQUEST, UnknownTypeText(msgType)))
  }

  /** The `except` clause: an exception becomes an INVALID_REQUEST reply carrying its text. */
  function ReplyBytes(reply: Result<seq<byte>, Fault>): seq<byte>
  {
    match reply
    case Ok(bytes) => bytes
    case Err(e) => TextFits(Message(e)); ErrorResponse(INVALID_REQUEST, Message(e))
  }

  /** The garbage collection after a store: drop entries more than 300 seconds old. */
  function Evict(history: map<CacheKey, CacheEntry>, now: int): (r: map<CacheKey, CacheEntry>)
  {
    map k | k in history && !(now - history[k].time > HISTORY_SECONDS) :: history[k]
  }

  /** `_process_request`. */
  function Process(st: State, semantics: Semantics, data: seq<byte>, client: Endpoint, now: int): Processed
    requires Ready(st) && |data| <= MAX_MESSAGE_SIZE
  {
    var msgType := ReadUint8(data, 0);
    var requestId := ReadUint32(data, msgType.next);
    if msgType.result.Err? || requestId.result.Err? then Processed(st, None, [])
    else
      var key := CacheKey(ClientKey(client), requestId.result.value);
      if semantics == AtMostOnce && key in st.history then Processed(st, Some(st.history[key].reply), [])
      else
        Respond(st, semantics, msgType.result.value, data, requestId.next, key, client, now)
  }

  /**
   * The part of `_process_request` after the cache lookup: dispatch, turn an
   * exception into an error reply, and under at-most-once store the reply.
   */
  function Respond(st: State, semantics: Semantics, msgType: byte, data: seq<byte>, off: nat,
                   key: CacheKey, client: Endpoint, now: int): Processed
    requires Ready(st) && |data| <= MAX_MESSAGE_SIZE
  {
    var o := Dispatch(st, msgType, data, off, client, now);
    var response := ReplyBytes(o.reply);
    var stored := if semantics == AtMostOnce
      then o.state.(history := Evict(o.state.history[key := CacheEntry(response, now)], now))
      else o.state;
    Processed(stored, Some(response), o.sent)
  }
}
