# Facility booking server: wire codec and booking engine

This project models the two parts of the UDP facility booking system in Dafny:

- **The wire codec** (`marshalling.py`).
  - `Marshaller` packs big-endian integers, UTF-8 strings with a length prefix, booleans, three-byte times and byte lists with a count prefix.
  - `Unmarshaller` reads the same fields back. Its cursor, `offset`, moves forward with each read.
  - `MessageBuilder` appends packed fields to a buffer.
- **The booking engine** (`server.py`):
  - week-relative `TimeSlot`s and the `Booking` interval test;
  - the sorted gap sweep of `Facility.get_availability`;
  - the six request handlers of `FacilityBookingServer`: query, book, change, monitor, extend and cancel;
  - the monitor callbacks;
  - the dispatcher `_process_request`, with its at-least-once and at-most-once semantics.

The constants of `protocol.py` are transcribed in `protocol.dfy`, together with the message types, the error codes and `MAX_MESSAGE_SIZE`.

Layout:

- `wrappers.dfy` holds `Option` and `Result`.
- `bytes.dfy` holds the byte and integer widths.
- `faults.dfy` holds the Python exceptions the dispatcher catches: `struct.error`, `UnicodeDecodeError` and `IndexError`.
- `text.dfy` renders decimals and zero padding.
- `utf8.dfy` is a real UTF-8 encoder and a strict decoder, with both round trips proved.
- `marshalling.dfy` holds the codec:
  - the pack functions and their reference meaning `BigEndian`;
  - the read functions, which return a value or an exception plus the new cursor;
  - the classes `Unmarshaller` (with field `offset`) and `MessageBuilder` (with field `buffer`), whose methods are proved against those functions.
- `codec_properties.dfy` proves the round trips of Python's `struct` and UTF-8 layer as used here, inside any surrounding bytes.
- `timeslot.dfy` and `facility.dfy` hold `TimeSlot`, `Booking` and `Facility`. The loops of `is_available` and `get_availability` are methods proved against functions.
- `service.dfy` holds the engine as functions on a `State`:
  - the facility lists (confirmation ids);
  - the booking map;
  - the id counter;
  - the monitor list;
  - the reply cache.

  Every handler maps a state, the request bytes, the sender's address and the current time to a new state, a reply or a raised exception, and the monitor datagrams sent.
- `server.dfy` holds the class `FacilityBookingServer`, whose fields the handler methods update in place. Each method is proved equal to its function in `service.dfy`.
- `server_properties.dfy` proves what the handlers promise:
  - error precedence;
  - exact effects;
  - idempotent Extend and non-idempotent Cancel;
  - that the shape invariant holds across every request;
  - that live bookings never overlap;
  - the at-most-once cache (a retransmission is answered from it);
  - that client-built requests decode to the handler's arguments.

Behaviours of the code the model reproduces as written:

- **Empty days report the whole day twice.** A day with no live booking starting on it reports two full-day slots, because both the trailing-slot branch and the empty-day branch append one (`EmptyDayTwoSlots`).
- **Bookings that cross midnight.** A booking that starts the previous day does not count for the following day (`OvernightBookingNotSeen`).
- **Short datagrams get no reply.** A datagram shorter than the five-byte header raises outside the `try` and is not answered (`ShortHeaderUnanswered`).
- **Formatting a day ≥ 7 raises.** `TimeSlot.__str__` indexes the seven day names with Python indexing, so days from −7 to 6 format and any other day raises `IndexError`, which becomes an INVALID_REQUEST reply:
  - Book formats both times before any check.
  - Extend formats the target when the end is already there.
  - Extend also formats both the old and the new end after updating the booking. Reaching the end of the week, or extending a booking whose end a Change has put at the end of the week, therefore changes the state but answers with an error and notifies nobody (`ExtendToWeekEnd`, `ExtendToMoves`).
- **Change leaves `original_end_time` alone.** A later Extend can therefore set an end before the start (`ExtendAfterChangeReverses`).
- **The cache key omits the message type.** The at-most-once key is `"host:port"` plus the request id. Error replies are cached as well.
- **Monitor registration discards its availability.** The availability it computes is never used.

## Model

| member | source | states |
|---|---|---|
| Marshalling.PackUint8 | marshalling.py:13-15 | one byte whose big-endian value is `v` |
| Marshalling.PackUint16 | marshalling.py:18-20 | two bytes, most significant first, whose value is `v` |
| Marshalling.PackUint32 | marshalling.py:23-25 | four bytes, most significant first, whose value is `v` |
| Marshalling.PackInt32 | marshalling.py:28-30 | four bytes whose unsigned value is `v` modulo 2^32 (two's complement) |
| Marshalling.PackString | marshalling.py:33-37 | a four-byte prefix holding the UTF-8 byte length, followed by exactly the UTF-8 bytes of `s` |
| Marshalling.PackBool | marshalling.py:40-42 | one byte: 1 for true, 0 for false |
| Marshalling.PackTime | marshalling.py:45-47 | three bytes: day, hour, minute |
| Marshalling.PackElems | marshalling.py:53-54 | the element loop writes the values themselves, one byte each, in order |
| Marshalling.PackListOfInts | marshalling.py:50-55 | a four-byte count equal to the list length, followed by the list |
| Marshalling.StructPack | marshalling.py:13-30 | `struct.pack` of one integer succeeds iff the value is in its format's range, and yields 1, 2 or 4 bytes |
| Marshalling.ReadUint8 | marshalling.py:65-69 | succeeds iff a byte is left; then the value is that byte and the cursor moves by 1; otherwise struct.error and the cursor stays |
| Marshalling.ReadUint16 | marshalling.py:71-75 | succeeds iff two bytes are left; then the value is their big-endian reading and the cursor moves by 2; otherwise struct.error and the cursor stays |
| Marshalling.ReadUint32 | marshalling.py:77-81 | succeeds iff four bytes are left; big-endian value, cursor moves by 4; otherwise struct.error and the cursor stays |
| Marshalling.ReadInt32 | marshalling.py:83-87 | succeeds iff four bytes are left; the signed value is congruent to the bytes' unsigned value modulo 2^32; cursor moves by 4 |
| Marshalling.ReadString | marshalling.py:89-94 | fewer than four bytes give struct.error with the cursor unmoved; otherwise the declared length `n` selects the bytes after the prefix, clipped at the end of the data; they decode as strict UTF-8 to the value with the cursor moved by 4 + `n`, even past the end, or raise UnicodeDecodeError |
| Marshalling.ReadBool | marshalling.py:96-99 | succeeds iff a byte is left; the value is true iff that byte is nonzero and the cursor moves by 1; otherwise struct.error and the cursor stays |
| Marshalling.ReadTime | marshalling.py:101-106 | succeeds iff three bytes are left; the value is those bytes as day, hour and minute and the cursor moves by 3; otherwise struct.error with the cursor at the end of the data (or unmoved when it is already past it) |
| Marshalling.ReadListOfInts | marshalling.py:108-114 | succeeds iff the four-byte count and that many bytes after it are present; the value is exactly those bytes and the cursor moves past them; otherwise struct.error, with the cursor at the end of the data once the count was read and unmoved when it could not be |
| Marshalling.Unmarshaller.constructor | marshalling.py:61-63 | holds the datagram with the cursor at 0 |
| Marshalling.Unmarshaller.UnpackUint8 | marshalling.py:65-69 | the result and the new offset are those of `ReadUint8` at the old offset |
| Marshalling.Unmarshaller.UnpackUint16 | marshalling.py:71-75 | the result and the new offset are those of `ReadUint16` |
| Marshalling.Unmarshaller.UnpackUint32 | marshalling.py:77-81 | the result and the new offset are those of `ReadUint32` |
| Marshalling.Unmarshaller.UnpackInt32 | marshalling.py:83-87 | the result and the new offset are those of `ReadInt32` |
| Marshalling.Unmarshaller.UnpackString | marshalling.py:89-94 | the result and the new offset are those of `ReadString`: length, then the slice (clipped) decoded as strict UTF-8, then the offset moved by the declared length |
| Marshalling.Unmarshaller.UnpackBool | marshalling.py:96-99 | the result and the new offset are those of `ReadBool` (any nonzero byte is true) |
| Marshalling.Unmarshaller.UnpackTime | marshalling.py:101-106 | the result and the new offset are those of `ReadTime`: three single-byte reads |
| Marshalling.Unmarshaller.UnpackListOfInts | marshalling.py:108-114 | the loop of single-byte reads yields what `ReadListOfInts` gives: the count, then that many bytes, or struct.error with the cursor where the failing read left it |
| Marshalling.Unmarshaller.HasData | marshalling.py:116-118 | true iff the offset is before the end of the data |
| Marshalling.MessageBuilder.constructor | marshalling.py:124-125 | the buffer starts empty |
| Marshalling.MessageBuilder.AddUint8 | marshalling.py:127-129 | appends exactly `PackUint8(v)` and keeps the earlier bytes |
| Marshalling.MessageBuilder.AddUint16 | marshalling.py:131-133 | appends exactly `PackUint16(v)` |
| Marshalling.MessageBuilder.AddUint32 | marshalling.py:135-137 | appends exactly `PackUint32(v)` |
| Marshalling.MessageBuilder.AddInt32 | marshalling.py:139-141 | appends exactly `PackInt32(v)` |
| Marshalling.MessageBuilder.AddString | marshalling.py:143-145 | appends exactly `PackString(s)` |
| Marshalling.MessageBuilder.AddBool | marshalling.py:147-149 | appends exactly `PackBool(b)` |
| Marshalling.MessageBuilder.AddTime | marshalling.py:151-153 | appends exactly `PackTime(day, hour, minute)` |
| Marshalling.MessageBuilder.AddListOfInts | marshalling.py:155-157 | appends exactly `PackListOfInts(values)` |
| Marshalling.MessageBuilder.Build | marshalling.py:159-160 | returns the buffer |
| CodecProperties.ReadUint8Packed | marshalling.py:13-15 | a packed byte inside any message reads back as itself, the cursor moving by 1 |
| CodecProperties.ReadUint16Packed | marshalling.py:18-20 | a packed uint16 inside any message reads back as itself, the cursor moving by 2 |
| CodecProperties.ReadUint32Packed | marshalling.py:23-25 | a packed uint32 inside any message reads back as itself, the cursor moving by 4 |
| CodecProperties.ReadInt32Packed | marshalling.py:28-30 | a packed int32, negative ones included, reads back as itself, the cursor moving by 4 |
| CodecProperties.ReadStringPacked | marshalling.py:33-37 | every string, the empty one and non-ASCII ones included, reads back as itself, the cursor moving by 4 plus its UTF-8 length |
| CodecProperties.ReadBoolPacked | marshalling.py:96-99 | a packed boolean reads back as itself, the cursor moving by 1 |
| CodecProperties.ReadBoolNotInjective | marshalling.py:96-99 | the byte 2 decodes to true like the packed `True`, so boolean decoding is not injective |
| CodecProperties.ReadTimePacked | marshalling.py:101-106 | a packed time reads back as its three fields, the cursor moving by 3 |
| CodecProperties.ReadListPacked | marshalling.py:108-114 | a packed list, the empty one included, reads back as itself, the cursor moving by 4 plus its length |
| CodecProperties.ShortFixedReadFails | marshalling.py:67 | a fixed-width read with fewer bytes left than its width raises struct.error and leaves the cursor |
| CodecProperties.ReadStringTruncated | marshalling.py:91-93 | a declared length past the end yields the decoded tail and puts the cursor beyond the end of the data |
| Utf8.EncodeChar | marshalling.py:35 | one to four bytes per character, one byte exactly for characters below U+0080, and that byte is the code point |
| Utf8.DecodeEncode | marshalling.py:35 | strict decoding recovers every encoded string |
| Utf8.EncodeDecode | marshalling.py:92 | every byte string that decodes is the encoding of what it decodes to |
| Utf8.EncodeLength | marshalling.py:35-36 | a string's character count is at most its UTF-8 length, which is at most four times it |
| Utf8.EncodeAscii | marshalling.py:35 | ASCII text is encoded byte for byte |
| Text.DecimalDigits | server.py:236 | `str(n)` is all digits and reads back as `n` |
| Text.ZeroPaddedValue | server.py:236 | the zero-padded rendering is all digits and reads back as `n` |
| Text.ZeroPaddedInjective | server.py:236 | distinct numbers have distinct zero-padded renderings |
| TimeSlots.Min | server.py:487 | Python's `min` on slots returns one of its arguments, no later than either, and the first one on a tie under `__eq__` |
| TimeSlots.Max | server.py:148 | Python's `max` on slots returns one of its arguments, no earlier than either, and the first one on a tie under `__eq__` |
| TimeSlots.ToMinutes | server.py:42-44 | no contract of its own: the ordering key, minutes from Monday 00:00; `ToMinutesOrder` states what it means |
| TimeSlots.ToMinutesOrder | server.py:42-56 | on normalised slots `__lt__` is the day-hour-minute lexicographic order, `__eq__` is equality of the fields, and renormalising the key gives the slot back |
| TimeSlots.FromMinutes | server.py:382-383 | the `//` and `%` renormalisation gives a slot with hour < 24 and minute < 60 at the same minute of the week, a day ≤ 7 within the week and a nonnegative day iff the minute is nonnegative |
| TimeSlots.Shift | server.py:375-383 | the moved slot is exactly `minutes` later, normalised |
| TimeSlots.Format | server.py:58-61 | `__str__` raises IndexError iff the day is outside −7..6; otherwise the text starts with the day's name, counting negative days from the end |
| TimeSlots.FormatLength | server.py:61 | a normalised slot prints in nine characters |
| TimeSlots.FormatClock | server.py:61 | after the day name a normalised slot prints a space, the hour as two digits reading back as the hour, a colon and the minute as two digits reading back as the minute |
| TimeSlots.EndOfDayIsNextMidnight | server.py:54-56 | `(d, 24, 0)` equals `(d+1, 0, 0)` under `__eq__`, though the slots differ |
| TimeSlots.FormatMonday | server.py:58-61 | sample rendering: Monday 09:05, hour and minute zero-padded |
| TimeSlots.FormatWeekEnd | server.py:58-61 | the end of the week renormalises to day 7 and formatting it raises IndexError |
| TimeSlots.FormatBeforeMonday | server.py:58-61 | ten minutes before Monday renormalises to day −1 and prints as Sunday 23:50 |
| Facilities.Overlaps | server.py:83-94 | true iff the booking is live and the two half-open intervals intersect |
| Facilities.Available | server.py:109-117 | no contract of its own: no booking of the list overlaps the interval; `IsAvailable` is the loop proved against it |
| Facilities.IsAvailable | server.py:109-117 | the early-return loop answers true iff no booking of the facility overlaps the interval |
| Facilities.SortByStart | server.py:135-136 | no contract of its own: insertion by start key; `SortByStartCorrect` proves it sorted, a permutation and stable |
| Facilities.SortByStartCorrect | server.py:135-136 | the key sort is ascending by start, a permutation, and stable among equal starts |
| Facilities.LiveOnDay | server.py:135 | exactly the live bookings starting on that day, no more than there are |
| Facilities.Sweep | server.py:143-148 | no contract of its own: the gap sweep; `SweepGaps`, `SweepFits` and `SweepGapsLoop` state its gaps and final point |
| Facilities.DaySlots | server.py:134-156 | no contract of its own: one day's slots; `DaySlotsFree`, `DaySlotsNonEmptyGaps`, `DaySlotsCount`, `DaySlotsComplete`, `EmptyDayTwoSlots`, `FullyBookedDay` and `BackToBackDay` state them |
| Facilities.Availability | server.py:119-160 | no contract of its own: the day dictionary in first-seen key order; `Distinct`, `AvailabilityStep` and `GetAvailability` state it |
| Facilities.SweepGapsLoop | server.py:143-148 | the gap loop computes the gaps and final `current` of the sweep function |
| Facilities.SlotsForDay | server.py:134-158 | one day's slots: the gaps, the trailing slot and the empty-day slot |
| Facilities.GetAvailability | server.py:119-160 | the loop over the requested days builds the dictionary `Availability` describes |
| Facilities.Distinct | server.py:133-158 | the dictionary's keys are exactly the requested days, each once, no more of them than requested |
| Facilities.AvailabilityStep | server.py:158 | each loop step is one dictionary assignment: overwrite a repeated day in place, append a new one |
| Facilities.SweepGaps | server.py:143-148 | every reported gap lies after the starting point, is non-empty, and overlaps none of the day's bookings; there is at most one gap per booking |
| Facilities.DaySlotsFree | server.py:119-160 | no reported slot overlaps a live booking that starts on the queried day |
| Facilities.SweepCovers | server.py:143-148 | the gap loop drops no free time: a minute from the starting point on that no swept booking covers lies in a reported gap or at or after the final `current` |
| Facilities.DaySlotsComplete | server.py:119-160 | every minute of the day that no live booking starting on that day overlaps lies inside some reported slot |
| Facilities.DaySlotsNonEmptyGaps | server.py:144-146 | every gap found between bookings has start before end |
| Facilities.EmptyDayTwoSlots | server.py:151-156 | a day with no live booking starting on it reports the whole day twice |
| Facilities.FullyBookedDay | server.py:143-156 | a booking from 00:00 to 24:00 leaves no slot at all |
| Facilities.SweepChain | server.py:143-148 | back-to-back bookings, each starting where the previous one ends, leave no gap, and the sweep ends at the last end |
| Facilities.BackToBackDay | server.py:134-156 | a day whose sorted live bookings run back to back from 00:00 to 24:00 reports no slot at all |
| Facilities.OvernightBookingNotSeen | server.py:135 | a booking from 23:00 into the next day is ignored for the next day, whose reported slot it overlaps |
| Facilities.DaySlotsCount | server.py:143-156 | at most one slot per booking plus two |
| Facilities.DaySlotsFit | server.py:296-300 | for a byte-sized day every reported slot fits `pack_time` |
| Facilities.ShiftedEndWireSafe | server.py:471 | an end shifted within the week keeps the booking packable |
| Service.WithFacilities | server.py:225-229 | the facility map gains exactly the listed names, each with an empty booking list, and keeps the others |
| Service.Resolve | server.py:208-209 | the facility list resolves to exactly the bookings its ids name |
| Service.CleanExpired | server.py:247-253 | keeps exactly the registrations expiring after now, none longer than the input |
| Service.CleanExpiredCounts | server.py:253 | each unexpired registration is kept as many times as it occurs, each expired one never |
| ServerProperties.CleanExpiredAppend | server.py:253 | the filter keeps list order: cleaning a concatenation cleans each part in place |
| Service.Updates | server.py:277-285 | every update carries the one availability payload |
| Service.ReadStringFits | marshalling.py:89-94 | a string read from a datagram is no longer than the datagram |
| Service.ConfirmationIdFits | server.py:236 | a confirmation id below the counter limit fits a string field |
| Service.AvailabilityPackable | server.py:287-302 | the availability of wire-safe bookings for byte-sized days can always be packed |
| Service.ErrorResponse | server.py:553-559 | no contract of its own: type ERROR, the code, the message; `Server.BuildErrorResponse` and `ServerProperties.ErrorReplyCode` state it |
| Service.AvailabilityResponse | server.py:287-302 | no contract of its own: `Server.BuildAvailabilityResponse` is the loop proved against it and `Service.AvailabilityPackable` shows it always exists |
| Service.Notify | server.py:255-285 | no contract of its own: `ServerProperties.NotifyEffect`, `NotifyOnlyMonitors` and `UpdatesTargets` state its effect |
| Service.Query | server.py:304-318 | no contract of its own: `ServerProperties.QuerySuccessor` and `Server.FacilityBookingServer.QueryAvailability` state it |
| Service.Book | server.py:320-355 | no contract of its own: `ServerProperties.BookErrorOrder`, `BookAccepted`, `BookSuccessor` and `BookKeepsSound` state it |
| Service.Change | server.py:357-372 | no contract of its own: `ServerProperties.ChangeErrorOrder`, `ChangeSuccessor` and `ChangeKeepsSound` state it |
| Service.ChangeBy | server.py:374-383 | no contract of its own: `ServerProperties.ChangeByErrorOrder` states it |
| Service.ChangeTo | server.py:385-403 | no contract of its own: `ServerProperties.ChangeAccepted` and `ChangeToSuccessor` state it |
| Service.Monitor | server.py:405-429 | no contract of its own: `ServerProperties.MonitorEffect` and `MonitorSuccessor` state it |
| Service.Extend | server.py:431-460 | no contract of its own: `ServerProperties.ExtendErrorOrder`, `ExtendRepeat`, `ExtendSuccessor` and `ExtendKeepsSound` state it |
| Service.ExtendUntil | server.py:464-471 | no contract of its own: `ServerProperties.ExtendUntilErrorOrder` states it |
| Service.ExtendTo | server.py:474-508 | no contract of its own: `ServerProperties.ExtendToSame`, `ExtendToBlocked`, `ExtendToMoves`, `ExtendToWeekEnd` and `ExtendToKeepsValid` state it |
| Service.Cancel | server.py:510-551 | no contract of its own: `ServerProperties.CancelErrorOrder`, `CancelTwice` and `CancelKeepsSound` state it |
| Service.Dispatch | server.py:594-609 | no contract of its own: `ServerProperties.DispatchSuccessor` and the `…RequestDecodes` lemmas state it |
| Service.Process | server.py:561-626 | no contract of its own: `ServerProperties.ShortHeaderUnanswered`, `CacheHit`, `ProcessMiss` and `RetransmissionAnsweredFromCache` state it |
| Service.Respond | server.py:593-626 | no contract of its own: `ServerProperties.RespondEffect` and `RespondReply` state it |
| Server.UpdatesAppend | server.py:277-279 | one more registration adds an update iff it is for the facility |
| Server.AppendSlots | server.py:298-300 | the inner loop appends each slot's start then end |
| Server.AppendEntries | server.py:295-300 | the outer loop appends per day its number, slot count and slots |
| Server.BuildAvailabilityResponse | server.py:287-302 | the reply is the type (update or query response), the name, the day count and the entries |
| Server.BuildErrorResponse | server.py:553-559 | the ERROR type, the code and the message |
| Server.BuildBookResponse | server.py:352-355 | the BOOK_RESPONSE type and the confirmation id |
| Server.BuildChangeResponse | server.py:400-403 | the CHANGE_RESPONSE type and `True` |
| Server.BuildSuccessResponse | server.py:425-429 | a success type, `True` and the text |
| Server.FacilityBookingServer.constructor | server.py:196-223 | empty collections, the counter at 1, then the four sample facilities |
| Server.FacilityBookingServer.InitializeFacilities | server.py:225-229 | adds the four facilities with empty lists and changes nothing else |
| Server.FacilityBookingServer.GenerateConfirmationId | server.py:231-238 | returns `CONF` and the zero-padded counter, and moves the counter by one |
| Server.FacilityBookingServer.CleanExpiredMonitors | server.py:247-253 | the monitor list becomes its unexpired registrations |
| Server.FacilityBookingServer.NotifyMonitors | server.py:255-285 | the new state and the sent updates are those of `Notify` |
| Server.FacilityBookingServer.SendUpdates | server.py:277-285 | the send loop emits the updates `Updates` describes |
| Server.FacilityBookingServer.StoreAndNotify | server.py:394-398 | stores the updated booking, then notifies |
| Server.FacilityBookingServer.HandleQueryAvailability | server.py:304-318 | read name and days, then answer as `QueryRequest` |
| Server.FacilityBookingServer.QueryAvailability | server.py:311-318 | the reply as `Query`: FACILITY_NOT_FOUND or the availability response, nothing changed |
| Server.FacilityBookingServer.HandleBookFacility | server.py:320-355 | read name and times, then state, reply and updates as `BookRequest` |
| Server.FacilityBookingServer.BookFacility | server.py:326-355 | state, reply and updates as `Book` |
| Server.FacilityBookingServer.HandleChangeBooking | server.py:357-403 | read id and offset, then as `ChangeRequest` |
| Server.FacilityBookingServer.OthersClearLoop | server.py:388-391 | the early-return overlap loop passes iff no other booking of the list overlaps |
| Server.FacilityBookingServer.ChangeBooking | server.py:364-403 | as `Change` |
| Server.FacilityBookingServer.ChangeBookingBy | server.py:375-403 | as `ChangeBy` |
| Server.FacilityBookingServer.ChangeBookingTo | server.py:385-403 | as `ChangeTo` |
| Server.FacilityBookingServer.HandleMonitorRegister | server.py:405-429 | read name and duration, then as `MonitorRequest` |
| Server.FacilityBookingServer.MonitorRegister | server.py:412-429 | as `Monitor` |
| Server.FacilityBookingServer.HandleExtendBooking | server.py:431-508 | read id and minutes, then as `ExtendRequest` |
| Server.FacilityBookingServer.ExtendBooking | server.py:452-508 | as `Extend` |
| Server.FacilityBookingServer.ExtendBookingUntil | server.py:464-508 | as `ExtendUntil` |
| Server.FacilityBookingServer.ExtendBookingTo | server.py:471-508 | as `ExtendTo` |
| Server.FacilityBookingServer.HandleCancelBooking | server.py:510-551 | read the id, then as `CancelRequest` |
| Server.FacilityBookingServer.CancelBooking | server.py:530-551 | as `Cancel` |
| Server.FacilityBookingServer.EvictStale | server.py:621-624 | the cache becomes `Evict` of itself |
| Server.FacilityBookingServer.DispatchRequest | server.py:594-609 | as `Dispatch` on the message type |
| Server.FacilityBookingServer.ProcessRequest | server.py:561-626 | state, reply and updates as `Process` |
| Server.FacilityBookingServer.RespondToRequest | server.py:593-626 | as `Respond` |
| ServerProperties.ErrorReplyCode | server.py:553-559 | an error reply carries its code and changes nothing |
| ServerProperties.RaiseCode | server.py:610-612 | a raised exception is answered with INVALID_REQUEST |
| ServerProperties.ConfirmationIdInjective | server.py:231-238 | distinct counter values give distinct ids |
| ServerProperties.BookErrorOrder | server.py:320-342 | the error order is: a day ≥ 7 gives INVALID_REQUEST, then FACILITY_NOT_FOUND, then INVALID_TIME_RANGE when end ≤ start, then FACILITY_UNAVAILABLE; on every rejection nothing changes and nothing is sent |
| ServerProperties.BookAccepted | server.py:344-355 | an accepted booking takes the counter's fresh id and is appended to the facility list and the map with its original end and not cancelled; the counter moves by one, expired monitors are dropped, the reply carries the id, and the updates sent are exactly `Notify`'s for the facility on the new bookings |
| ServerProperties.ValidReady | server.py:205-216 | a valid state with counter room can take the next request |
| ServerProperties.NotifyOnlyMonitors | server.py:255-270 | notification changes only the monitor list |
| ServerProperties.FacilityNamesFit | server.py:227 | the sample facility names fit a string field |
| ServerProperties.InitialValid | server.py:205-229 | the initial state satisfies the shape invariant |
| ServerProperties.InitialSound | server.py:205-229 | the initial state has no bookings and nothing overlaps |
| ServerProperties.ReplaceKeepsValid | server.py:394-395 | rewriting a booking in place under its id and facility keeps the invariant |
| ServerProperties.SameShapeKeeps | server.py:205-216 | the invariants depend on the facility lists, the bookings and the counter only |
| ServerProperties.FreshIdsAfterAdd | server.py:236-237 | after using the counter's id and moving on, every later id is still free |
| ServerProperties.ListedBookedAfterAdd | server.py:346-347 | listing a fresh booking keeps every listed id booked for its facility |
| ServerProperties.BookedListedAfterAdd | server.py:346-347 | adding a fresh booking keeps every booking listed by its facility |
| ServerProperties.AddBookingKeepsValid | server.py:344-347 | adding a booking under the counter's id keeps the invariant |
| ServerProperties.ChangeErrorOrder | server.py:364-372 | an unknown id gives INVALID_CONFIRMATION_ID, then a cancelled booking gives BOOKING_NOT_FOUND, both without change; a live booking goes on to the range check |
| ServerProperties.ChangeByErrorOrder | server.py:374-391 | a shift leaving the week gives INVALID_TIME_RANGE, then an overlap with another booking of the facility gives FACILITY_UNAVAILABLE, both without change |
| ServerProperties.ChangeAccepted | server.py:382-403 | on success both ends move by exactly the offset; every other booking, the lists and the counter stay; the original end and the flag stay; the reply is CHANGE_RESPONSE `True`; the updates sent are exactly `Notify`'s for the facility on the moved booking |
| ServerProperties.ExtendErrorOrder | server.py:452-460 | an unknown id, then a cancelled booking, are rejected without change; a live booking goes on to the week check |
| ServerProperties.ExtendUntilErrorOrder | server.py:464-471 | the target counts from the original end; past the week gives INVALID_TIME_RANGE without change, otherwise the target is the shifted original end |
| ServerProperties.ExtendToSame | server.py:474-481 | an end already at the target is answered with success and no change or update |
| ServerProperties.ExtendToBlocked | server.py:483-494 | a clash in the window between the current and target ends gives FACILITY_UNAVAILABLE without change |
| ServerProperties.ExtendToMoves | server.py:496-508 | a clear window moves the end to the target and changes no other booking, list, counter or cache; when both ends print, expired monitors are dropped, the reply names the new end and the updates sent are exactly `Notify`'s for the facility on the moved end; when either end cannot be printed, the reply is INVALID_REQUEST, the monitors are untouched and nothing is sent |
| ServerProperties.ExtendToWeekEnd | server.py:474-499 | a target at the very end of the week raises after (or instead of) the update, sends nothing, and leaves the end at the target |
| ServerProperties.ExtendToKeepsValid | server.py:474-508 | each Extend path keeps the invariant |
| ServerProperties.ExtendRepeat | server.py:437-444 | after one successful Extend a repeat with the same minutes changes nothing, sends nothing, and answers the same success |
| ServerProperties.CancelErrorOrder | server.py:530-539 | an unknown id gives INVALID_CONFIRMATION_ID, then a cancelled booking ALREADY_CANCELLED, both without change |
| ServerProperties.CancelTwice | server.py:510-551 | the first cancel sets only the booking's flag, drops expired monitors, succeeds and sends exactly `Notify`'s updates for the facility; the second returns ALREADY_CANCELLED with no change |
| ServerProperties.MonitorEffect | server.py:405-429 | an unknown facility gives FACILITY_NOT_FOUND; otherwise exactly one registration expiring at now plus the duration is appended, and the reply is MONITOR_RESPONSE, `True` and the text |
| ServerProperties.FacilityRegistrations | server.py:277-278 | exactly the registrations for the facility |
| ServerProperties.UpdatesTargets | server.py:277-285 | one update per registration for the facility, in list order, duplicates included |
| ServerProperties.NotifyEffect | server.py:255-285 | expired registrations of every facility are dropped, then each remaining registration for the facility gets one MONITOR_UPDATE naming it, in order, whose payload is the availability response for days 0 to 6 on the facility's bookings |
| ServerProperties.AvailabilityResponseHeader | server.py:291-293 | an availability reply reads back as its type byte followed by the facility name |
| ServerProperties.SuccessorOfSelf | server.py:205-216 | a state whose bookings and counter are unchanged is a successor |
| ServerProperties.ReplaceSuccessor | server.py:394-395 | rewriting a live booking in place is a successor |
| ServerProperties.QuerySuccessor | server.py:304-318 | a query changes nothing |
| ServerProperties.MonitorSuccessor | server.py:405-429 | registration keeps the bookings and the invariant |
| ServerProperties.AddSuccessor | server.py:344-347 | adding a fresh booking is a successor |
| ServerProperties.BookSuccessor | server.py:320-355 | every outcome of Book keeps the invariant, removes no booking and reverts no cancellation |
| ServerProperties.ChangeToSuccessor | server.py:385-403 | ditto for the move of a change |
| ServerProperties.ChangeSuccessor | server.py:357-403 | ditto for Change |
| ServerProperties.ExtendToSuccessor | server.py:474-508 | ditto for the rest of an extension |
| ServerProperties.ExtendSuccessor | server.py:431-508 | ditto for Extend |
| ServerProperties.CancelSuccessor | server.py:510-551 | ditto for Cancel: the cancelled flag is never reset |
| ServerProperties.QueryRequestSuccessor | server.py:304-318 | a query request, decodable or not, changes nothing |
| ServerProperties.BookRequestSuccessor | server.py:320-355 | a book request on any bytes keeps the invariant |
| ServerProperties.ChangeRequestSuccessor | server.py:357-403 | ditto for a change request |
| ServerProperties.MonitorRequestSuccessor | server.py:405-429 | ditto for a monitor request |
| ServerProperties.ExtendRequestSuccessor | server.py:431-508 | ditto for an extend request |
| ServerProperties.CancelRequestSuccessor | server.py:510-551 | ditto for a cancel request |
| ServerProperties.DispatchSuccessor | server.py:594-612 | whatever the message type and bytes, one dispatched request leaves a successor state |
| ServerProperties.ShortHeaderUnanswered | server.py:578-580 | a datagram shorter than five bytes gets no reply and changes nothing |
| ServerProperties.CacheHit | server.py:585-591 | under at-most-once a cached key is answered with the stored bytes; no handler runs and nothing is evicted |
| ServerProperties.RespondEffect | server.py:593-626 | the reply is the handler's (an exception becoming INVALID_REQUEST); at-least-once leaves the cache alone; at-most-once stores the reply under the key at now and keeps exactly the other entries at most 300 seconds old |
| ServerProperties.ProcessMiss | server.py:578-593 | on a miss the request is answered by dispatching the first byte on the rest, keyed by `"host:port"` and the request id |
| ServerProperties.RetransmissionAnsweredFromCache | server.py:584-626 | under at-most-once a retransmitted datagram gets the first reply again, with no change and no update |
| ServerProperties.ListedResolved | server.py:208-209 | every booking is among its facility's resolved bookings |
| ServerProperties.PutKeepsSound | server.py:345-347 | storing a non-empty booking that overlaps none of its facility's others keeps live bookings disjoint |
| ServerProperties.BookKeepsSound | server.py:335-347 | Book keeps the live bookings of each facility non-empty and pairwise disjoint |
| ServerProperties.OthersClearResolved | server.py:388-391 | a passed overlap loop clears every other booking of the facility |
| ServerProperties.ChangeKeepsSound | server.py:357-403 | Change keeps live bookings disjoint |
| ServerProperties.ExtendToKeepsSound | server.py:483-499 | while the start stays before both ends, an extension keeps live bookings disjoint |
| ServerProperties.ExtendKeepsSound | server.py:431-508 | ditto for Extend, the target counting from the original end |
| ServerProperties.CancelKeepsSound | server.py:542 | cancelling keeps live bookings disjoint |
| ServerProperties.ExtendAfterChangeReverses | server.py:464-498 | after a change moved a booking past its original end, extending by zero sets the end before the start |
| ServerProperties.ReadTwoTimes | marshalling.py:101-106 | two packed times read back in order |
| ServerProperties.BookRequestDecodes | server.py:322-327 | a book request built by a client reaches Book with its name and times |
| ServerProperties.BookRequestFields | server.py:322-327 | the name and the two times of a client-built book request read back in order, each read starting where the previous one ended |
| ServerProperties.CancelRequestDecodes | server.py:526 | a cancel request reaches Cancel with its id |
| ServerProperties.ChangeRequestDecodes | server.py:359-360 | a change request reaches Change with its id and signed offset |
| ServerProperties.ExtendRequestDecodes | server.py:447-448 | an extend request reaches Extend with its id and minutes |
| ServerProperties.RespondReply | server.py:594-612 | the reply to a miss is the handler's, exceptions becoming error replies |
| ServerProperties.CancelDatagram | server.py:578-617 | a full cancel datagram on a miss is answered with Cancel's reply, under either semantics |

## Left out

- Sockets are not modelled: creating and binding the socket, the `run` receive loop, `sendto` and the simulated loss with `random.random()`, and the command-line entry point (server.py:218-220, 240-245, 628-701). These are networking and randomness. Monitor updates are returned as datagrams, and a failing `sendto` never happens.
- `print` output is not modelled. Only its one observable effect remains: formatting a slot with day ≥ 7 raises IndexError.
- `time.time()` is a float. The model passes wall-clock time in as whole seconds, one value per request.
- The texts of struct.error and UnicodeDecodeError are placeholders. In Python they name the sizes and the offending byte. The IndexError text is exact.
- The `semantics` string is a two-valued datatype. These are the two values the entry point accepts (server.py:696-698).
- Booking objects are values in the id map, and each facility list holds confirmation ids. Updating a booking through `self.bookings` and seeing it through the facility list is therefore modelled as one map entry. No other aliasing exists in the code.
- Service.Ready: every handler requires the id counter below 2^31 and, where names are decoded, a datagram of at most 65507 bytes (the `recvfrom` bound). Together these keep the lengths and counts the server packs below 2^32, so `struct.pack` never fails on them in a reachable state.
- Service.Valid rules out a booking whose facility is missing. Python would raise KeyError there, but the handlers never create such a booking (`BookSuccessor` … `DispatchSuccessor`).
- The availability that `_handle_monitor_register` computes is not modelled, because it is discarded. The reply is only the boolean and the text.
- There is no generic lemma for decoding an arbitrary sequence of `MessageBuilder` fields. Decoding is proved per field inside arbitrary surrounding bytes (`CodecProperties`), and per request for book, change, extend and cancel.
- ServerProperties.ExtendToKeepsSound: non-overlap is proved only while the start stays before both the current and the target end. Otherwise Extend can leave `end < start` (`ExtendAfterChangeReverses`).
- ServerProperties.ExtendKeepsSound: like `ExtendToKeepsSound`, non-overlap is proved only while the start stays before both the current and the target end.
- Marshalling.PackString: requires a UTF-8 length below 2^32, so the struct.error Python raises for a longer string is not modelled; `StructPack` states when packing one integer fails.
- Marshalling.PackListOfInts: requires fewer than 2^32 elements and takes byte elements, so the struct.error for a longer list or an element outside 0..255 is not modelled.
- Marshalling.MessageBuilder.AddString: carries the precondition of `PackString`.
- Marshalling.MessageBuilder.AddListOfInts: carries the preconditions of `PackListOfInts`.
- client.py and the three test scripts are not part of this model. They are network-driven demonstrations; their request layouts are used only as the byte strings of the `…RequestDecodes` lemmas.
- `TIMEOUT_SECONDS` and `MAX_RETRIES` from protocol.py are client-side and are not transcribed.
