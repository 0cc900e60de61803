/** Message types, error codes and limits shared by client and server. */
module Protocol {
  import opened Bytes

  // Request types
  const QUERY_AVAILABILITY: byte := 1
  const BOOK_FACILITY: byte := 2
  const CHANGE_BOOKING: byte := 3
  const MONITOR_REGISTER: byte := 4
  const EXTEND_BOOKING: byte := 5   // idempotent
  const CANCEL_BOOKING: byte := 6   // non-idempotent

  // Reply types
  const QUERY_RESPONSE: byte := 101
  const BOOK_RESPONSE: byte := 102
  const CHANGE_RESPONSE: byte := 103
  const MONITOR_RESPONSE: byte := 104
  const EXTEND_RESPONSE: byte := 105
  const CANCEL_RESPONSE: byte := 106

  // Special types
  const MONITOR_UPDATE: byte := 200
  const ERROR: byte := 255

  // Error codes
  const FACILITY_NOT_FOUND: byte := 1
  const FACILITY_UNAVAILABLE: byte := 2
  const INVALID_CONFIRMATION_ID: byte := 3
  const INVALID_TIME_RANGE: byte := 4
  const INVALID_REQUEST: byte := 5
  const BOOKING_NOT_FOUND: byte := 6
  const ALREADY_CANCELLED: byte := 7

  /** The largest datagram the server receives (the maximum UDP payload). */
  const MAX_MESSAGE_SIZE: nat := 65507
}
