/** The Python exceptions that the request handlers can raise and the dispatcher catches. */
module Faults {
  import Text

  datatype Fault =
    | StructError         // `struct.unpack_from` past the end of the datagram
    | UnicodeDecodeError  // a string field whose bytes are not well-formed UTF-8
    | IndexError          // `TimeSlot.__str__` on a day outside 0..6

  /** The text `str(e)` that the dispatcher puts into its INVALID_REQUEST reply. */
  function Message(f: Fault): string
  {
    match f
    case StructError => Text.Phrase("unpack_from requires a larger buffer")
    case UnicodeDecodeError => Text.Phrase("'utf-8' codec can't decode bytes")
    case IndexError => Text.Phrase("list index out of range")
  }
}
