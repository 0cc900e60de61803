/**
 * What the codec promises: every `unpack_*` reads back what the matching
 * `pack_*` wrote, wherever in a datagram it sits, and advances the cursor by
 * exactly the field's width.
 */
module CodecProperties {
  import opened Wrappers
  import opened Bytes
  import opened Faults
  import Utf8
  import opened Marshalling

  lemma ReadUint8Packed(pre: seq<byte>, v: byte, post: seq<byte>)
    ensures ReadUint8(pre + PackUint8(v) + post, |pre|) == Read(Ok(v), |pre| + 1)
  {
    assert (pre + PackUint8(v) + post)[|pre|] == v;
  }

  lemma ReadUint16Packed(pre: seq<byte>, v: uint16, post: seq<byte>)
    ensures ReadUint16(pre + PackUint16(v) + post, |pre|) == Read(Ok(v), |pre| + 2)
  {
    var d := pre + PackUint16(v) + post;
    assert d[|pre|..|pre| + 2] == PackUint16(v);
  }

  lemma ReadUint32Packed(pre: seq<byte>, v: uint32, post: seq<byte>)
    ensures ReadUint32(pre + PackUint32(v) + post, |pre|) == Read(Ok(v), |pre| + 4)
  {
    var d := pre + PackUint32(v) + post;
    assert d[|pre|..|pre| + 4] == PackUint32(v);
  }

  /** Negative values come back through two's complement. */
  lemma ReadInt32Packed(pre: seq<byte>, v: int32, post: seq<byte>)
    ensures ReadInt32(pre + PackInt32(v) + post, |pre|) == Read(Ok(v), |pre| + 4)
  {
    ReadUint32Packed(pre, if v < 0 then v + TWO_32 else v, post);
  }

  /** The empty string and non-ASCII strings included. */
  lemma ReadStringPacked(pre: seq<byte>, s: string, post: seq<byte>)
    requires |Utf8.Encode(s)| < TWO_32
    ensures ReadString(pre + PackString(s) + post, |pre|) == Read(Ok(s), |pre| + 4 + |Utf8.Encode(s)|)
  {
    var e := Utf8.Encode(s);
    var d := pre + PackString(s) + post;
    assert PackString(s) == PackUint32(|e|) + e;
    assert d == pre + PackUint32(|e|) + (e + post);
    ReadUint32Packed(pre, |e|, e + post);
    assert d[|pre| + 4..|pre| + 4 + |e|] == e;
    Utf8.DecodeEncode(s);
  }

  lemma ReadBoolPacked(pre: seq<byte>, b: bool, post: seq<byte>)
    ensures ReadBool(pre + PackBool(b) + post, |pre|) == Read(Ok(b), |pre| + 1)
  {
    ReadUint8Packed(pre, if b then 1 else 0, post);
  }

  /** Any nonzero byte reads as true, so two different encodings decode to the same boolean. */
  lemma ReadBoolNotInjective()
    ensures ReadBool([2], 0) == ReadBool(PackBool(true), 0) == Read(Ok(true), 1)
    ensures PackBool(true) != [2]
  {}

  lemma ReadTimePacked(pre: seq<byte>, day: byte, hour: byte, minute: byte, post: seq<byte>)
    ensures ReadTime(pre + PackTime(day, hour, minute) + post, |pre|) == Read(Ok((day, hour, minute)), |pre| + 3)
  {
    var d := pre + PackTime(day, hour, minute) + post;
    assert d[|pre|] == day && d[|pre| + 1] == hour && d[|pre| + 2] == minute;
  }

  /** The empty list included. */
  lemma ReadListPacked(pre: seq<byte>, values: seq<byte>, post: seq<byte>)
    requires |values| < TWO_32
    ensures ReadListOfInts(pre + PackListOfInts(values) + post, |pre|) == Read(Ok(values), |pre| + 4 + |values|)
  {
    var d := pre + PackListOfInts(values) + post;
    assert PackListOfInts(values) == PackUint32(|values|) + values;
    assert d == pre + PackUint32(|values|) + (values + post);
    ReadUint32Packed(pre, |values|, values + post);
    assert d[|pre| + 4..|pre| + 4 + |values|] == values;
  }

  /** A fixed-width read with fewer bytes left than its width raises, and the cursor stays put. */
  lemma ShortFixedReadFails(data: seq<byte>, off: nat)
    requires off + 4 > |data|
    ensures ReadUint32(data, off) == Read(Err(StructError), off)
    ensures ReadInt32(data, off) == Read(Err(StructError), off)
    ensures off + 3 > |data| ==> ReadTime(data, off).result == Err(StructError)
  {}

  /**
   * A string whose declared length runs past the end of the data yields the
   * decoded tail, and the cursor ends beyond the data.
   */
  lemma ReadStringTruncated(data: seq<byte>, off: nat)
    requires off + 4 <= |data|
    requires off + 4 + BigEndian(data[off..off + 4]) > |data|
    requires Utf8.Decode(data[off + 4..]).Some?
    ensures ReadString(data, off) == Read(Ok(Utf8.Decode(data[off + 4..]).value), off + 4 + BigEndian(data[off..off + 4]))
    ensures ReadString(data, off).next > |data|
  {
    assert data[off + 4..|data|] == data[off + 4..];
  }
}
