/**
 * The hand-written wire codec: `Marshaller` (pure packing functions),
 * `Unmarshaller` (a cursor over a received datagram) and `MessageBuilder`
 * (a growing output buffer). Integers are big-endian; strings are a uint32
 * byte count followed by their UTF-8 bytes; lists of small integers are a
 * uint32 count followed by one byte per element.
 */
module Marshalling {
  import opened Wrappers
  import opened Bytes
  import opened Faults
  import Utf8

  /** The unsigned value of a big-endian byte string (the reference meaning of every packed integer). */
  function BigEndian(b: seq<byte>): nat
  {
    if b == [] then 0 else BigEndian(b[..|b| - 1]) * 0x100 + b[|b| - 1]
  }

  // ---------------------------------------------------------------- Marshaller

  function PackUint8(v: byte): (r: seq<byte>)
    ensures |r| == 1 && BigEndian(r) == v
  {
    [v]
  }

  function PackUint16(v: uint16): (r: seq<byte>)
    ensures |r| == 2 && BigEndian(r) == v
  {
    var r := [v / 0x100, v % 0x100];
    BigEndian2(r);
    r
  }

  function PackUint32(v: uint32): (r: seq<byte>)
    ensures |r| == 4 && BigEndian(r) == v
  {
    var r := [v / 0x100_0000, (v / 0x1_0000) % 0x100, (v / 0x100) % 0x100, v % 0x100];
    BigEndian4(r);
    Split32(v);
    r
  }

  /** Two's complement: the packed bytes read back as the value modulo 2^32. */
  function PackInt32(v: int32): (r: seq<byte>)
    ensures |r| == 4 && BigEndian(r) == v % TWO_32
  {
    PackUint32(if v < 0 then v + TWO_32 else v)
  }

  /** The uint32 byte length of the UTF-8 form, then that form. */
  function PackString(s: string): (r: seq<byte>)
    requires |Utf8.Encode(s)| < TWO_32
    ensures |r| == 4 + |Utf8.Encode(s)| && BigEndian(r[..4]) == |Utf8.Encode(s)|
    ensures r[4..] == Utf8.Encode(s)
  {
    var e := Utf8.Encode(s);
    var r := PackUint32(|e|) + e;
    assert r[..4] == PackUint32(|e|);
    r
  }

  function PackBool(b: bool): (r: seq<byte>)
    ensures |r| == 1 && (r[0] == 1) == b && (r[0] == 0) == !b
  {
    PackUint8(if b then 1 else 0)
  }

  function PackTime(day: byte, hour: byte, minute: byte): (r: seq<byte>)
    ensures |r| == 3 && r[0] == day && r[1] == hour && r[2] == minute
  {
    PackUint8(day) + PackUint8(hour) + PackUint8(minute)
  }

  /** The element loop of `pack_list_of_ints`: one byte per value, in order. */
  function PackElems(values: seq<byte>): (r: seq<byte>)
    ensures r == values
  {
    if values == [] then []
    else
      var init := values[..|values| - 1];
      assert values == init + [values[|values| - 1]];
      PackElems(init) + PackUint8(values[|values| - 1])
  }

  function PackListOfInts(values: seq<byte>): (r: seq<byte>)
    requires |values| < TWO_32
    ensures |r| == 4 + |values| && BigEndian(r[..4]) == |values| && r[4..] == values
  {
    var r := PackUint32(|values|) + PackElems(values);
    assert r[..4] == PackUint32(|values|);
    r
  }

  /** The struct formats the codec uses for single integers. */
  datatype StructCode = B | H | I | SignedI

  predicate InRange(fmt: StructCode, v: int)
  {
    match fmt
    case B => 0 <= v < 0x100
    case H => 0 <= v < TWO_16
    case I => 0 <= v < TWO_32
    case SignedI => -TWO_31 <= v < TWO_31
  }

  /** `struct.pack` of one integer: a value its format cannot hold raises struct.error. */
  function StructPack(fmt: StructCode, v: int): (r: Result<seq<byte>, Fault>)
    ensures r.Ok? <==> InRange(fmt, v)
    ensures r.Ok? ==> |r.value| == (match fmt case B => 1 case H => 2 case _ => 4)
  {
    if !InRange(fmt, v) then Err(StructError)
    else match fmt
      case B => Ok(PackUint8(v))
      case H => Ok(PackUint16(v))
      case I => Ok(PackUint32(v))
      case SignedI => Ok(PackInt32(v))
  }

  /** The unsigned value of two and of four octets, most significant first. */
  function Word16(b0: byte, b1: byte): uint16 { b0 as int * 0x100 + b1 as int }
  function Word32(b0: byte, b1: byte, b2: byte, b3: byte): uint32
  {
    b0 as int * 0x100_0000 + b1 as int * 0x1_0000 + b2 as int * 0x100 + b3 as int
  }

  lemma BigEndian2(r: seq<byte>)
    requires |r| == 2
    ensures BigEndian(r) == Word16(r[0], r[1])
  {
    assert BigEndian(r[..1]) == r[0] by {
      assert r[..1][..0] == [];
    }
  }

  lemma BigEndian4(r: seq<byte>)
    requires |r| == 4
    ensures BigEndian(r) == Word32(r[0], r[1], r[2], r[3])
  {
    BigEndian2(r[..2]);
    assert r[..3][..2] == r[..2];
    assert BigEndian(r[..3]) == Word16(r[0], r[1]) * 0x100 + r[2];
  }

  lemma Split32(v: uint32)
    ensures (v / 0x100_0000) * 0x100_0000 + ((v / 0x1_0000) % 0x100) * 0x1_0000
            + ((v / 0x100) % 0x100) * 0x100 + v % 0x100 == v
  {
    var a := v / 0x100;
    var b := a / 0x100;
    assert v == a * 0x100 + v % 0x100;
    assert a == b * 0x100 + a % 0x100;
    assert b == (b / 0x100) * 0x100 + b % 0x100;
    assert v / 0x1_0000 == b;
    assert v / 0x100_0000 == b / 0x100;
  }

  // -------------------------------------------------------------- Unmarshaller

  /** What one `unpack_*` call does: its value or exception, and where the cursor is afterwards. */
  datatype Read<+T> = Read(result: Result<T, Fault>, next: nat)

  function ReadUint8(data: seq<byte>, off: nat): (r: Read<byte>)
    ensures r.result.Ok? <==> off + 1 <= |data|
    ensures r.result.Ok? ==> r.next == off + 1 && r.result.value == data[off]
    ensures r.result.Err? ==> r.next == off && r.result.error == StructError
  {
    if off + 1 <= |data| then Read(Ok(data[off]), off + 1) else Read(Err(StructError), off)
  }

  function ReadUint16(data: seq<byte>, off: nat): (r: Read<uint16>)
    ensures r.result.Ok? <==> off + 2 <= |data|
    ensures r.result.Ok? ==> r.next == off + 2 && r.result.value == BigEndian(data[off..off + 2])
    ensures r.result.Err? ==> r.next == off && r.result.error == StructError
  {
    if off + 2 <= |data| then
      BigEndian2(data[off..off + 2]);
      Read(Ok(Word16(data[off], data[off + 1])), off + 2)
    else Read(Err(StructError), off)
  }

  function ReadUint32(data: seq<byte>, off: nat): (r: Read<uint32>)
    ensures r.result.Ok? <==> off + 4 <= |data|
    ensures r.result.Ok? ==> r.next == off + 4 && r.result.value == BigEndian(data[off..off + 4])
    ensures r.result.Err? ==> r.next == off && r.result.error == StructError
  {
    if off + 4 <= |data| then
      BigEndian4(data[off..off + 4]);
      Read(Ok(Word32(data[off], data[off + 1], data[off + 2], data[off + 3])), off + 4)
    else Read(Err(StructError), off)
  }

  /** The signed reading of the same four bytes (two's complement). */
  function ReadInt32(data: seq<byte>, off: nat): (r: Read<int32>)
    ensures r.result.Ok? <==> off + 4 <= |data|
    ensures r.result.Ok? ==> r.next == off + 4 && r.result.value % TWO_32 == BigEndian(data[off..off + 4])
    ensures r.result.Err? ==> r.next == off && r.result.error == StructError
  {
    var u := ReadUint32(data, off);
    match u.result
    case Err(e) => Read(Err(e), u.next)
    case Ok(v) => Read(Ok(if v >= TWO_31 then v - TWO_32 else v), u.next)
  }

  /**
   * `unpack_string`: the declared byte count, then the slice after it. Python
   * slicing stops at the end of the data, so a count past the end decodes the
   * tail and still moves the cursor by the full count, beyond the data.
   */
  function ReadString(data: seq<byte>, off: nat): (r: Read<string>)
    ensures off + 4 > |data| ==> r.result == Err(StructError) && r.next == off
    ensures off + 4 <= |data| ==>
      var n := BigEndian(data[off..off + 4]);
      var body := data[off + 4..if off + 4 + n <= |data| then off + 4 + n else |data|];
      (r.result.Ok? <==> Utf8.Decode(body).Some?) &&
      (r.result.Ok? ==> r.result.value == Utf8.Decode(body).value && r.next == off + 4 + n) &&
      (r.result.Err? ==> r.result.error == UnicodeDecodeError && r.next == off + 4)
  {
    var len := ReadUint32(data, off);
    match len.result
    case Err(e) => Read(Err(e), len.next)
    case Ok(n) =>
      var start := len.next;
      var stop := if start + n <= |data| then start + n else |data|;
      match Utf8.Decode(data[start..stop])
      case None => Read(Err(UnicodeDecodeError), start)
      case Some(s) => Read(Ok(s), start + n)
  }

  function ReadBool(data: seq<byte>, off: nat): (r: Read<bool>)
    ensures r.result.Ok? <==> off < |data|
    ensures r.result.Ok? ==> r.next == off + 1 && (r.result.value <==> data[off] != 0)
    ensures r.result.Err? ==> r.next == off && r.result.error == StructError
  {
    var b := ReadUint8(data, off);
    match b.result
    case Err(e) => Read(Err(e), b.next)
    case Ok(v) => Read(Ok(v != 0), b.next)
  }

  function ReadTime(data: seq<byte>, off: nat): (r: Read<(byte, byte, byte)>)
    ensures r.result.Ok? <==> off + 3 <= |data|
    ensures r.result.Ok? ==> r.next == off + 3 && r.result.value == (data[off], data[off + 1], data[off + 2])
    ensures r.result.Err? ==> r.result.error == StructError && r.next == (if off < |data| then |data| else off)
  {
    var d := ReadUint8(data, off);
    var h := ReadUint8(data, d.next);
    var m := ReadUint8(data, h.next);
    if d.result.Err? then Read(Err(StructError), d.next)
    else if h.result.Err? then Read(Err(StructError), h.next)
    else if m.result.Err? then Read(Err(StructError), m.next)
    else Read(Ok((d.result.value, h.result.value, m.result.value)), m.next)
  }

  /**
   * `unpack_list_of_ints`: the count, then that many bytes. When the bytes run
   * out the element loop has consumed everything up to the end of the data.
   */
  function ReadListOfInts(data: seq<byte>, off: nat): (r: Read<seq<byte>>)
    ensures r.result.Ok? <==> off + 4 <= |data| && off + 4 + BigEndian(data[off..off + 4]) <= |data|
    ensures r.result.Ok? ==> r.next == off + 4 + |r.result.value| <= |data| && r.result.value == data[off + 4..r.next]
    ensures r.result.Err? ==> r.result.error == StructError && r.next == (if off + 4 <= |data| then |data| else off)
  {
    var count := ReadUint32(data, off);
    match count.result
    case Err(e) => Read(Err(e), count.next)
    case Ok(n) =>
      var start := count.next;
      if start + n <= |data| then Read(Ok(data[start..start + n]), start + n)
      else Read(Err(StructError), |data|)
  }

  class Unmarshaller {
    const data: seq<byte>
    var offset: nat

    constructor (data: seq<byte>)
      ensures this.data == data && offset == 0
    {
      this.data := data;
      offset := 0;
    }

    method UnpackUint8() returns (r: Result<byte, Fault>)
      modifies this
      ensures Read(r, offset) == ReadUint8(data, old(offset))
    {
      if offset + 1 <= |data| {
        r := Ok(data[offset]);
        offset := offset + 1;
      } else {
        r := Err(StructError);
      }
    }

    method UnpackUint16() returns (r: Result<uint16, Fault>)
      modifies this
      ensures Read(r, offset) == ReadUint16(data, old(offset))
    {
      if offset + 2 <= |data| {
        r := Ok(Word16(data[offset], data[offset + 1]));
        offset := offset + 2;
      } else {
        r := Err(StructError);
      }
    }

    method UnpackUint32() returns (r: Result<uint32, Fault>)
      modifies this
      ensures Read(r, offset) == ReadUint32(data, old(offset))
    {
      if offset + 4 <= |data| {
        r := Ok(Word32(data[offset], data[offset + 1], data[offset + 2], data[offset + 3]));
        offset := offset + 4;
      } else {
        r := Err(StructError);
      }
    }

    method UnpackInt32() returns (r: Result<int32, Fault>)
      modifies this
      ensures Read(r, offset) == ReadInt32(data, old(offset))
    {
      var u := UnpackUint32();
      match u
      case Err(e) => r := Err(e);
      case Ok(v) => r := Ok(if v >= TWO_31 then v - TWO_32 else v);
    }

    method UnpackString() returns (r: Result<string, Fault>)
      modifies this
      ensures Read(r, offset) == ReadString(data, old(offset))
    {
      var len := UnpackUint32();
      match len
      case Err(e) => r := Err(e);
      case Ok(n) =>
        var stop := if offset + n <= |data| then offset + n else |data|;
        match Utf8.Decode(data[offset..stop])
        case None => r := Err(UnicodeDecodeError);
        case Some(s) =>
          r := Ok(s);
          offset := offset + n;
    }

    method UnpackBool() returns (r: Result<bool, Fault>)
      modifies this
      ensures Read(r, offset) == ReadBool(data, old(offset))
    {
      var v := UnpackUint8();
      match v
      case Err(e) => r := Err(e);
      case Ok(b) => r := Ok(b != 0);
    }

    method UnpackTime() returns (r: Result<(byte, byte, byte), Fault>)
      modifies this
      ensures Read(r, offset) == ReadTime(data, old(offset))
    {
      var d := UnpackUint8();
      if d.Err? { return Err(d.error); }
      var h := UnpackUint8();
      if h.Err? { return Err(h.error); }
      var m := UnpackUint8();
      if m.Err? { return Err(m.error); }
      r := Ok((d.value, h.value, m.value));
    }

    method UnpackListOfInts() returns (r: Result<seq<byte>, Fault>)
      modifies this
      ensures Read(r, offset) == ReadListOfInts(data, old(offset))
    {
      var count := UnpackUint32();
      if count.Err? { return Err(count.error); }
      var values: seq<byte> := [];
      var i := 0;
      ghost var start := offset;
      while i < count.value
        invariant 0 <= i <= count.value
        invariant start + i <= |data|
        invariant offset == start + i
        invariant values == data[start..start + i]
      {
        var v := UnpackUint8();
        if v.Err? { return Err(v.error); }
        values := values + [v.value];
        i := i + 1;
      }
      r := Ok(values);
    }

    method HasData() returns (r: bool)
      ensures r <==> offset < |data|
    {
      r := offset < |data|;
    }
  }

  // ------------------------------------------------------------ MessageBuilder

  class MessageBuilder {
    var buffer: seq<byte>

    constructor ()
      ensures buffer == []
    {
      buffer := [];
    }

    method AddUint8(v: byte)
      modifies this
      ensures buffer == old(buffer) + PackUint8(v)
    {
      buffer := buffer + PackUint8(v);
    }

    method AddUint16(v: uint16)
      modifies this
      ensures buffer == old(buffer) + PackUint16(v)
    {
      buffer := buffer + PackUint16(v);
    }

    method AddUint32(v: uint32)
      modifies this
      ensures buffer == old(buffer) + PackUint32(v)
    {
      buffer := buffer + PackUint32(v);
    }

    method AddInt32(v: int32)
      modifies this
      ensures buffer == old(buffer) + PackInt32(v)
    {
      buffer := buffer + PackInt32(v);
    }

    method AddString(s: string)
      requires |Utf8.Encode(s)| < TWO_32
      modifies this
      ensures buffer == old(buffer) + PackString(s)
    {
      buffer := buffer + PackString(s);
    }

    method AddBool(b: bool)
      modifies this
      ensures buffer == old(buffer) + PackBool(b)
    {
      buffer := buffer + PackBool(b);
    }

    method AddTime(day: byte, hour: byte, minute: byte)
      modifies this
      ensures buffer == old(buffer) + PackTime(day, hour, minute)
    {
      buffer := buffer + PackTime(day, hour, minute);
    }

    method AddListOfInts(values: seq<byte>)
      requires |values| < TWO_32
      modifies this
      ensures buffer == old(buffer) + PackListOfInts(values)
    {
      buffer := buffer + PackListOfInts(values);
    }

    method Build() returns (r: seq<byte>)
      ensures r == buffer
    {
      r := buffer;
    }
  }
}
