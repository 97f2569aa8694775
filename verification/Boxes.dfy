/**
 ISO base media boxes (section 4.2 of ISO/IEC 14496-12): how `src/fmp4/fragment.rs` appends them,
 and a reader that knows nothing of how they were written.
 */
module Boxes {
  import opened Common

  type Name = n: seq<byte> | |n| == 4 witness [0, 0, 0, 0]

  datatype Box = Box(name: Name, payload: seq<byte>)

  /** One box of 32-bit size off the front, and what follows it. */
  function ReadBox(data: seq<byte>): Option<(Box, seq<byte>)> {
    if |data| < 8 then None
    else
      var size := FromBytes(data[..4]);
      if size < 8 || size > |data| then None
      else Some((Box(data[4..8], data[8..size]), data[size..]))
  }

  /** Boxes that tile `data` exactly. */
  function ReadBoxes(data: seq<byte>): Option<seq<Box>> {
    if data == [] then Some([])
    else
      match ReadBox(data)
      case None => None
      case Some((box, rest)) =>
        match ReadBoxes(rest)
        case None => None
        case Some(boxes) => Some([box] + boxes)
  }

  function BoxBytes(name: Name, payload: seq<byte>): (r: seq<byte>)
    ensures |r| == 8 + |payload|
  {
    ToBytes(8 + |payload|, 4) + name + payload
  }

  lemma {:induction false} ReadWritten(name: Name, payload: seq<byte>, rest: seq<byte>)
    requires 8 + |payload| <= U32_MAX
    ensures ReadBox(BoxBytes(name, payload) + rest) == Some((Box(name, payload), rest))
    ensures ReadBoxes(BoxBytes(name, payload) + rest).Some? <==> ReadBoxes(rest).Some?
    ensures ReadBoxes(rest).Some? ==>
              ReadBoxes(BoxBytes(name, payload) + rest) == Some([Box(name, payload)] + ReadBoxes(rest).value)
  {
    hide FromBytes, ToBytes;
    var size := ToBytes(8 + |payload|, 4);
    var all := BoxBytes(name, payload) + rest;
    Limits();
    BytesRoundTrip(8 + |payload|, 4);
    assert all[..4] == size && all[4..8] == name && all[8..8 + |payload|] == payload && all[8 + |payload|..] == rest;
  }

  lemma {:induction false} ReadWrittenAlone(name: Name, payload: seq<byte>)
    requires 8 + |payload| <= U32_MAX
    ensures ReadBoxes(BoxBytes(name, payload)) == Some([Box(name, payload)])
  {
    hide BoxBytes, ReadBox;
    ReadWritten(name, payload, []);
    assert BoxBytes(name, payload) + [] == BoxBytes(name, payload);
    assert ReadBoxes([]) == Some([]) && [Box(name, payload)] + [] == [Box(name, payload)];
  }

  lemma {:induction false} ReadNone()
    ensures ReadBoxes([]) == Some([])
  {
  }

  lemma {:induction false} ReadBoxesStep(data: seq<byte>)
    requires data != []
    ensures ReadBoxes(data).Some? <==> ReadBox(data).Some? && ReadBoxes(ReadBox(data).value.1).Some?
    ensures ReadBoxes(data).Some? ==>
              ReadBoxes(data) == Some([ReadBox(data).value.0] + ReadBoxes(ReadBox(data).value.1).value)
  {
  }

  lemma {:induction false} ReadBoxAppend(a: seq<byte>, b: seq<byte>)
    requires ReadBox(a).Some?
    ensures ReadBox(a + b) == Some((ReadBox(a).value.0, ReadBox(a).value.1 + b))
    ensures |ReadBox(a).value.1| < |a| && a != []
  {
    hide FromBytes;
    var size := FromBytes(a[..4]);
    assert (a + b)[..4] == a[..4] && (a + b)[4..8] == a[4..8] && (a + b)[8..size] == a[8..size];
    assert (a + b)[size..] == a[size..] + b;
  }

  /** Boxes followed by boxes are all the boxes. */
  lemma {:induction false} ReadAppend(a: seq<byte>, b: seq<byte>)
    requires ReadBoxes(a).Some? && ReadBoxes(b).Some?
    ensures ReadBoxes(a + b) == Some(ReadBoxes(a).value + ReadBoxes(b).value)
    decreases |a|
  {
    hide ReadBox, ReadBoxes;
    ReadNone();
    if a == [] {
      assert a + b == b && [] + ReadBoxes(b).value == ReadBoxes(b).value;
    } else {
      ReadBoxesStep(a);
      ReadBoxAppend(a, b);
      var (box, rest) := ReadBox(a).value;
      ReadAppend(rest, b);
      ReadBoxesStep(a + b);
      var x, y := ReadBoxes(rest).value, ReadBoxes(b).value;
      assert [box] + (x + y) == ([box] + x) + y;
    }
  }

  // ----- The names -----

  const MOOF: Name := [0x6d, 0x6f, 0x6f, 0x66]
  const MFHD: Name := [0x6d, 0x66, 0x68, 0x64]
  const TRAF: Name := [0x74, 0x72, 0x61, 0x66]
  const TFHD: Name := [0x74, 0x66, 0x68, 0x64]
  const TFDT: Name := [0x74, 0x66, 0x64, 0x74]
  const TRUN: Name := [0x74, 0x72, 0x75, 0x6e]
  const MDAT: Name := [0x6d, 0x64, 0x61, 0x74]
  const SENC: Name := [0x73, 0x65, 0x6e, 0x63]
  const SAIZ: Name := [0x73, 0x61, 0x69, 0x7a]
  const SAIO: Name := [0x73, 0x61, 0x69, 0x6f]

  // ----- Writing -----

  /** `write_box_header`: sizes over 32 bits are refused. */
  method WriteBoxHeader(output: seq<byte>, size: nat, name: Name) returns (r: Result<seq<byte>>)
    ensures r.Ok? <==> size <= U32_MAX
    ensures r.Ok? ==> r.value == output + ToBytes(size, 4) + name
  {
    if size > U32_MAX {
      return Err;
    }
    return Ok(output + ToBytes(size, 4) + name);
  }

  /** `write_box` */
  method WriteBox(output: seq<byte>, name: Name, payload: seq<byte>) returns (r: Result<seq<byte>>)
    ensures r.Ok? <==> 8 + |payload| <= U32_MAX
    ensures r.Ok? ==> r.value == output + BoxBytes(name, payload)
  {
    hide ToBytes;
    var header :- WriteBoxHeader(output, 8 + |payload|, name);
    assert output + ToBytes(8 + |payload|, 4) + name + payload == output + (ToBytes(8 + |payload|, 4) + name + payload);
    return Ok(header + payload);
  }

  /** `write_full_box_fields` */
  function FullBoxFields(version: byte, flags: nat): (r: seq<byte>)
    ensures |r| == 4
  {
    [version] + ToBytes(flags, 3)
  }
}
