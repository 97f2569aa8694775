/**
 Media fragments (src/fmp4/fragment.rs): `moof` and `mdat` headers whose data offsets point at the
 samples, found by building the `moof` twice; and a reader that follows sections 8.8.4 to 8.8.12 of
 ISO/IEC 14496-12.
 */
module Fragment {
  import opened Common
  import opened Ranges
  import opened Boxes
  import opened Samples

  const TRUN_FLAGS := 0x0000_0f01
  const TFHD_DEFAULT_BASE_IS_MOOF := 0x0002_0000
  const SYNC_SAMPLE_FLAGS: nat := 0x0200_0000
  const NON_SYNC_SAMPLE_FLAGS: nat := 0x0101_0000

  datatype TrackKind = Video | Audio

  /** One track's samples in a fragment. */
  datatype Part = Part(trackId: u32, kind: TrackKind, samples: seq<Sample>, decodeTime: nat) {
    /** The widths the source's own types give these numbers. */
    ghost predicate Typed() {
      decodeTime <= U64_MAX && forall i :: 0 <= i < |samples| ==> OnWire(samples[i])
    }

    function Payload(): nat {
      ListBytes(samples)
    }
  }

  predicate OnWire(s: Sample) {
    s.duration <= U32_MAX && s.size <= U32_MAX && -0x8000_0000 <= s.compositionOffset < 0x8000_0000
  }

  // ----- The layout -----

  function Twos(x: int): nat
    requires -0x8000_0000 <= x
  {
    if x < 0 then x + 0x1_0000_0000 else x
  }

  function Signed(n: nat): int {
    if n >= 0x8000_0000 then n - 0x1_0000_0000 else n
  }

  function FlagsOf(kind: TrackKind, s: Sample): nat {
    if kind.Video? && !s.isSync then NON_SYNC_SAMPLE_FLAGS else SYNC_SAMPLE_FLAGS
  }

  function EntryBytes(kind: TrackKind, s: Sample): (r: seq<byte>)
    ensures |r| == 16
  {
    ToBytes(s.duration, 4) + ToBytes(s.size, 4) + ToBytes(FlagsOf(kind, s), 4)
    + ToBytes(if s.compositionOffset < -0x8000_0000 then 0 else Twos(s.compositionOffset), 4)
  }

  function SampleEntries(kind: TrackKind, samples: seq<Sample>): (r: seq<byte>)
    ensures |r| == 16 * |samples|
  {
    if samples == [] then []
    else SampleEntries(kind, samples[..|samples| - 1]) + EntryBytes(kind, samples[|samples| - 1])
  }

  function TfhdPayload(p: Part): (r: seq<byte>)
    ensures |r| == 8
  {
    FullBoxFields(0, TFHD_DEFAULT_BASE_IS_MOOF) + ToBytes(p.trackId, 4)
  }

  function TfdtPayload(p: Part): (r: seq<byte>)
    ensures |r| == 12
  {
    FullBoxFields(1, 0) + ToBytes(p.decodeTime, 8)
  }

  function TrunPayload(p: Part, dataOffset: nat): (r: seq<byte>)
    ensures |r| == 12 + 16 * |p.samples|
  {
    FullBoxFields(1, TRUN_FLAGS) + ToBytes(|p.samples|, 4) + ToBytes(dataOffset, 4) + SampleEntries(p.kind, p.samples)
  }

  function TrafPayload(p: Part, dataOffset: nat, extra: seq<byte>): (r: seq<byte>)
    ensures |r| == 56 + 16 * |p.samples| + |extra|
  {
    BoxBytes(TFHD, TfhdPayload(p)) + (BoxBytes(TFDT, TfdtPayload(p)) + (BoxBytes(TRUN, TrunPayload(p, dataOffset)) + extra))
  }

  /** The `traf` of every part, each with its data offset. */
  function Trafs(parts: seq<Part>, offsets: seq<nat>, extra: seq<byte>): seq<byte>
    requires |offsets| == |parts|
  {
    if parts == [] then []
    else
      var n := |parts| - 1;
      Trafs(parts[..n], offsets[..n], extra) + BoxBytes(TRAF, TrafPayload(parts[n], offsets[n], extra))
  }

  function MfhdPayload(sequence: u32): seq<byte> {
    FullBoxFields(0, 0) + ToBytes(sequence, 4)
  }

  function MoofPayload(sequence: u32, moofExtra: seq<byte>, parts: seq<Part>, offsets: seq<nat>, extra: seq<byte>): seq<byte>
    requires |offsets| == |parts|
  {
    BoxBytes(MFHD, MfhdPayload(sequence)) + (moofExtra + Trafs(parts, offsets, extra))
  }

  function TrafsLength(parts: seq<Part>, extra: nat): nat {
    if parts == [] then 0
    else TrafsLength(parts[..|parts| - 1], extra) + 64 + 16 * |parts[|parts| - 1].samples| + extra
  }

  /** The length of a `moof`, whatever offsets it holds. */
  function MoofLength(moofExtra: nat, parts: seq<Part>, extra: nat): nat {
    24 + moofExtra + TrafsLength(parts, extra)
  }

  lemma {:induction false} TrafsAreFixed(parts: seq<Part>, offsets: seq<nat>, extra: seq<byte>)
    requires |offsets| == |parts|
    ensures |Trafs(parts, offsets, extra)| == TrafsLength(parts, |extra|)
  {
    if parts != [] {
      TrafsAreFixed(parts[..|parts| - 1], offsets[..|parts| - 1], extra);
    }
  }

  /** The probe's length is the final length: it does not depend on the offsets filled in. */
  lemma {:induction false} MoofIsFixed(sequence: u32, moofExtra: seq<byte>, parts: seq<Part>, offsets: seq<nat>, extra: seq<byte>)
    requires |offsets| == |parts|
    ensures |BoxBytes(MOOF, MoofPayload(sequence, moofExtra, parts, offsets, extra))| == MoofLength(|moofExtra|, parts, |extra|)
  {
    TrafsAreFixed(parts, offsets, extra);
  }

  // ----- The writers -----

  /** `build_traf`: refused only when a box would need a 64-bit size. */
  method BuildTraf(p: Part, dataOffset: nat, extra: seq<byte>) returns (r: Result<seq<byte>>)
    requires p.Typed() && dataOffset <= 0x7FFF_FFFF
    ensures r.Ok? <==> 8 + |TrafPayload(p, dataOffset, extra)| <= U32_MAX
    ensures r.Ok? ==> r.value == BoxBytes(TRAF, TrafPayload(p, dataOffset, extra))
  {
    hide ToBytes, BoxBytes, FullBoxFields, EntryBytes;
    var tfhd := FullBoxFields(0, TFHD_DEFAULT_BASE_IS_MOOF) + ToBytes(p.trackId, 4);
    var tfdt := FullBoxFields(1, 0) + ToBytes(p.decodeTime, 8);
    if |p.samples| > U32_MAX {
      return Err;
    }
    var trun := FullBoxFields(1, TRUN_FLAGS) + ToBytes(|p.samples|, 4) + ToBytes(dataOffset, 4);
    ghost var start := trun;
    assert p.samples[..|p.samples|] == p.samples && start + [] == start;
    for i := 0 to |p.samples|
      invariant trun == start + SampleEntries(p.kind, p.samples[..i])
    {
      assert p.samples[..i + 1][..i] == p.samples[..i];
      var entries := SampleEntries(p.kind, p.samples[..i]);
      var entry := EntryBytes(p.kind, p.samples[i]);
      assert start + (entries + entry) == (start + entries) + entry;
      trun := trun + entry;
    }
    // The first two boxes are of fixed size, so only `trun` can be too large.
    var fixed := WriteBox([], TFHD, tfhd);
    fixed := WriteBox(fixed.value, TFDT, tfdt);
    var payload :- WriteBox(fixed.value, TRUN, trun);
    payload := payload + extra;
    Regroup(BoxBytes(TFHD, tfhd), BoxBytes(TFDT, tfdt), BoxBytes(TRUN, trun), extra);
    assert payload == TrafPayload(p, dataOffset, extra);
    r := WriteBox([], TRAF, payload);
    if r.Ok? {
      assert [] + BoxBytes(TRAF, payload) == BoxBytes(TRAF, payload);
    }
  }

  /** `moof_of` over the `traf`s of all the parts. */
  method BuildMoof(sequence: u32, moofExtra: seq<byte>, parts: seq<Part>, offsets: seq<nat>, extra: seq<byte>)
    returns (r: Result<seq<byte>>)
    requires |offsets| == |parts| && forall i :: 0 <= i < |parts| ==> parts[i].Typed()
    requires forall i :: 0 <= i < |offsets| ==> offsets[i] <= 0x7FFF_FFFF
    ensures r.Ok? <==> MoofLength(|moofExtra|, parts, |extra|) <= U32_MAX
    ensures r.Ok? ==> r.value == BoxBytes(MOOF, MoofPayload(sequence, moofExtra, parts, offsets, extra))
  {
    hide ToBytes, BoxBytes, FullBoxFields, TrafPayload;
    var trafs: seq<byte> := [];
    assert parts[..|parts|] == parts && offsets[..|parts|] == offsets;
    for i := 0 to |parts|
      invariant trafs == Trafs(parts[..i], offsets[..i], extra)
    {
      assert parts[..i + 1][..i] == parts[..i] && offsets[..i + 1][..i] == offsets[..i];
      TrafsAreFixed(parts[..i + 1], offsets[..i + 1], extra);
      TrafsGrow(parts, i + 1, |extra|);
      var traf :- BuildTraf(parts[i], offsets[i], extra);
      trafs := trafs + traf;
    }
    MoofIsFixed(sequence, moofExtra, parts, offsets, extra);
    var mfhd := WriteBox([], MFHD, MfhdPayload(sequence));
    var payload := mfhd.value + moofExtra + trafs;
    assert payload == MoofPayload(sequence, moofExtra, parts, offsets, extra);
    r := WriteBox([], MOOF, payload);
    if r.Ok? {
      assert [] + BoxBytes(MOOF, payload) == BoxBytes(MOOF, payload);
    }
  }

  lemma {:induction false} TrafsGrow(parts: seq<Part>, i: nat, extra: nat)
    requires i <= |parts|
    ensures TrafsLength(parts[..i], extra) <= TrafsLength(parts, extra)
    decreases |parts|
  {
    if i < |parts| {
      TrafsGrow(parts[..|parts| - 1], i, extra);
      assert parts[..|parts| - 1][..i] == parts[..i];
    } else {
      assert parts[..i] == parts;
    }
  }

  // ----- The reader -----

  /** With what its flags say (section 8.8.3.1): whether others are needed to decode it, and whether it is no sync sample. */
  datatype TrunEntry = TrunEntry(duration: nat, size: nat, dependsOn: nat, nonSync: bool, compositionOffset: int)

  /** What a `traf` says of one track, and the boxes after its `trun`. */
  datatype TrackRun = TrackRun(trackId: nat, decodeTime: nat, dataOffset: int, entries: seq<TrunEntry>, extra: seq<Box>)

  function ReadEntry(data: seq<byte>): TrunEntry
    requires |data| == 16
  {
    var flags := FromBytes(data[8..12]);
    TrunEntry(FromBytes(data[..4]), FromBytes(data[4..8]), flags / 0x100_0000 % 4, flags / 0x1_0000 % 2 == 1,
              Signed(FromBytes(data[12..])))
  }

  function ReadEntries(data: seq<byte>): seq<TrunEntry> {
    if |data| < 16 then []
    else ReadEntries(data[..|data| - 16]) + [ReadEntry(data[|data| - 16..])]
  }

  /** Version 1; a data offset, and for each sample a duration, a size, flags and a composition offset. */
  function ReadTrun(data: seq<byte>): Option<(int, seq<TrunEntry>)> {
    if |data| < 12 || data[..4] != [1, 0x00, 0x0f, 0x01] || |data| != 12 + 16 * FromBytes(data[4..8]) then None
    else Some((Signed(FromBytes(data[8..12])), ReadEntries(data[12..])))
  }

  /** Only that offsets are from the start of the `moof`. */
  function ReadTfhd(data: seq<byte>): Option<nat> {
    if |data| != 8 || data[..4] != [0, 0x02, 0x00, 0x00] then None
    else Some(FromBytes(data[4..]))
  }

  function ReadTfdt(data: seq<byte>): Option<nat> {
    if |data| != 12 || data[..4] != [1, 0, 0, 0] then None else Some(FromBytes(data[4..]))
  }

  function ReadTraf(data: seq<byte>): Option<TrackRun> {
    match ReadBoxes(data)
    case None => None
    case Some(boxes) =>
      if |boxes| < 3 || boxes[0].name != TFHD || boxes[1].name != TFDT || boxes[2].name != TRUN then None
      else
        var (id, time, run) := (ReadTfhd(boxes[0].payload), ReadTfdt(boxes[1].payload), ReadTrun(boxes[2].payload));
        if id.None? || time.None? || run.None? then None
        else Some(TrackRun(id.value, time.value, run.value.0, run.value.1, boxes[3..]))
  }

  /** The `traf` boxes among others, in order. */
  function ReadTrafs(boxes: seq<Box>): Option<seq<TrackRun>> {
    if boxes == [] then Some([])
    else
      var last := boxes[|boxes| - 1];
      match ReadTrafs(boxes[..|boxes| - 1])
      case None => None
      case Some(before) =>
        if last.name != TRAF then Some(before)
        else
          match ReadTraf(last.payload)
          case None => None
          case Some(run) => Some(before + [run])
  }

  function ReadMoof(data: seq<byte>): Option<(nat, seq<TrackRun>)> {
    match ReadBoxes(data)
    case None => None
    case Some(boxes) =>
      if boxes == [] || boxes[0].name != MFHD || |boxes[0].payload| != 8 || boxes[0].payload[..4] != [0, 0, 0, 0] then None
      else
        match ReadTrafs(boxes[1..])
        case None => None
        case Some(runs) => Some((FromBytes(boxes[0].payload[4..]), runs))
  }

  // ----- Reading back -----

  /** Video samples that are not sync samples depend on others (1); all other samples do not (2). */
  function EntryOf(kind: TrackKind, s: Sample): TrunEntry {
    var nonSync := kind.Video? && !s.isSync;
    TrunEntry(s.duration, s.size, if nonSync then 1 else 2, nonSync, s.compositionOffset)
  }

  function EntriesOf(kind: TrackKind, samples: seq<Sample>): (r: seq<TrunEntry>)
    ensures |r| == |samples|
  {
    if samples == [] then []
    else EntriesOf(kind, samples[..|samples| - 1]) + [EntryOf(kind, samples[|samples| - 1])]
  }

  function TrackRunOf(p: Part, dataOffset: nat, extra: seq<Box>): TrackRun {
    TrackRun(p.trackId, p.decodeTime, dataOffset, EntriesOf(p.kind, p.samples), extra)
  }

  lemma {:induction false} FourFields(a: seq<byte>, b: seq<byte>, c: seq<byte>, d: seq<byte>)
    requires |a| == |b| == |c| == 4
    ensures var all := a + b + c + d;
            all[..4] == a && all[4..8] == b && all[8..12] == c && all[12..] == d
  {
  }

  lemma {:induction false} EntryReads(kind: TrackKind, s: Sample)
    requires OnWire(s)
    ensures ReadEntry(EntryBytes(kind, s)) == EntryOf(kind, s)
  {
    hide ToBytes, FromBytes;
    Limits();
    var flags, offset := FlagsOf(kind, s), Twos(s.compositionOffset);
    FourFields(ToBytes(s.duration, 4), ToBytes(s.size, 4), ToBytes(flags, 4), ToBytes(offset, 4));
    BytesRoundTrip(s.duration, 4);
    BytesRoundTrip(s.size, 4);
    BytesRoundTrip(flags, 4);
    BytesRoundTrip(offset, 4);
  }

  lemma {:induction false} EntriesRead(kind: TrackKind, samples: seq<Sample>)
    requires forall i :: 0 <= i < |samples| ==> OnWire(samples[i])
    ensures ReadEntries(SampleEntries(kind, samples)) == EntriesOf(kind, samples)
  {
    hide ReadEntry, EntryBytes, OnWire, EntryOf;
    if samples != [] {
      var init, last := samples[..|samples| - 1], samples[|samples| - 1];
      EntriesRead(kind, init);
      EntryReads(kind, last);
      var all := SampleEntries(kind, samples);
      assert all[..|all| - 16] == SampleEntries(kind, init) && all[|all| - 16..] == EntryBytes(kind, last);
    }
  }

  lemma {:induction false} FieldBytes()
    ensures FullBoxFields(1, TRUN_FLAGS) == [1, 0x00, 0x0f, 0x01] && FullBoxFields(1, 0) == [1, 0, 0, 0]
    ensures FullBoxFields(0, 0) == [0, 0, 0, 0]
    ensures FullBoxFields(0, TFHD_DEFAULT_BASE_IS_MOOF) == [0, 0x02, 0x00, 0x00]
  {
    ThreeBytes(TRUN_FLAGS);
    ThreeBytes(TFHD_DEFAULT_BASE_IS_MOOF);
    ThreeBytes(0);
  }

  lemma {:induction false} ThreeBytes(n: nat)
    ensures ToBytes(n, 3) == [n / 0x1_0000 % 0x100, n / 0x100 % 0x100, n % 0x100]
  {
    assert ToBytes(n / 0x100_0000, 0) == [];
    assert ToBytes(n / 0x1_0000, 1) == [n / 0x1_0000 % 0x100];
    assert ToBytes(n / 0x100, 2) == [n / 0x1_0000 % 0x100, n / 0x100 % 0x100];
  }

  lemma {:induction false} TrunReads(p: Part, dataOffset: nat)
    requires p.Typed() && dataOffset <= 0x7FFF_FFFF && |p.samples| <= U32_MAX
    ensures ReadTrun(TrunPayload(p, dataOffset)) == Some((dataOffset, EntriesOf(p.kind, p.samples)))
  {
    hide ToBytes, FromBytes, FullBoxFields, SampleEntries, ReadEntries, OnWire;
    Limits();
    FieldBytes();
    FourFields(FullBoxFields(1, TRUN_FLAGS), ToBytes(|p.samples|, 4), ToBytes(dataOffset, 4), SampleEntries(p.kind, p.samples));
    BytesRoundTrip(|p.samples|, 4);
    BytesRoundTrip(dataOffset, 4);
    EntriesRead(p.kind, p.samples);
  }

  lemma {:induction false} HeadersRead(p: Part)
    requires p.decodeTime <= U64_MAX
    ensures ReadTfhd(TfhdPayload(p)) == Some(p.trackId) && ReadTfdt(TfdtPayload(p)) == Some(p.decodeTime)
  {
    hide ToBytes, FromBytes, FullBoxFields;
    FieldBytes();
    Limits();
    BytesRoundTrip(p.trackId, 4);
    BytesRoundTrip(p.decodeTime, 8);
    assert TfhdPayload(p)[4..] == ToBytes(p.trackId, 4) && TfdtPayload(p)[4..] == ToBytes(p.decodeTime, 8);
  }

  lemma {:induction false} TrafReads(p: Part, dataOffset: nat, extra: seq<byte>)
    requires p.Typed() && dataOffset <= 0x7FFF_FFFF && ReadBoxes(extra).Some?
    requires |TrafPayload(p, dataOffset, extra)| <= U32_MAX
    ensures ReadTraf(TrafPayload(p, dataOffset, extra)) == Some(TrackRunOf(p, dataOffset, ReadBoxes(extra).value))
  {
    hide ReadBoxes, BoxBytes, TrunPayload, TfhdPayload, TfdtPayload, ReadTrun, ReadTfhd, ReadTfdt, OnWire;
    var trun := BoxBytes(TRUN, TrunPayload(p, dataOffset)) + extra;
    ReadWritten(TRUN, TrunPayload(p, dataOffset), extra);
    ReadWritten(TFDT, TfdtPayload(p), trun);
    ReadWritten(TFHD, TfhdPayload(p), BoxBytes(TFDT, TfdtPayload(p)) + trun);
    TrunReads(p, dataOffset);
    HeadersRead(p);
    var x := ReadBoxes(extra).value;
    var boxes := [Box(TFHD, TfhdPayload(p))] + ([Box(TFDT, TfdtPayload(p))] + ([Box(TRUN, TrunPayload(p, dataOffset))] + x));
    assert boxes[3..] == x;
  }

  function TrackRuns(parts: seq<Part>, offsets: seq<nat>, extra: seq<Box>): (r: seq<TrackRun>)
    requires |offsets| == |parts|
    ensures |r| == |parts|
  {
    seq(|parts|, i requires 0 <= i < |parts| => TrackRunOf(parts[i], offsets[i], extra))
  }

  ghost predicate PartsOk(parts: seq<Part>, offsets: seq<nat>) {
    && |offsets| == |parts|
    && (forall i :: 0 <= i < |parts| ==> parts[i].Typed())
    && (forall i :: 0 <= i < |offsets| ==> offsets[i] <= 0x7FFF_FFFF)
  }

  /** Boxes beside the `traf`s, such as `pssh`, are none themselves. */
  ghost predicate Beside(moofExtra: seq<byte>) {
    ReadBoxes(moofExtra).Some? && forall b :: b in ReadBoxes(moofExtra).value ==> b.name != TRAF
  }

  lemma {:induction false} NoTrafs(boxes: seq<Box>)
    requires forall b :: b in boxes ==> b.name != TRAF
    ensures ReadTrafs(boxes) == Some([])
  {
    if boxes != [] {
      NoTrafs(boxes[..|boxes| - 1]);
    }
  }

  lemma {:induction false} ReadTrafsPush(boxes: seq<Box>, payload: seq<byte>)
    requires ReadTrafs(boxes).Some? && ReadTraf(payload).Some?
    ensures ReadTrafs(boxes + [Box(TRAF, payload)]) == Some(ReadTrafs(boxes).value + [ReadTraf(payload).value])
  {
    hide ReadTraf;
    assert (boxes + [Box(TRAF, payload)])[..|boxes|] == boxes;
  }

  lemma {:induction false} TrafsRead(before: seq<Box>, parts: seq<Part>, offsets: seq<nat>, extra: seq<byte>)
    requires PartsOk(parts, offsets) && ReadBoxes(extra).Some?
    requires TrafsLength(parts, |extra|) <= U32_MAX && ReadTrafs(before) == Some([])
    ensures ReadBoxes(Trafs(parts, offsets, extra)).Some?
    ensures ReadTrafs(before + ReadBoxes(Trafs(parts, offsets, extra)).value)
            == Some(TrackRuns(parts, offsets, ReadBoxes(extra).value))
    decreases |parts|
  {
    hide BoxBytes, TrafPayload, ReadTraf, ReadBoxes, ReadTrafs, TrackRunOf, Part.Typed;
    if parts == [] {
      ReadNone();
      assert before + [] == before;
    } else {
      var n := |parts| - 1;
      TrafsRead(before, parts[..n], offsets[..n], extra);
      var front := Trafs(parts[..n], offsets[..n], extra);
      var payload := TrafPayload(parts[n], offsets[n], extra);
      assert |payload| <= U32_MAX - 8;
      ReadWrittenAlone(TRAF, payload);
      ReadAppend(front, BoxBytes(TRAF, payload));
      TrafReads(parts[n], offsets[n], extra);
      var boxes := ReadBoxes(front).value;
      assert before + (boxes + [Box(TRAF, payload)]) == (before + boxes) + [Box(TRAF, payload)];
      ReadTrafsPush(before + boxes, payload);
      var runs := TrackRuns(parts, offsets, ReadBoxes(extra).value);
      assert runs == TrackRuns(parts[..n], offsets[..n], ReadBoxes(extra).value) + [runs[n]];
    }
  }

  /** A `moof` reads back as the tracks it was built for, whatever boxes sit beside them. */
  lemma {:induction false} MoofReads(sequence: u32, moofExtra: seq<byte>, parts: seq<Part>, offsets: seq<nat>, extra: seq<byte>)
    requires PartsOk(parts, offsets) && ReadBoxes(extra).Some? && Beside(moofExtra)
    requires MoofLength(|moofExtra|, parts, |extra|) <= U32_MAX
    ensures ReadMoof(MoofPayload(sequence, moofExtra, parts, offsets, extra))
            == Some((sequence, TrackRuns(parts, offsets, ReadBoxes(extra).value)))
  {
    hide BoxBytes, ReadBoxes, ReadTrafs, Trafs, FromBytes, ToBytes, FullBoxFields, Part.Typed;
    var trafs := Trafs(parts, offsets, extra);
    NoTrafs(ReadBoxes(moofExtra).value);
    TrafsRead(ReadBoxes(moofExtra).value, parts, offsets, extra);
    ReadAppend(moofExtra, trafs);
    ReadWritten(MFHD, MfhdPayload(sequence), moofExtra + trafs);
    Limits();
    BytesRoundTrip(sequence, 4);
    FieldBytes();
    assert MfhdPayload(sequence)[..4] == FullBoxFields(0, 0) && MfhdPayload(sequence)[4..] == ToBytes(sequence, 4);
    var rest := ReadBoxes(moofExtra).value + ReadBoxes(trafs).value;
    assert ([Box(MFHD, MfhdPayload(sequence))] + rest)[1..] == rest;
  }
}
