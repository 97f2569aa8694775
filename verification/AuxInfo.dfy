/**
 Encrypted fragments (src/fmp4/fragment.rs): the `senc`, `saiz` and `saio` boxes that describe every
 sample's subsamples, next to `seig` sample groups and `pssh` boxes, and a reader that follows
 section 7 of ISO/IEC 23001-7 from the start of the `moof`.
 */
module AuxInfo {
  import opened Common
  import opened Boxes
  import opened Decryption
  import opened Subsamples
  import opened Fragment
  import opened Muxed

  // ----- The layout -----

  predicate UsesSubsamples(maps: seq<seq<Subsample>>) {
    exists i :: 0 <= i < |maps| && maps[i] != []
  }

  function PairBytes(s: Subsample): (r: seq<byte>)
    ensures |r| == 6
  {
    ToBytes(s.clear, 2) + ToBytes(s.protected, 4)
  }

  function PairsBytes(subs: seq<Subsample>): (r: seq<byte>)
    ensures |r| == 6 * |subs|
  {
    if subs == [] then [] else PairsBytes(subs[..|subs| - 1]) + PairBytes(subs[|subs| - 1])
  }

  /** One sample's auxiliary information: nothing unless some sample has subsamples. */
  function AuxEntry(subs: seq<Subsample>, use: bool): (r: seq<byte>)
    ensures |r| == EntrySize(subs, use)
  {
    if use then ToBytes(|subs|, 2) + PairsBytes(subs) else []
  }

  function EntrySize(subs: seq<Subsample>, use: bool): nat {
    if use then 2 + 6 * |subs| else 0
  }

  function AuxEntries(maps: seq<seq<Subsample>>, use: bool): seq<byte> {
    if maps == [] then [] else AuxEntries(maps[..|maps| - 1], use) + AuxEntry(maps[|maps| - 1], use)
  }

  /** `saiz` has one byte for each sample's size. */
  predicate SizesFit(maps: seq<seq<Subsample>>) {
    forall i :: 0 <= i < |maps| ==> EntrySize(maps[i], UsesSubsamples(maps)) <= 0xFF
  }

  /** 42 is the most subsamples whose size is a byte. */
  lemma {:induction false} FitsByte(maps: seq<seq<Subsample>>)
    ensures SizesFit(maps) <==> forall i :: 0 <= i < |maps| ==> |maps[i]| <= MAX_SUBSAMPLES
  {
  }

  function AuxSizes(maps: seq<seq<Subsample>>): (r: seq<byte>)
    requires SizesFit(maps)
    ensures |r| == |maps|
  {
    seq(|maps|, i requires 0 <= i < |maps| => EntrySize(maps[i], UsesSubsamples(maps)))
  }

  function Uniform(sizes: seq<byte>): byte {
    if sizes != [] && forall i :: 0 <= i < |sizes| ==> sizes[i] == sizes[0] then sizes[0] else 0
  }

  function SencPayload(maps: seq<seq<Subsample>>): seq<byte> {
    var use := UsesSubsamples(maps);
    FullBoxFields(0, if use then 2 else 0) + (ToBytes(|maps|, 4) + AuxEntries(maps, use))
  }

  function SaizPayload(sizes: seq<byte>): seq<byte> {
    FullBoxFields(0, 0) + [Uniform(sizes)] + ToBytes(|sizes|, 4) + (if Uniform(sizes) == 0 then sizes else [])
  }

  function SaioPayload(offset: nat): (r: seq<byte>)
    ensures |r| == 12
  {
    FullBoxFields(0, 0) + ToBytes(1, 4) + ToBytes(offset, 4)
  }

  function AuxBoxes(maps: seq<seq<Subsample>>, offset: nat): seq<byte>
    requires SizesFit(maps)
  {
    BoxBytes(SENC, SencPayload(maps)) + (BoxBytes(SAIZ, SaizPayload(AuxSizes(maps))) + BoxBytes(SAIO, SaioPayload(offset)))
  }

  predicate MapsTyped(maps: seq<seq<Subsample>>) {
    forall i, j :: 0 <= i < |maps| && 0 <= j < |maps[i]| ==> maps[i][j].clear <= U16_MAX && maps[i][j].protected <= U32_MAX
  }

  /** What `encryption_boxes` can write. */
  predicate Describable(maps: seq<seq<Subsample>>) {
    && |maps| <= U32_MAX && SizesFit(maps)
    && 8 + |SencPayload(maps)| <= U32_MAX && 8 + |SaizPayload(AuxSizes(maps))| <= U32_MAX
  }

  // ----- How long the boxes are -----

  function Counts(maps: seq<seq<Subsample>>): (r: seq<nat>)
    ensures |r| == |maps|
  {
    seq(|maps|, i requires 0 <= i < |maps| => |maps[i]|)
  }

  predicate AnyCounted(counts: seq<nat>) {
    exists i :: 0 <= i < |counts| && counts[i] > 0
  }

  function EntriesLength(counts: seq<nat>): nat {
    if counts == [] then 0 else EntriesLength(counts[..|counts| - 1]) + 2 + 6 * counts[|counts| - 1]
  }

  function SencLength(counts: seq<nat>): nat {
    16 + if AnyCounted(counts) then EntriesLength(counts) else 0
  }

  /** `saiz` lists the sizes unless they are all the same and not 0. */
  function SaizLength(counts: seq<nat>): nat {
    17 + if AnyCounted(counts) && forall i :: 0 <= i < |counts| ==> counts[i] == counts[0] then 0 else |counts|
  }

  function AuxLength(counts: seq<nat>): nat {
    SencLength(counts) + SaizLength(counts) + 20
  }

  predicate CountsFit(counts: seq<nat>) {
    && |counts| <= U32_MAX && (forall i :: 0 <= i < |counts| ==> counts[i] <= MAX_SUBSAMPLES)
    && SencLength(counts) <= U32_MAX && SaizLength(counts) <= U32_MAX
  }

  lemma {:induction false} EntriesAreLong(maps: seq<seq<Subsample>>, use: bool)
    ensures |AuxEntries(maps, use)| == if use then EntriesLength(Counts(maps)) else 0
  {
    hide AuxEntry;
    if maps != [] {
      var n := |maps| - 1;
      EntriesAreLong(maps[..n], use);
      assert Counts(maps)[..n] == Counts(maps[..n]);
    }
  }

  lemma {:induction false} SizesAreAlike(maps: seq<seq<Subsample>>)
    requires SizesFit(maps)
    ensures AnyCounted(Counts(maps)) == UsesSubsamples(maps)
    ensures Uniform(AuxSizes(maps)) != 0
            <==> AnyCounted(Counts(maps)) && forall i :: 0 <= i < |maps| ==> Counts(maps)[i] == Counts(maps)[0]
  {
    var sizes, counts := AuxSizes(maps), Counts(maps);
    forall i | 0 <= i < |maps| ensures sizes[i] == if UsesSubsamples(maps) then 2 + 6 * counts[i] else 0 {
    }
    if AnyCounted(counts) {
      var i :| 0 <= i < |counts| && counts[i] > 0;
      assert maps[i] != [];
    }
    if UsesSubsamples(maps) {
      var i :| 0 <= i < |maps| && maps[i] != [];
      assert counts[i] > 0;
    }
  }

  /** The lengths of the boxes depend on no more than the number of subsamples of each sample. */
  lemma {:induction false} AuxBoxesAreLong(maps: seq<seq<Subsample>>, offset: nat)
    ensures Describable(maps) <==> CountsFit(Counts(maps))
    ensures SizesFit(maps) ==> |AuxBoxes(maps, offset)| == AuxLength(Counts(maps))
  {
    hide AuxEntries, Uniform, AuxSizes, EntriesLength, UsesSubsamples, AnyCounted, ToBytes;
    FitsByte(maps);
    EntriesAreLong(maps, UsesSubsamples(maps));
    if SizesFit(maps) {
      SizesAreAlike(maps);
    } else {
      var i :| 0 <= i < |maps| && |maps[i]| > MAX_SUBSAMPLES;
      assert Counts(maps)[i] > MAX_SUBSAMPLES;
    }
  }

  // ----- Sample groups -----

  type Bytes16 = b: seq<byte> | |b| == 16 witness seq(16, i => 0)

  datatype SampleGroup =
    | Clear
    | Protected(cryptByteBlock: byte, skipByteBlock: byte, keyId: Bytes16, constantIv: Bytes16)

  datatype Rotation = Rotation(group: Option<SampleGroup>, pssh: seq<byte>)

  const SGPD: Name := [0x73, 0x67, 0x70, 0x64]
  const SBGP: Name := [0x73, 0x62, 0x67, 0x70]
  const SEIG: Name := [0x73, 0x65, 0x69, 0x67]

  /** The `seig` entry of section 6.1. */
  function SeigEntry(group: SampleGroup): (r: seq<byte>)
    ensures |r| <= 37
  {
    match group
    case Clear => [0, 0, 0, 0] + seq(16, i => 0)
    case Protected(crypt, skip, keyId, iv) => [0, HalfBytes(crypt, skip), 1, 0] + keyId + [16] + iv
  }

  /** The pattern in one byte, as shifting and masking bytes leave it. */
  function HalfBytes(crypt: byte, skip: byte): byte {
    crypt % 0x10 * 0x10 + skip % 0x10
  }

  function ReadSeig(data: seq<byte>): Option<SampleGroup> {
    if |data| == 20 && forall i :: 0 <= i < 20 ==> data[i] == 0 then Some(Clear)
    else if |data| == 37 && data[0] == 0 && data[2] == 1 && data[3] == 0 && data[20] == 16 then
      Some(Protected(data[1] / 0x10, data[1] % 0x10, data[4..20], data[21..]))
    else None
  }

  /** A group entry reads back when its pattern fits the two half bytes it has, and only then. */
  lemma {:induction false} SeigReads(group: SampleGroup)
    ensures ReadSeig(SeigEntry(group)) == Some(group)
            <==> (group.Protected? ==> group.cryptByteBlock < 0x10 && group.skipByteBlock < 0x10)
  {
    hide HalfBytes;
    match group
    case Clear =>
    case Protected(crypt, skip, keyId, iv) =>
      var entry := SeigEntry(group);
      assert entry[4..20] == keyId && entry[21..] == iv && entry[20] == 16 && entry[1] == HalfBytes(crypt, skip);
      HalvesRead(crypt, skip);
  }

  lemma {:induction false} HalvesRead(crypt: byte, skip: byte)
    ensures HalfBytes(crypt, skip) / 0x10 == crypt % 0x10 && HalfBytes(crypt, skip) % 0x10 == skip % 0x10
  {
  }

  function GroupDescription(group: SampleGroup): (r: seq<byte>)
    ensures |r| <= 53
  {
    FullBoxFields(1, 0) + SEIG + ToBytes(|SeigEntry(group)|, 4) + ToBytes(1, 4) + SeigEntry(group)
  }

  function GroupMapping(count: nat): (r: seq<byte>)
    ensures |r| == 20
  {
    FullBoxFields(0, 0) + SEIG + ToBytes(1, 4) + ToBytes(count, 4) + ToBytes(0x0001_0001, 4)
  }

  function GroupBoxes(rotation: Option<Rotation>, count: nat): seq<byte> {
    if rotation.None? || rotation.value.group.None? then []
    else BoxBytes(SGPD, GroupDescription(rotation.value.group.value)) + BoxBytes(SBGP, GroupMapping(count))
  }

  function PsshOf(rotation: Option<Rotation>): seq<byte> {
    if rotation.None? then [] else rotation.value.pssh
  }

  lemma {:induction false} GroupsRead(rotation: Option<Rotation>, count: nat)
    ensures ReadBoxes(GroupBoxes(rotation, count))
            == Some(if rotation.None? || rotation.value.group.None? then []
                    else [Box(SGPD, GroupDescription(rotation.value.group.value)), Box(SBGP, GroupMapping(count))])
  {
    hide ReadBoxes, GroupDescription, GroupMapping;
    ReadNone();
    if rotation.Some? && rotation.value.group.Some? {
      var a, b := GroupDescription(rotation.value.group.value), GroupMapping(count);
      ReadWrittenAlone(SBGP, b);
      ReadWritten(SGPD, a, BoxBytes(SBGP, b));
      assert [Box(SGPD, a)] + [Box(SBGP, b)] == [Box(SGPD, a), Box(SBGP, b)];
    }
  }

  // ----- The writers -----

  lemma {:induction false} EntriesPush(maps: seq<seq<Subsample>>, use: bool, i: nat)
    requires i < |maps|
    ensures AuxEntries(maps[..i + 1], use) == AuxEntries(maps[..i], use) + AuxEntry(maps[i], use)
  {
    assert maps[..i + 1][..i] == maps[..i];
  }

  /** `encryption_boxes` */
  method EncryptionBoxes(maps: seq<seq<Subsample>>, auxOffset: u32) returns (r: Result<seq<byte>>)
    ensures r.Ok? <==> Describable(maps)
    ensures r.Ok? ==> r.value == AuxBoxes(maps, auxOffset)
  {
    hide ToBytes, BoxBytes, FullBoxFields, AuxEntries, AuxEntry, SaizPayload, SencPayload;
    var use := UsesSubsamples(maps);
    if |maps| > U32_MAX {
      return Err;
    }
    var entries: seq<byte>, sizes: seq<byte> := [], [];
    NoEntries(use);
    FitsByte(maps);
    for i := 0 to |maps|
      invariant entries == AuxEntries(maps[..i], use) && |sizes| == i
      invariant forall k :: 0 <= k < i ==> |maps[k]| <= MAX_SUBSAMPLES && sizes[k] == EntrySize(maps[k], use)
    {
      EntriesPush(maps, use, i);
      if !use {
        NoSubsamples(maps, i);
        sizes := sizes + [0];
        continue;
      }
      if |maps[i]| > MAX_SUBSAMPLES {
        return Err;
      }
      entries := entries + AuxEntry(maps[i], use);
      sizes := sizes + [2 + 6 * |maps[i]|];
    }
    assert maps[..|maps|] == maps;
    assert sizes == AuxSizes(maps);
    r := WriteAuxBoxes(maps, entries, sizes, auxOffset);
  }

  lemma {:induction false} NoEntries(use: bool)
    ensures AuxEntries([], use) == []
  {
  }

  lemma {:induction false} NoSubsamples(maps: seq<seq<Subsample>>, i: nat)
    requires i < |maps| && !UsesSubsamples(maps)
    ensures maps[i] == [] && AuxEntry(maps[i], false) == []
  {
  }

  method WriteAuxBoxes(maps: seq<seq<Subsample>>, entries: seq<byte>, sizes: seq<byte>, auxOffset: u32)
    returns (r: Result<seq<byte>>)
    requires |maps| <= U32_MAX && SizesFit(maps)
    requires entries == AuxEntries(maps, UsesSubsamples(maps)) && sizes == AuxSizes(maps)
    ensures r.Ok? <==> Describable(maps)
    ensures r.Ok? ==> r.value == AuxBoxes(maps, auxOffset)
  {
    hide ToBytes, BoxBytes, FullBoxFields, AuxEntries, AuxEntry, AuxSizes;
    var use := UsesSubsamples(maps);
    var senc := FullBoxFields(0, if use then 2 else 0) + (ToBytes(|maps|, 4) + entries);
    var uniform := Uniform(sizes);
    var saiz := FullBoxFields(0, 0) + [uniform] + ToBytes(|sizes|, 4);
    if uniform == 0 {
      saiz := saiz + sizes;
    } else {
      assert saiz + [] == saiz;
    }
    assert saiz == SaizPayload(sizes) && senc == SencPayload(maps);
    var saio := SaioPayload(auxOffset);
    var boxes :- WriteBox([], SENC, senc);
    boxes :- WriteBox(boxes, SAIZ, saiz);
    // `saio` is of fixed size and always fits.
    r := WriteBox(boxes, SAIO, saio);
    assert [] + BoxBytes(SENC, senc) + BoxBytes(SAIZ, saiz) + BoxBytes(SAIO, saio) == AuxBoxes(maps, auxOffset);
  }

  /** Where the first `senc` entry comes to lie: the probe's length less its last boxes', plus 16. */
  function AuxOffset(p: Part, moofExtra: nat): nat {
    MoofLength(moofExtra, [p], 0) + 16
  }

  function AuxExtra(p: Part, maps: seq<seq<Subsample>>, rotation: Option<Rotation>): seq<byte>
    requires SizesFit(maps)
  {
    AuxBoxes(maps, AuxOffset(p, |PsshOf(rotation)|)) + GroupBoxes(rotation, |p.samples|)
  }

  /** Whether a `moof` with these boxes, and its `mdat`, fit the fields that measure them. */
  predicate HeaderFits(p: Part, moofExtra: nat, extra: nat, payload: nat) {
    MoofLength(moofExtra, [p], extra) + 8 <= 0x7FFF_FFFF && payload + 8 <= U32_MAX
  }

  /** Both headers end alike: the `moof` once more, with its data offset, and the `mdat` header. */
  method FinishHeader(p: Part, sequence: u32, moofExtra: seq<byte>, extra: seq<byte>, payload: nat) returns (r: Result<seq<byte>>)
    requires p.Typed()
    ensures r.Ok? <==> HeaderFits(p, |moofExtra|, |extra|, payload)
    ensures r.Ok? ==> r.value == HeaderOf(sequence, moofExtra, [p], extra, payload)
  {
    hide MoofPayload, BoxBytes, ToBytes, MoofLength, Part.Typed;
    var probe :- BuildMoof(sequence, moofExtra, [p], [0], extra);
    MoofIsFixed(sequence, moofExtra, [p], [0], extra);
    if |probe| + 8 > 0x7FFF_FFFF {
      return Err;
    }
    OneOffset(p, |probe| + 8);
    // The probe was built, so the final `moof`, of the same length, is too.
    var moof := BuildMoof(sequence, moofExtra, [p], [|probe| + 8], extra);
    r := WriteBoxHeader(moof.value, payload + 8, MDAT);
    assert moof.value + ToBytes(payload + 8, 4) + MDAT == moof.value + (ToBytes(payload + 8, 4) + MDAT);
  }

  lemma {:induction false} OneOffset(p: Part, base: nat)
    ensures OffsetsFrom([p], base) == [base]
  {
    assert [p][..0] == [] && OffsetsFrom([], base) == [] && Payload([]) == 0;
  }

  lemma {:induction false} OneTraf(p: Part, moofExtra: nat, extra: nat)
    ensures MoofLength(moofExtra, [p], extra) == MoofLength(moofExtra, [p], 0) + extra
  {
    assert [p][..0] == [] && TrafsLength([], extra) == 0 && TrafsLength([], 0) == 0;
  }

  /** `clear_fragment_header` */
  method ClearFragmentHeader(p: Part, sequence: u32, rotation: Rotation, payload: nat) returns (r: Result<seq<byte>>)
    requires p.Typed()
    ensures var extra := GroupBoxes(Some(rotation), |p.samples|);
            && (r.Ok? <==> HeaderFits(p, |rotation.pssh|, |extra|, payload) && |p.samples| <= U32_MAX)
            && (r.Ok? ==> r.value == HeaderOf(sequence, rotation.pssh, [p], extra, payload))
  {
    hide GroupBoxes, HeaderOf, HeaderFits, Part.Typed;
    if |p.samples| > U32_MAX {
      return Err;
    }
    r := FinishHeader(p, sequence, rotation.pssh, GroupBoxes(Some(rotation), |p.samples|), payload);
  }

  /** `encrypted_fragment_header` */
  method EncryptedFragmentHeader(p: Part, sequence: u32, maps: seq<seq<Subsample>>, payload: nat, rotation: Option<Rotation>)
    returns (r: Result<seq<byte>>)
    requires p.Typed()
    ensures r.Ok? <==>
              && Describable(maps) && (rotation.Some? ==> |p.samples| <= U32_MAX)
              && HeaderFits(p, |PsshOf(rotation)|, |AuxExtra(p, maps, rotation)|, payload)
    ensures r.Ok? ==> r.value == HeaderOf(sequence, PsshOf(rotation), [p], AuxExtra(p, maps, rotation), payload)
  {
    hide GroupBoxes, HeaderOf, Part.Typed, MoofPayload, SencPayload, SaizPayload, AuxSizes, BoxBytes, MoofLength;
    if rotation.Some? && |p.samples| > U32_MAX {
      return Err;
    }
    var groups := GroupBoxes(rotation, |p.samples|);
    var probeBoxes :- EncryptionBoxes(maps, 0);
    var probeExtra := probeBoxes + groups;
    var probe :- BuildMoof(sequence, PsshOf(rotation), [p], [0], probeExtra);
    MoofIsFixed(sequence, PsshOf(rotation), [p], [0], probeExtra);
    OneTraf(p, |PsshOf(rotation)|, |probeExtra|);
    var sencEntries := |probe| - |probeExtra| + 16;
    assert |probeExtra| >= 16;
    // The boxes do not grow with the offset they hold.
    var boxes := EncryptionBoxes(maps, sencEntries);
    r := FinishHeader(p, sequence, PsshOf(rotation), boxes.value + groups, payload);
  }

  // ----- The reader -----

  /** The first box of that name. */
  function Find(boxes: seq<Box>, name: Name): Option<seq<byte>> {
    if boxes == [] then None
    else if boxes[0].name == name then Some(boxes[0].payload)
    else Find(boxes[1..], name)
  }

  function ReadSaiz(data: seq<byte>): Option<seq<byte>> {
    if |data| < 9 || data[..4] != FullBoxFields(0, 0) then None
    else
      var count := FromBytes(data[5..9]);
      if data[4] != 0 then (if |data| == 9 then Some(seq(count, i => data[4])) else None)
      else if |data| == 9 + count then Some(data[9..])
      else None
  }

  /** One chunk of auxiliary information, at an offset from the start of the `moof`. */
  function ReadSaio(data: seq<byte>): Option<nat> {
    if |data| != 12 || data[..4] != FullBoxFields(0, 0) || FromBytes(data[4..8]) != 1 then None
    else Some(FromBytes(data[8..]))
  }

  function ReadPairs(data: seq<byte>): seq<Subsample> {
    if |data| < 6 then []
    else
      var n := |data| - 6;
      ReadPairs(data[..n]) + [Subsample(FromBytes(data[n..n + 2]), FromBytes(data[n + 2..]))]
  }

  function ReadAuxEntry(data: seq<byte>): Option<seq<Subsample>> {
    if |data| < 2 || |data| != 2 + 6 * FromBytes(data[..2]) then None else Some(ReadPairs(data[2..]))
  }

  function Sum(sizes: seq<byte>): nat {
    if sizes == [] then 0 else Sum(sizes[..|sizes| - 1]) + sizes[|sizes| - 1]
  }

  /** The subsample map of sample `i`, found through `saiz` and `saio`; `senc` only says whether there are any. */
  function ReadMap(file: seq<byte>, boxes: seq<Box>, i: nat): Option<seq<Subsample>> {
    var (senc, saiz, saio) := (Find(boxes, SENC), Find(boxes, SAIZ), Find(boxes, SAIO));
    if senc.None? || saiz.None? || saio.None? || |senc.value| < 4 then None
    else
      var (sizes, offset) := (ReadSaiz(saiz.value), ReadSaio(saio.value));
      if sizes.None? || offset.None? || i >= |sizes.value| then None
      else
        var at := offset.value + Sum(sizes.value[..i]);
        if at + sizes.value[i] > |file| then None
        else if senc.value[..4] == FullBoxFields(0, 2) then ReadAuxEntry(file[at..at + sizes.value[i]])
        else if sizes.value[i] == 0 then Some([])
        else None
  }

  // ----- Reading back -----

  lemma {:induction false} PairsRead(subs: seq<Subsample>)
    requires forall j :: 0 <= j < |subs| ==> subs[j].clear <= U16_MAX && subs[j].protected <= U32_MAX
    ensures ReadPairs(PairsBytes(subs)) == subs
  {
    hide ToBytes, FromBytes;
    if subs != [] {
      var init, last := subs[..|subs| - 1], subs[|subs| - 1];
      PairsRead(init);
      Limits();
      BytesRoundTrip(last.clear, 2);
      BytesRoundTrip(last.protected, 4);
      var data := PairsBytes(subs);
      var n := |data| - 6;
      assert data[..n] == PairsBytes(init);
      assert data[n..n + 2] == ToBytes(last.clear, 2) && data[n + 2..] == ToBytes(last.protected, 4);
      assert subs == init + [last];
    }
  }

  lemma {:induction false} AuxEntryReads(subs: seq<Subsample>)
    requires forall j :: 0 <= j < |subs| ==> subs[j].clear <= U16_MAX && subs[j].protected <= U32_MAX
    requires |subs| <= MAX_SUBSAMPLES
    ensures ReadAuxEntry(AuxEntry(subs, true)) == Some(subs)
  {
    hide ToBytes, FromBytes, PairsBytes, ReadPairs;
    Limits();
    BytesRoundTrip(|subs|, 2);
    PairsRead(subs);
    var data := AuxEntry(subs, true);
    assert data[..2] == ToBytes(|subs|, 2) && data[2..] == PairsBytes(subs);
  }

  /** The prefix sums of the sizes land on every entry. */
  lemma {:induction false} EntriesLand(maps: seq<seq<Subsample>>, use: bool, sizes: seq<byte>, i: nat)
    requires |sizes| == |maps| && forall k :: 0 <= k < |maps| ==> sizes[k] == EntrySize(maps[k], use)
    requires i < |maps|
    ensures var at := Sum(sizes[..i]);
            && at + sizes[i] <= |AuxEntries(maps, use)| == Sum(sizes)
            && AuxEntries(maps, use)[at..at + sizes[i]] == AuxEntry(maps[i], use)
    decreases |maps|
  {
    hide AuxEntry, EntrySize;
    var n := |maps| - 1;
    assert sizes[..n + 1] == sizes;
    if i < n {
      EntriesLand(maps[..n], use, sizes[..n], i);
      assert sizes[..n][..i] == sizes[..i];
    } else {
      EntriesTotal(maps[..n], use, sizes[..n]);
    }
  }

  lemma {:induction false} EntriesTotal(maps: seq<seq<Subsample>>, use: bool, sizes: seq<byte>)
    requires |sizes| == |maps| && forall k :: 0 <= k < |maps| ==> sizes[k] == EntrySize(maps[k], use)
    ensures |AuxEntries(maps, use)| == Sum(sizes)
  {
    hide EntrySize;
    if maps != [] {
      EntriesTotal(maps[..|maps| - 1], use, sizes[..|maps| - 1]);
    }
  }

  /** Listed or uniform, the sizes read back. */
  lemma {:induction false} SaizReads(sizes: seq<byte>)
    requires |sizes| <= U32_MAX
    ensures ReadSaiz(SaizPayload(sizes)) == Some(sizes)
  {
    hide ToBytes, FromBytes, FullBoxFields;
    Limits();
    BytesRoundTrip(|sizes|, 4);
    var data := SaizPayload(sizes);
    assert data[..4] == FullBoxFields(0, 0) && data[4] == Uniform(sizes) && data[5..9] == ToBytes(|sizes|, 4);
    if Uniform(sizes) != 0 {
      assert sizes == seq(|sizes|, i => data[4]);
    } else {
      assert data[9..] == sizes;
    }
  }

  lemma {:induction false} SaioReads(offset: u32)
    ensures ReadSaio(SaioPayload(offset)) == Some(offset)
  {
    hide ToBytes, FromBytes, FullBoxFields;
    Limits();
    BytesRoundTrip(1, 4);
    BytesRoundTrip(offset, 4);
    var data := SaioPayload(offset);
    assert data[..4] == FullBoxFields(0, 0) && data[4..8] == ToBytes(1, 4) && data[8..] == ToBytes(offset, 4);
  }

  predicate EndsWith(a: seq<byte>, s: seq<byte>) {
    |s| <= |a| && a[|a| - |s|..] == s
  }

  lemma {:induction false} EndsAfter(a: seq<byte>, b: seq<byte>, s: seq<byte>)
    requires EndsWith(b, s)
    ensures EndsWith(a + b, s)
  {
    assert (a + b)[|a + b| - |s|..] == b[|b| - |s|..];
  }

  lemma {:induction false} BoxEnds(name: Name, payload: seq<byte>, s: seq<byte>)
    requires EndsWith(payload, s)
    ensures EndsWith(BoxBytes(name, payload), s)
  {
    hide ToBytes, EndsWith;
    EndsAfter(ToBytes(8 + |payload|, 4) + name, payload, s);
  }

  lemma {:induction false} TrafEnds(p: Part, offset: nat, extra: seq<byte>)
    ensures EndsWith(TrafPayload(p, offset, extra), extra)
  {
    hide BoxBytes, TfhdPayload, TfdtPayload, TrunPayload, EndsWith;
    var tfhd, tfdt, trun := BoxBytes(TFHD, TfhdPayload(p)), BoxBytes(TFDT, TfdtPayload(p)), BoxBytes(TRUN, TrunPayload(p, offset));
    WholeEnds(extra);
    EndsAfter(trun, extra, extra);
    EndsAfter(tfdt, trun + extra, extra);
    EndsAfter(tfhd, tfdt + (trun + extra), extra);
  }

  lemma {:induction false} WholeEnds(s: seq<byte>)
    ensures EndsWith(s, s)
  {
  }

  lemma {:induction false} OneTrafBytes(p: Part, offset: nat, extra: seq<byte>)
    ensures Trafs([p], [offset], extra) == BoxBytes(TRAF, TrafPayload(p, offset, extra))
  {
    hide BoxBytes, TrafPayload;
    assert [p][..0] == [] && [offset][..0] == [] && Trafs([], [], extra) == [];
  }

  /** A `traf`'s last boxes are the last bytes of the `moof`. */
  lemma {:induction false} ExtraIsLast(sequence: u32, moofExtra: seq<byte>, p: Part, offset: nat, extra: seq<byte>)
    ensures EndsWith(BoxBytes(MOOF, MoofPayload(sequence, moofExtra, [p], [offset], extra)), extra)
  {
    hide BoxBytes, TrafPayload, MfhdPayload, Trafs, EndsWith;
    TrafEnds(p, offset, extra);
    BoxEnds(TRAF, TrafPayload(p, offset, extra), extra);
    OneTrafBytes(p, offset, extra);
    var traf := Trafs([p], [offset], extra);
    EndsAfter(moofExtra, traf, extra);
    EndsAfter(BoxBytes(MFHD, MfhdPayload(sequence)), moofExtra + traf, extra);
    BoxEnds(MOOF, MoofPayload(sequence, moofExtra, [p], [offset], extra), extra);
  }

  /** The boxes read back as themselves, in order, with the groups after them. */
  lemma {:induction false} AuxBoxesRead(maps: seq<seq<Subsample>>, offset: nat, groups: seq<byte>)
    requires Describable(maps) && ReadBoxes(groups).Some?
    ensures ReadBoxes(AuxBoxes(maps, offset) + groups)
            == Some([Box(SENC, SencPayload(maps)), Box(SAIZ, SaizPayload(AuxSizes(maps))), Box(SAIO, SaioPayload(offset))]
                    + ReadBoxes(groups).value)
  {
    hide BoxBytes, ReadBoxes, ReadBox, SencPayload, SaizPayload, SaioPayload, AuxSizes, SizesFit;
    var a, b, c := SencPayload(maps), SaizPayload(AuxSizes(maps)), SaioPayload(offset);
    ReadWrittenAlone(SAIO, c);
    ReadWritten(SAIZ, b, BoxBytes(SAIO, c));
    ReadWritten(SENC, a, BoxBytes(SAIZ, b) + BoxBytes(SAIO, c));
    ReadAppend(AuxBoxes(maps, offset), groups);
    assert [Box(SENC, a)] + ([Box(SAIZ, b)] + [Box(SAIO, c)]) == [Box(SENC, a), Box(SAIZ, b), Box(SAIO, c)];
  }

  lemma {:induction false} FindThree(a: seq<byte>, b: seq<byte>, c: seq<byte>, rest: seq<Box>)
    ensures var boxes := [Box(SENC, a), Box(SAIZ, b), Box(SAIO, c)] + rest;
            Find(boxes, SENC) == Some(a) && Find(boxes, SAIZ) == Some(b) && Find(boxes, SAIO) == Some(c)
  {
    var boxes := [Box(SENC, a), Box(SAIZ, b), Box(SAIO, c)] + rest;
    assert boxes[1..] == [Box(SAIZ, b), Box(SAIO, c)] + rest;
    assert boxes[1..][1..] == [Box(SAIO, c)] + rest;
    assert Find(boxes[1..], SAIZ) == Some(b) && Find(boxes[1..][1..], SAIO) == Some(c);
    assert Find(boxes[1..], SAIO) == Find(boxes[1..][1..], SAIO);
  }

  /** The entries in the file: 16 bytes into `senc`, which is where `saio` points. */
  lemma {:induction false} EntriesInFile(file: seq<byte>, maps: seq<seq<Subsample>>, offset: nat, groups: seq<byte>, lo: nat)
    requires SizesFit(maps) && lo + |AuxBoxes(maps, offset) + groups| <= |file|
    requires file[lo..lo + |AuxBoxes(maps, offset) + groups|] == AuxBoxes(maps, offset) + groups
    ensures var entries := AuxEntries(maps, UsesSubsamples(maps));
            lo + 16 + |entries| <= |file| && file[lo + 16..lo + 16 + |entries|] == entries
  {
    hide ToBytes, FullBoxFields, AuxEntries, SaizPayload, SaioPayload, AuxSizes, SizesFit, UsesSubsamples;
    var entries := AuxEntries(maps, UsesSubsamples(maps));
    var senc := BoxBytes(SENC, SencPayload(maps));
    assert senc[16..] == entries && |senc| == 16 + |entries|;
    var all := AuxBoxes(maps, offset) + groups;
    assert all[..|senc|] == senc;
    assert all[16..16 + |entries|] == entries;
    SliceOfSlice(file, lo, lo + |all|, 16, 16 + |entries|);
  }

  /** A reader finds every sample's map, whatever follows the boxes. */
  lemma {:induction false} MapsRead(file: seq<byte>, boxes: seq<Box>, maps: seq<seq<Subsample>>, offset: u32, rest: seq<Box>)
    requires Describable(maps) && MapsTyped(maps)
    requires boxes == [Box(SENC, SencPayload(maps)), Box(SAIZ, SaizPayload(AuxSizes(maps))), Box(SAIO, SaioPayload(offset))] + rest
    requires var entries := AuxEntries(maps, UsesSubsamples(maps));
             offset + |entries| <= |file| && file[offset..offset + |entries|] == entries
    ensures forall i: nat :: ReadMap(file, boxes, i) == if i < |maps| then Some(maps[i]) else None
  {
    hide FullBoxFields, SencPayload, SaizPayload, SaioPayload, Find, Sum, ReadSaiz, ReadSaio, ReadAuxEntry, AuxEntries,
      AuxEntry, UsesSubsamples;
    FindThree(SencPayload(maps), SaizPayload(AuxSizes(maps)), SaioPayload(offset), rest);
    SaizReads(AuxSizes(maps));
    SaioReads(offset);
    SencFlags(maps);
    forall i: nat ensures ReadMap(file, boxes, i) == if i < |maps| then Some(maps[i]) else None {
      if i < |maps| {
        var use := UsesSubsamples(maps);
        EntriesLand(maps, use, AuxSizes(maps), i);
        var at, size := Sum(AuxSizes(maps)[..i]), AuxSizes(maps)[i];
        SliceOfSlice(file, offset, offset + |AuxEntries(maps, use)|, at, at + size);
        if use {
          AuxEntryReads(maps[i]);
        } else {
          NoSubsamples(maps, i);
        }
      }
    }
  }

  lemma {:induction false} SencFlags(maps: seq<seq<Subsample>>)
    ensures |SencPayload(maps)| >= 4
    ensures SencPayload(maps)[..4] == FullBoxFields(0, 2) <==> UsesSubsamples(maps)
  {
    hide AuxEntries, UsesSubsamples;
    assert ToBytes(2, 3)[2] == 2 && ToBytes(0, 3)[2] == 0;
    var flags := FullBoxFields(0, if UsesSubsamples(maps) then 2 else 0);
    assert SencPayload(maps)[..4] == flags;
    assert flags[3] == if UsesSubsamples(maps) then 2 else 0;
    assert FullBoxFields(0, 2)[3] == 2;
  }

  lemma {:induction false} AuxExtraReads(p: Part, maps: seq<seq<Subsample>>, rotation: Option<Rotation>)
    requires Describable(maps)
    ensures ReadBoxes(GroupBoxes(rotation, |p.samples|)).Some?
    ensures ReadBoxes(AuxExtra(p, maps, rotation))
            == Some([Box(SENC, SencPayload(maps)), Box(SAIZ, SaizPayload(AuxSizes(maps))),
                     Box(SAIO, SaioPayload(AuxOffset(p, |PsshOf(rotation)|)))]
                    + ReadBoxes(GroupBoxes(rotation, |p.samples|)).value)
  {
    hide ReadBoxes, AuxBoxes, GroupBoxes, SencPayload, SaizPayload, SaioPayload, AuxSizes;
    GroupsRead(rotation, |p.samples|);
    AuxBoxesRead(maps, AuxOffset(p, |PsshOf(rotation)|), GroupBoxes(rotation, |p.samples|));
  }

  /** A header of one track, and the payload after it. */
  lemma {:induction false} HeaderReads(p: Part, sequence: u32, moofExtra: seq<byte>, extra: seq<byte>, body: seq<byte>)
    requires p.Typed() && Beside(moofExtra) && ReadBoxes(extra).Some? && HeaderFits(p, |moofExtra|, |extra|, |body|)
    ensures var header := HeaderOf(sequence, moofExtra, [p], extra, |body|);
            var moof := MoofPayload(sequence, moofExtra, [p], [|header|], extra);
            && |header| == MoofLength(|moofExtra|, [p], |extra|) + 8
            && header == BoxBytes(MOOF, moof) + (ToBytes(|body| + 8, 4) + MDAT)
            && ReadBoxes(header + body) == Some([Box(MOOF, moof), Box(MDAT, body)])
            && ReadMoof(moof) == Some((sequence, [TrackRunOf(p, |header|, ReadBoxes(extra).value)]))
  {
    hide BoxBytes, ReadBoxes, MoofPayload, ReadMoof, TrackRunOf, ToBytes, MoofLength, Part.Typed, OffsetsFrom, Beside;
    var base := MoofLength(|moofExtra|, [p], |extra|) + 8;
    var moof := MoofPayload(sequence, moofExtra, [p], [base], extra);
    OneOffset(p, base);
    MoofIsFixed(sequence, moofExtra, [p], [base], extra);
    MoofReads(sequence, moofExtra, [p], [base], extra);
    HeaderThenBody(moof, body, |body|);
    assert TrackRuns([p], [base], ReadBoxes(extra).value) == [TrackRunOf(p, base, ReadBoxes(extra).value)];
  }

  lemma {:induction false} AuxLies(p: Part, sequence: u32, maps: seq<seq<Subsample>>, rotation: Option<Rotation>, moof: seq<byte>,
                                   after: seq<byte>)
    requires Describable(maps)
    requires exists offset :: moof == BoxBytes(MOOF, MoofPayload(sequence, PsshOf(rotation), [p], [offset], AuxExtra(p, maps, rotation)))
    ensures var entries := AuxEntries(maps, UsesSubsamples(maps));
            var at := AuxOffset(p, |PsshOf(rotation)|);
            at + |entries| <= |moof + after| && (moof + after)[at..at + |entries|] == entries
  {
    hide MoofPayload, BoxBytes, AuxBoxes, GroupBoxes, AuxEntries, UsesSubsamples, MoofLength, SizesFit;
    var extra := AuxExtra(p, maps, rotation);
    var offset :| moof == BoxBytes(MOOF, MoofPayload(sequence, PsshOf(rotation), [p], [offset], extra));
    ExtraIsLast(sequence, PsshOf(rotation), p, offset, extra);
    MoofIsFixed(sequence, PsshOf(rotation), [p], [offset], extra);
    OneTraf(p, |PsshOf(rotation)|, |extra|);
    var lo := |moof| - |extra|;
    assert (moof + after)[lo..lo + |extra|] == moof[lo..];
    EntriesInFile(moof + after, maps, AuxOffset(p, |PsshOf(rotation)|), GroupBoxes(rotation, |p.samples|), lo);
  }

  lemma {:induction false} MapsInResponse(p: Part, sequence: u32, maps: seq<seq<Subsample>>, rotation: Option<Rotation>,
                                          offset: nat, after: seq<byte>)
    requires MapsTyped(maps) && Describable(maps) && AuxOffset(p, |PsshOf(rotation)|) <= U32_MAX
    ensures var extra := AuxExtra(p, maps, rotation);
            var moof := BoxBytes(MOOF, MoofPayload(sequence, PsshOf(rotation), [p], [offset], extra));
            && ReadBoxes(extra).Some?
            && forall i: nat :: ReadMap(moof + after, ReadBoxes(extra).value, i) == if i < |maps| then Some(maps[i]) else None
  {
    hide MoofPayload, AuxExtra, BoxBytes, ReadBoxes, MapsTyped, SizesFit, ReadMap, AuxEntries, UsesSubsamples, AuxOffset, GroupBoxes;
    var moof := BoxBytes(MOOF, MoofPayload(sequence, PsshOf(rotation), [p], [offset], AuxExtra(p, maps, rotation)));
    AuxExtraReads(p, maps, rotation);
    AuxLies(p, sequence, maps, rotation, moof, after);
    MapsRead(moof + after, ReadBoxes(AuxExtra(p, maps, rotation)).value, maps, AuxOffset(p, |PsshOf(rotation)|),
             ReadBoxes(GroupBoxes(rotation, |p.samples|)).value);
  }

  lemma {:induction false} OffsetFits(p: Part, moofExtra: nat, extra: nat, payload: nat)
    requires HeaderFits(p, moofExtra, extra, payload)
    ensures AuxOffset(p, moofExtra) <= U32_MAX
  {
    OneTraf(p, moofExtra, extra);
  }

  /**
   An encrypted fragment reads back: its boxes tile the response, its one track's data offset is
   where the payload starts, and a reader that follows `saio` and `saiz` finds every sample's
   subsample map and nothing more, with or without `seig` and `pssh` boxes.
   */
  lemma {:induction false} EncryptedReadsBack(p: Part, sequence: u32, maps: seq<seq<Subsample>>, rotation: Option<Rotation>,
                                              body: seq<byte>)
    requires p.Typed() && MapsTyped(maps) && Describable(maps) && Beside(PsshOf(rotation))
    requires HeaderFits(p, |PsshOf(rotation)|, |AuxExtra(p, maps, rotation)|, |body|)
    ensures var extra := AuxExtra(p, maps, rotation);
            var header := HeaderOf(sequence, PsshOf(rotation), [p], extra, |body|);
            var moof := MoofPayload(sequence, PsshOf(rotation), [p], [|header|], extra);
            && ReadBoxes(header + body) == Some([Box(MOOF, moof), Box(MDAT, body)])
            && ReadBoxes(extra).Some?
            && ReadMoof(moof) == Some((sequence, [TrackRunOf(p, |header|, ReadBoxes(extra).value)]))
            && forall i: nat :: ReadMap(header + body, ReadBoxes(extra).value, i) == if i < |maps| then Some(maps[i]) else None
  {
    hide HeaderOf, MoofPayload, AuxExtra, ReadBoxes, ReadMoof, TrackRunOf, Part.Typed, MapsTyped, SizesFit, ReadMap, BoxBytes,
      ToBytes, HeaderFits, Beside, AuxOffset;
    var extra := AuxExtra(p, maps, rotation);
    var header := HeaderOf(sequence, PsshOf(rotation), [p], extra, |body|);
    var after := ToBytes(|body| + 8, 4) + MDAT;
    OffsetFits(p, |PsshOf(rotation)|, |extra|, |body|);
    MapsInResponse(p, sequence, maps, rotation, |header|, after + body);
    HeaderReads(p, sequence, PsshOf(rotation), extra, body);
    assert BoxBytes(MOOF, MoofPayload(sequence, PsshOf(rotation), [p], [|header|], extra)) + (after + body) == header + body;
  }
}
