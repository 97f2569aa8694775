/**
 Reading the `seig` groups that say which keys a fragment of a rotating asset is under
 (src/fmp4/fragment.rs; section 6 of ISO/IEC 23001-7, sections 8.9.2 and 8.9.3 of ISO/IEC 14496-12).
 */
module SampleGroups {
  import opened Common
  import opened Boxes
  import opened Decryption
  import opened Fragment
  import opened Muxed
  import opened AuxInfo

  // ----- A reader -----

  /** The description of number `k`, from 0, in an `sgpd` whose entries are all of one length. */
  function Described(data: seq<byte>, k: nat): Option<seq<byte>> {
    if |data| < 16 || data[..8] != [1, 0, 0, 0, 0x73, 0x65, 0x69, 0x67] then None
    else
      var length, count := FromBytes(data[8..12]), FromBytes(data[12..16]);
      if k >= count || |data| != 16 + count * length || 16 + k * length + length > |data| then None
      else Some(data[16 + k * length..16 + k * length + length])
  }

  /** The description index of sample `i` in `n` runs of samples from `at` on. */
  function IndexIn(data: seq<byte>, at: nat, n: nat, i: nat): Option<nat>
    decreases n
  {
    if n == 0 || at + 8 > |data| then None
    else
      var count := FromBytes(data[at..at + 4]);
      if i < count then Some(FromBytes(data[at + 4..at + 8])) else IndexIn(data, at + 8, n - 1, i - count)
  }

  function Mapped(data: seq<byte>, i: nat): Option<nat> {
    if |data| < 12 || data[..8] != [0, 0, 0, 0, 0x73, 0x65, 0x69, 0x67] then None
    else IndexIn(data, 12, FromBytes(data[8..12]), i)
  }

  /** What a `traf` says of the keys of sample `i`; indices above 0x10000 are the fragment's own descriptions. */
  function ReadGroup(boxes: seq<Box>, i: nat): Option<SampleGroup> {
    var (sgpd, sbgp) := (Find(boxes, SGPD), Find(boxes, SBGP));
    if sgpd.None? || sbgp.None? then None
    else
      match Mapped(sbgp.value, i)
      case None => None
      case Some(index) =>
        if index <= 0x1_0000 then None
        else
          match Described(sgpd.value, index - 0x1_0001)
          case None => None
          case Some(entry) => ReadSeig(entry)
  }

  // ----- Reading back -----

  predicate PatternFits(group: SampleGroup) {
    group.Protected? ==> group.cryptByteBlock < 0x10 && group.skipByteBlock < 0x10
  }

  /** What a fragment under this rotation should say of each of its samples. */
  function GroupOf(rotation: Option<Rotation>): Option<SampleGroup> {
    if rotation.None? then None else rotation.value.group
  }

  lemma {:induction false} StartsWith(a: seq<byte>, b: seq<byte>, c: seq<byte>, d: seq<byte>, e: seq<byte>)
    requires |a| == |b| == |c| == |d| == 4
    ensures var all := a + b + c + d + e;
            all[..8] == a + b && all[8..12] == c && all[12..16] == d && all[16..] == e
  {
  }

  lemma {:induction false} GroupFields()
    ensures FullBoxFields(1, 0) + SEIG == [1, 0, 0, 0, 0x73, 0x65, 0x69, 0x67]
    ensures FullBoxFields(0, 0) + SEIG == [0, 0, 0, 0, 0x73, 0x65, 0x69, 0x67]
  {
    ThreeBytes(0);
  }

  lemma {:induction false} DescriptionReads(group: SampleGroup)
    ensures Described(GroupDescription(group), 0) == Some(SeigEntry(group))
  {
    hide FromBytes, ToBytes, FullBoxFields, SeigEntry;
    var entry := SeigEntry(group);
    GroupFields();
    Limits();
    BytesRoundTrip(|entry|, 4);
    BytesRoundTrip(1, 4);
    StartsWith(FullBoxFields(1, 0), SEIG, ToBytes(|entry|, 4), ToBytes(1, 4), entry);
    var data := GroupDescription(group);
    assert data[16..16 + |entry|] == data[16..];
  }

  lemma {:induction false} MappingReads(count: nat, i: nat)
    requires i < count <= U32_MAX
    ensures Mapped(GroupMapping(count), i) == Some(0x1_0001)
  {
    hide FromBytes, ToBytes, FullBoxFields;
    GroupFields();
    Limits();
    BytesRoundTrip(1, 4);
    BytesRoundTrip(count, 4);
    BytesRoundTrip(0x1_0001, 4);
    StartsWith(FullBoxFields(0, 0), SEIG, ToBytes(1, 4), ToBytes(count, 4), ToBytes(0x0001_0001, 4));
    var data := GroupMapping(count);
    assert data[16..20] == data[16..];
  }

  /** Boxes with other names in front do not matter, nor does it when there are no groups. */
  lemma {:induction false} GroupsFound(before: seq<Box>, rotation: Option<Rotation>, count: nat, i: nat)
    requires i < count <= U32_MAX && forall k :: 0 <= k < |before| ==> before[k].name != SGPD && before[k].name != SBGP
    requires GroupOf(rotation).Some? ==> PatternFits(GroupOf(rotation).value)
    ensures ReadBoxes(GroupBoxes(rotation, count)).Some?
    ensures ReadGroup(before + ReadBoxes(GroupBoxes(rotation, count)).value, i) == GroupOf(rotation)
  {
    hide ReadBoxes, GroupDescription, GroupMapping, Described, Mapped, ReadSeig, SeigEntry, Find;
    GroupsRead(rotation, count);
    var rest := ReadBoxes(GroupBoxes(rotation, count)).value;
    if GroupOf(rotation).Some? {
      var group := GroupOf(rotation).value;
      FindAfter(before, rest, SGPD);
      FindAfter(before, rest, SBGP);
      FindTwo(GroupDescription(group), GroupMapping(count));
      DescriptionReads(group);
      MappingReads(count, i);
      SeigReads(group);
    } else {
      FindAfter(before, rest, SGPD);
      FindNone(SGPD);
    }
  }

  lemma {:induction false} FindAfter(before: seq<Box>, rest: seq<Box>, name: Name)
    requires forall k :: 0 <= k < |before| ==> before[k].name != name
    ensures Find(before + rest, name) == Find(rest, name)
  {
    if before == [] {
      assert before + rest == rest;
    } else {
      FindAfter(before[1..], rest, name);
      assert (before + rest)[1..] == before[1..] + rest;
    }
  }

  lemma {:induction false} FindTwo(a: seq<byte>, b: seq<byte>)
    ensures Find([Box(SGPD, a), Box(SBGP, b)], SGPD) == Some(a) && Find([Box(SGPD, a), Box(SBGP, b)], SBGP) == Some(b)
  {
    assert [Box(SGPD, a), Box(SBGP, b)][1..] == [Box(SBGP, b)];
  }

  lemma {:induction false} FindNone(name: Name)
    ensures Find([], name) == None
  {
  }

  /** Every sample of an encrypted fragment is said to be under the keys of its rotation. */
  lemma {:induction false} EncryptedGroups(p: Part, maps: seq<seq<Subsample>>, rotation: Option<Rotation>, i: nat)
    requires Describable(maps) && i < |p.samples| <= U32_MAX && (GroupOf(rotation).Some? ==> PatternFits(GroupOf(rotation).value))
    ensures ReadBoxes(AuxExtra(p, maps, rotation)).Some?
    ensures ReadGroup(ReadBoxes(AuxExtra(p, maps, rotation)).value, i) == GroupOf(rotation)
  {
    hide ReadBoxes, AuxExtra, GroupBoxes, SencPayload, SaizPayload, SaioPayload, AuxSizes, ReadGroup, SizesFit;
    AuxExtraReads(p, maps, rotation);
    GroupsFound([Box(SENC, SencPayload(maps)), Box(SAIZ, SaizPayload(AuxSizes(maps))),
                 Box(SAIO, SaioPayload(AuxOffset(p, |PsshOf(rotation)|)))], rotation, |p.samples|, i);
  }
}
