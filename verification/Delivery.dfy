/**
 Finishing a segment once its bytes are read (src/cenc/segment.rs): samples encrypted, or decrypted
 and perhaps encrypted again, behind a header that tells a player how to undo it. The player here
 reads boxes and knows only its key and constant IV.
 */
module Delivery {
  import opened Common
  import opened Boxes
  import opened Cipher
  import opened Decryption
  import opened Subsamples
  import opened Segment
  import opened Samples
  import opened Fragment
  import opened Muxed
  import opened AuxInfo
  import opened SampleGroups

  // ----- A player -----

  function EntrySizes(entries: seq<TrunEntry>): (r: seq<nat>)
    ensures |r| == |entries|
  {
    seq(|entries|, i requires 0 <= i < |entries| => entries[i].size)
  }

  /** The maps of the first `n` samples, with the constant IV. */
  function PlanRead(file: seq<byte>, boxes: seq<Box>, iv: Block, n: nat): Option<Plan> {
    if n == 0 then Some([])
    else
      match (PlanRead(file, boxes, iv, n - 1), ReadMap(file, boxes, n - 1))
      case (Some(before), Some(subs)) => Some(before + [(iv, subs)])
      case _ => None
  }

  /** The samples of a fragment with one track, decrypted. */
  ghost function Play(file: seq<byte>, key: Protection, iv: Block): Option<seq<byte>> {
    match ReadBoxes(file)
    case None => None
    case Some(boxes) =>
      if |boxes| != 2 || boxes[0].name != MOOF || boxes[1].name != MDAT then None
      else
        match ReadMoof(boxes[0].payload)
        case None => None
        case Some((_, runs)) => if |runs| != 1 then None else PlayRun(file, runs[0], key, iv)
  }

  /** What a fragment with one track says of the keys of sample `i`. */
  ghost function PlayGroup(file: seq<byte>, i: nat): Option<SampleGroup> {
    match ReadBoxes(file)
    case None => None
    case Some(boxes) =>
      if boxes == [] then None
      else
        match ReadMoof(boxes[0].payload)
        case None => None
        case Some((_, runs)) => if |runs| != 1 then None else ReadGroup(runs[0].extra, i)
  }

  ghost function PlayRun(file: seq<byte>, run: TrackRun, key: Protection, iv: Block): Option<seq<byte>> {
    var sizes := EntrySizes(run.entries);
    var total := PayloadSize(sizes);
    if run.dataOffset < 0 || run.dataOffset + total > |file| then None
    else
      match PlanRead(file, run.extra, iv, |sizes|)
      case None => None
      case Some(plan) =>
        if !PlanFits(plan, sizes) then None
        else Some(SegmentApplied(key, false, file[run.dataOffset..run.dataOffset + total], sizes, plan))
  }

  // ----- Encrypted segments -----

  function SampleSizes(samples: seq<Sample>): (r: seq<nat>)
    ensures |r| == |samples|
  {
    seq(|samples|, i requires 0 <= i < |samples| => samples[i].size)
  }

  function MapsIn(plan: Plan): (r: seq<seq<Subsample>>)
    ensures |r| == |plan|
  {
    seq(|plan|, i requires 0 <= i < |plan| => plan[i].1)
  }

  lemma {:induction false} EntriesAt(kind: TrackKind, samples: seq<Sample>, i: nat)
    requires i < |samples|
    ensures EntriesOf(kind, samples)[i] == EntryOf(kind, samples[i])
  {
    if i < |samples| - 1 {
      EntriesAt(kind, samples[..|samples| - 1], i);
    }
  }

  lemma {:induction false} SizesRead(kind: TrackKind, samples: seq<Sample>)
    ensures EntrySizes(EntriesOf(kind, samples)) == SampleSizes(samples)
  {
    hide EntriesOf;
    forall i | 0 <= i < |samples| ensures EntrySizes(EntriesOf(kind, samples))[i] == SampleSizes(samples)[i] {
      EntriesAt(kind, samples, i);
    }
  }

  /** A reader that finds every map finds the plan. */
  lemma {:induction false} PlanIsRead(file: seq<byte>, boxes: seq<Box>, iv: Block, plan: Plan, n: nat)
    requires n <= |plan| && forall i :: 0 <= i < |plan| ==> plan[i].0 == iv
    requires forall i: nat :: i < |plan| ==> ReadMap(file, boxes, i) == Some(plan[i].1)
    ensures PlanRead(file, boxes, iv, n) == Some(plan[..n])
  {
    hide ReadMap;
    if n > 0 {
      PlanIsRead(file, boxes, iv, plan, n - 1);
      assert plan[..n] == plan[..n - 1] + [(iv, plan[n - 1].1)];
    }
  }

  /** The maps an encryption makes can be written. */
  lemma {:induction false} MapsAreTyped<P(!new)>(t: TrackProtection<P>, payload: seq<byte>, sizes: seq<nat>, plan: Plan)
    requires t.Valid() && MapsOf(t, payload, sizes, plan)
    ensures MapsTyped(MapsIn(plan)) && forall i :: 0 <= i < |plan| ==> plan[i].0 == t.iv
  {
    hide PayloadSize, SampleOf, NalMask, Mask, Span;
    var maps: seq<seq<Subsample>> := MapsIn(plan);
    forall i, j | 0 <= i < |maps| && 0 <= j < |maps[i]| ensures maps[i][j].clear <= U16_MAX && maps[i][j].protected <= U32_MAX {
      assert t.MapOf(SampleOf(payload, sizes, i), plan[i].1);
    }
  }

  /** A player of the finished fragment gets the payload back. */
  lemma {:induction false} PlaysBack<P(!new)>(p: Part, sequence: u32, t: TrackProtection<P>, rotation: Option<Rotation>,
                                              payload: seq<byte>, plan: Plan)
    requires p.Typed() && t.Valid() && t.cipher.Valid() && Beside(PsshOf(rotation))
    requires MapsOf(t, payload, SampleSizes(p.samples), plan) && PlanFits(plan, SampleSizes(p.samples))
    requires Describable(MapsIn(plan))
    requires HeaderFits(p, |PsshOf(rotation)|, |AuxExtra(p, MapsIn(plan), rotation)|, |payload|)
    ensures var sealed := SegmentApplied(t.Key(), true, payload, SampleSizes(p.samples), plan);
            var header := HeaderOf(sequence, PsshOf(rotation), [p], AuxExtra(p, MapsIn(plan), rotation), |payload|);
            Play(header + sealed, t.Key(), t.iv) == Some(payload)
  {
    hide Part.Typed, TrackProtection.Valid, TrackProtection.MapOf, PlanFits, SizesFit, SencPayload, SaizPayload, HeaderFits,
      SegmentApplied, AuxExtra, HeaderOf, MoofPayload, ReadBoxes, ReadMoof, ReadMap, MapsTyped, Beside, PlayRun, PayloadSize;
    var sizes, maps := SampleSizes(p.samples), MapsIn(plan);
    var sealed := SegmentApplied(t.Key(), true, payload, sizes, plan);
    var extra := AuxExtra(p, maps, rotation);
    var header := HeaderOf(sequence, PsshOf(rotation), [p], extra, |payload|);
    MapsAreTyped(t, payload, sizes, plan);
    EncryptedReadsBack(p, sequence, maps, rotation, sealed);
    var run := TrackRunOf(p, |header|, ReadBoxes(extra).value);
    RunPlaysBack(p, t, header, payload, plan, run);
  }

  lemma {:induction false} RunPlaysBack<P(!new)>(p: Part, t: TrackProtection<P>, header: seq<byte>, payload: seq<byte>, plan: Plan,
                                                 run: TrackRun)
    requires t.cipher.Valid() && run.entries == EntriesOf(p.kind, p.samples) && run.dataOffset == |header|
    requires PlanFits(plan, SampleSizes(p.samples)) && PayloadSize(SampleSizes(p.samples)) == |payload|
    requires forall i :: 0 <= i < |plan| ==> plan[i].0 == t.iv
    requires var sealed := SegmentApplied(t.Key(), true, payload, SampleSizes(p.samples), plan);
             forall i: nat :: i < |plan| ==> ReadMap(header + sealed, run.extra, i) == Some(plan[i].1)
    ensures var sealed := SegmentApplied(t.Key(), true, payload, SampleSizes(p.samples), plan);
            PlayRun(header + sealed, run, t.Key(), t.iv) == Some(payload)
  {
    hide SegmentApplied, ReadMap, PayloadSize, EntriesOf, EntrySizes, SampleSizes, PlanRead;
    var sizes := SampleSizes(p.samples);
    var sealed := SegmentApplied(t.Key(), true, payload, sizes, plan);
    var file := header + sealed;
    SizesRead(p.kind, p.samples);
    PlanIsRead(file, run.extra, t.iv, plan, |plan|);
    assert plan[..|plan|] == plan;
    assert file[|header|..|header| + |payload|] == sealed;
    SegmentRoundTrip(t.Key(), payload, sizes, plan);
  }

  lemma {:induction false} GroupsPlay<P(!new)>(p: Part, sequence: u32, t: TrackProtection<P>, rotation: Option<Rotation>,
                                               payload: seq<byte>, plan: Plan)
    requires p.Typed() && t.Valid() && Beside(PsshOf(rotation))
    requires MapsOf(t, payload, SampleSizes(p.samples), plan) && PlanFits(plan, SampleSizes(p.samples))
    requires Describable(MapsIn(plan))
    requires HeaderFits(p, |PsshOf(rotation)|, |AuxExtra(p, MapsIn(plan), rotation)|, |payload|)
    ensures var sealed := SegmentApplied(t.Key(), true, payload, SampleSizes(p.samples), plan);
            var header := HeaderOf(sequence, PsshOf(rotation), [p], AuxExtra(p, MapsIn(plan), rotation), |payload|);
            (GroupOf(rotation).Some? ==> PatternFits(GroupOf(rotation).value)) ==>
              forall i: nat :: i < |p.samples| ==> PlayGroup(header + sealed, i) == GroupOf(rotation)
  {
    hide Part.Typed, TrackProtection.Valid, TrackProtection.MapOf, SizesFit, SencPayload, SaizPayload, HeaderFits, SegmentApplied,
      AuxExtra, HeaderOf, MoofPayload, ReadBoxes, ReadMoof, ReadMap, MapsTyped, Beside, PayloadSize, ReadGroup, TrackRunOf;
    var maps := MapsIn(plan);
    var sealed := SegmentApplied(t.Key(), true, payload, SampleSizes(p.samples), plan);
    MapsAreTyped(t, payload, SampleSizes(p.samples), plan);
    EncryptedReadsBack(p, sequence, maps, rotation, sealed);
    if GroupOf(rotation).Some? ==> PatternFits(GroupOf(rotation).value) {
      forall i: nat | i < |p.samples|
        ensures ReadGroup(ReadBoxes(AuxExtra(p, maps, rotation)).value, i) == GroupOf(rotation)
      {
        EncryptedGroups(p, maps, rotation, i);
      }
    }
    ExtraIs(p, |HeaderOf(sequence, PsshOf(rotation), [p], AuxExtra(p, maps, rotation), |payload|)|, ReadBoxes(AuxExtra(p, maps, rotation)).value);
  }

  lemma {:induction false} ExtraIs(p: Part, offset: nat, extra: seq<Box>)
    ensures TrackRunOf(p, offset, extra).extra == extra
  {
  }

  /** How many subsamples each sample of a payload takes. */
  ghost function CountsOf<P(!new)>(t: TrackProtection<P>, payload: seq<byte>, sizes: seq<nat>): (r: seq<nat>)
    requires t.Valid() && PayloadSize(sizes) == |payload|
    ensures |r| == |sizes|
  {
    seq(|sizes|, i requires 0 <= i < |sizes| => t.EntryCount(SampleOf(payload, sizes, i)))
  }

  /** What `PendingCbcs::finish` can finish: encryptable samples whose boxes fit their fields. */
  ghost predicate CanFinish<P(!new)>(p: Part, t: TrackProtection<P>, rotation: Option<Rotation>, payload: seq<byte>)
    requires t.Valid()
  {
    var sizes := SampleSizes(p.samples);
    && Encryptable(t, payload, sizes)
    && var counts := CountsOf(t, payload, sizes);
       var extra := AuxLength(counts) + |GroupBoxes(rotation, |p.samples|)|;
       CountsFit(counts) && HeaderFits(p, |PsshOf(rotation)|, extra, |payload|)
  }

  lemma {:induction false} FinishFits<P(!new)>(p: Part, t: TrackProtection<P>, rotation: Option<Rotation>,
                                              payload: seq<byte>, plan: Plan)
    requires t.Valid() && MapsOf(t, payload, SampleSizes(p.samples), plan) && Encryptable(t, payload, SampleSizes(p.samples))
    ensures var maps := MapsIn(plan);
            CanFinish(p, t, rotation, payload)
            <==> Describable(maps) && (rotation.Some? ==> |p.samples| <= U32_MAX)
                 && HeaderFits(p, |PsshOf(rotation)|, |AuxExtra(p, maps, rotation)|, |payload|)
  {
    hide PayloadSize, SampleOf, NalMask, Mask, Span, HeaderFits, GroupBoxes, AuxBoxes, SizesFit, SencPayload, SaizPayload,
      SencLength, SaizLength, AuxLength, Entries;
    var sizes := SampleSizes(p.samples);
    var maps: seq<seq<Subsample>> := MapsIn(plan);
    assert Counts(maps) == CountsOf(t, payload, sizes) by {
      forall i | 0 <= i < |plan| ensures Counts(maps)[i] == CountsOf(t, payload, sizes)[i] {
        assert t.MapOf(SampleOf(payload, sizes, i), plan[i].1);
      }
    }
    AuxBoxesAreLong(maps, AuxOffset(p, |PsshOf(rotation)|));
  }

  lemma {:induction false} MustEncrypt<P(!new)>(p: Part, t: TrackProtection<P>, rotation: Option<Rotation>, payload: seq<byte>)
    requires t.Valid()
    ensures CanFinish(p, t, rotation, payload) ==> Encryptable(t, payload, SampleSizes(p.samples))
  {
  }

  /** `PendingCbcs::finish`: whatever it finishes plays back as the payload it was given. */
  method FinishCbcs<P(!new)>(p: Part, sequence: u32, t: TrackProtection<P>, rotation: Option<Rotation>, payload: array<byte>)
    returns (r: Result<seq<byte>>)
    requires p.Typed() && t.Valid() && t.cipher.Valid() && Beside(PsshOf(rotation))
    modifies payload
    ensures r.Ok? <==> CanFinish(p, t, rotation, old(payload[..]))
    ensures r.Ok? ==> Play(r.value, t.Key(), t.iv) == Some(old(payload[..]))
    ensures r.Ok? && (GroupOf(rotation).Some? ==> PatternFits(GroupOf(rotation).value)) ==>
              forall i: nat :: i < |p.samples| ==> PlayGroup(r.value, i) == GroupOf(rotation)
  {
    hide Part.Typed, TrackProtection.Valid, MapsOf, PlanFits, HeaderFits, SegmentApplied, AuxExtra, HeaderOf, Beside, Play,
      Encryptable, LeavesRest, SizesFit, SencPayload, SaizPayload, CanFinish;
    ghost var pre := payload[..];
    MustEncrypt(p, t, rotation, pre);
    var plan :- EncryptSegment(t, payload, SampleSizes(p.samples));
    FinishFits(p, t, rotation, pre, plan);
    var header :- EncryptedFragmentHeader(p, sequence, MapsIn(plan), payload.Length, rotation);
    PlaysBack(p, sequence, t, rotation, pre, plan);
    GroupsPlay(p, sequence, t, rotation, pre, plan);
    return Ok(header + payload[..]);
  }

  // ----- Clear segments of a rotating asset -----

  /** `PendingClear::finish`: the payload as it is, in a fragment whose boxes read back. */
  method FinishClear(p: Part, sequence: u32, rotation: Rotation, payload: seq<byte>) returns (r: Result<seq<byte>>)
    requires p.Typed() && Beside(rotation.pssh)
    ensures r.Ok? <==>
              && |p.samples| <= U32_MAX
              && HeaderFits(p, |rotation.pssh|, |GroupBoxes(Some(rotation), |p.samples|)|, |payload|)
    ensures r.Ok? ==>
              var extra := GroupBoxes(Some(rotation), |p.samples|);
              && |r.value| >= |payload| && ReadBoxes(extra).Some?
              && var offset := |r.value| - |payload|;
                 var moof := MoofPayload(sequence, rotation.pssh, [p], [offset], extra);
                 && r.value[offset..] == payload
                 && ReadBoxes(r.value) == Some([Box(MOOF, moof), Box(MDAT, payload)])
                 && ReadMoof(moof) == Some((sequence, [TrackRunOf(p, offset, ReadBoxes(extra).value)]))
    ensures r.Ok? && (rotation.group.Some? ==> PatternFits(rotation.group.value)) ==>
              forall i: nat :: i < |p.samples| ==>
                                 ReadGroup(ReadBoxes(GroupBoxes(Some(rotation), |p.samples|)).value, i) == rotation.group
  {
    hide Part.Typed, ReadGroup, PatternFits, HeaderFits, GroupBoxes, HeaderOf, MoofPayload, ReadBoxes, ReadMoof, TrackRunOf, Beside, BoxBytes, ToBytes, MoofLength;
    var header :- ClearFragmentHeader(p, sequence, rotation, |payload|);
    GroupsRead(Some(rotation), |p.samples|);
    HeaderReads(p, sequence, rotation.pssh, GroupBoxes(Some(rotation), |p.samples|), payload);
    if rotation.group.Some? ==> PatternFits(rotation.group.value) {
      forall i: nat | i < |p.samples|
        ensures ReadGroup(ReadBoxes(GroupBoxes(Some(rotation), |p.samples|)).value, i) == rotation.group
      {
        GroupsFound([], Some(rotation), |p.samples|, i);
        assert [] + ReadBoxes(GroupBoxes(Some(rotation), |p.samples|)).value == ReadBoxes(GroupBoxes(Some(rotation), |p.samples|)).value;
      }
    }
    return Ok(header + payload);
  }

  // ----- Protected sources -----

  /** What follows decryption: nothing, or encryption under other keys. */
  datatype Next<!P(!new)> =
    | Plain(header: seq<byte>)
    | Again(part: Part, sequence: u32, protection: TrackProtection<P>, rotation: Option<Rotation>)
  {
    ghost predicate Valid() {
      Again? ==> part.Typed() && protection.Valid() && protection.cipher.Valid() && Beside(PsshOf(rotation))
    }

    /** Whether decrypted bytes can be finished this way. */
    ghost predicate Takes(shown: seq<byte>)
      requires Valid()
    {
      Again? ==> CanFinish(part, protection, rotation, shown)
    }
  }

  /** The bytes that a readable source's payload stands for. */
  ghost function Shown(s: SourceProtection, first: nat, payload: seq<byte>, sizes: seq<nat>): seq<byte>
    requires PayloadSize(sizes) <= |payload| && Readable(s, first, sizes)
  {
    ReadablePlan(s, first, sizes);
    Opened(s, first, payload, sizes)
  }

  /**
   What finishing a protected payload gives: a segment exactly when the source says how to read every
   sample and what follows takes the decrypted bytes, and then one that shows those bytes.
   */
  ghost predicate Finished<P(!new)>(s: SourceProtection, first: nat, sizes: seq<nat>, next: Next<P>, payload: seq<byte>,
                                    r: Result<seq<byte>>)
    requires next.Valid()
  {
    && (r.Ok? <==>
          PayloadSize(sizes) <= |payload| && Readable(s, first, sizes) && next.Takes(Shown(s, first, payload, sizes)))
    && (r.Ok? ==>
          var shown := Shown(s, first, payload, sizes);
          match next
          case Plain(header) => r.value == header + shown
          case Again(_, _, protection, _) => Play(r.value, protection.Key(), protection.iv) == Some(shown))
  }

  /**
   `PendingDecrypt::finish`: the source's samples decrypted, and then either behind the clear
   fragment's header or encrypted again so that a player gets exactly those decrypted samples.
   */
  method FinishDecrypt<P(!new)>(s: SourceProtection, first: nat, sizes: seq<nat>, next: Next<P>, payload: array<byte>)
    returns (r: Result<seq<byte>>)
    requires next.Valid()
    modifies payload
    ensures Finished(s, first, sizes, next, old(payload[..]), r)
  {
    hide PlanFits, Readable, Opened, PayloadSize, SourcePlan, Play, Part.Typed, TrackProtection.Valid, Beside, CanFinish;
    var _ :- DecryptSegment(s, first, payload, sizes);
    match next
    case Plain(header) => return Ok(header + payload[..]);
    case Again(part, sequence, protection, rotation) => r := FinishCbcs(part, sequence, protection, rotation, payload);
  }

  /**
   The samples `from..until` of a track cut from a file's index in any way: each is decrypted with
   the IV and map that the file's tables hold at its own position among the file's samples.
   */
  ghost predicate UsesOwnTables(s: SourceProtection, file: SampleIndex, cuts: seq<Cut>, from: nat, until: nat)
    requires file.Valid() && file.tables.Ordered() && CutIndex(file, cuts).Some?
    requires from <= until <= CutIndex(file, cuts).value.Len()
  {
    forall j :: 0 <= j < until - from ==> UsesOwnTable(s, file, cuts, from, until, j)
  }

  ghost predicate UsesOwnTable(s: SourceProtection, file: SampleIndex, cuts: seq<Cut>, from: nat, until: nat, j: nat)
    requires file.Valid() && file.tables.Ordered() && CutIndex(file, cuts).Some?
    requires from + j < until <= CutIndex(file, cuts).value.Len()
  {
    var track := CutIndex(file, cuts).value;
    var k := track.start + from + j;
    var (iv, subs) := SourcePlan(s, track.start + from, until - from)[j];
    && k < file.Len() && track.List()[from + j] == Moved(file.List()[k], ShiftSum(cuts))
    && subs == s.aux.Subs(k) && (s.IvOf(k).Some? ==> iv == s.IvOf(k).value)
  }

  lemma {:induction false} OwnTables(s: SourceProtection, file: SampleIndex, cuts: seq<Cut>, from: nat, until: nat)
    requires file.Valid() && file.tables.Ordered() && file.start == 0 && CutIndex(file, cuts).Some?
    requires from <= until <= CutIndex(file, cuts).value.Len()
    ensures UsesOwnTables(s, file, cuts, from, until)
  {
    hide CutIndex, ShiftSum, SourcePlan, SampleIndex.List, SampleIndex.Valid, SourceProtection.IvOf, AuxTable.Subs;
    var track := CutIndex(file, cuts).value;
    forall j | 0 <= j < until - from ensures UsesOwnTable(s, file, cuts, from, until, j) {
      WindowNamesSource(file, cuts, from + j);
      SourcePlanAt(s, track.start + from, until - from, j);
      assert track.start + from + j == track.start + (from + j);
    }
  }

  /** A segment of a track that was cut from a file, its first sample named as `prepared` names it. */
  method FinishTrackSegment<P(!new)>(s: SourceProtection, ghost file: SampleIndex, ghost cuts: seq<Cut>, track: SampleIndex,
                                     from: nat, until: nat, next: Next<P>, payload: array<byte>)
    returns (r: Result<seq<byte>>)
    requires file.Valid() && file.tables.Ordered() && file.start == 0 && CutIndex(file, cuts) == Some(track)
    requires from <= until <= track.Len() && next.Valid()
    modifies payload
    ensures UsesOwnTables(s, file, cuts, from, until)
    ensures Finished(s, track.start + from, SampleSizes(track.List()[from..until]), next, old(payload[..]), r)
  {
    hide CutIndex, SampleIndex.List, UsesOwnTables, Finished, SampleSizes, Next.Valid;
    OwnTables(s, file, cuts, from, until);
    r := FinishDecrypt(s, track.start + from, SampleSizes(track.List()[from..until]), next, payload);
  }
}
