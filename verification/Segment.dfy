/**
 Encrypting and decrypting the samples of one segment in place (src/cenc/segment.rs): the payload
 half of `PendingCbcs::finish` and `PendingDecrypt::finish`.
 */
module Segment {
  import opened Common
  import opened Cipher
  import opened Decryption
  import opened Subsamples

  function PayloadSize(sizes: seq<nat>): nat {
    if sizes == [] then 0 else PayloadSize(sizes[..|sizes| - 1]) + sizes[|sizes| - 1]
  }

  /** How each sample is protected: its IV and its subsamples. */
  type Plan = seq<(Block, seq<Subsample>)>

  ghost predicate PlanFits(plan: Plan, sizes: seq<nat>) {
    && |plan| == |sizes|
    && forall i :: 0 <= i < |plan| ==> plan[i].1 == [] || Span(plan[i].1) == sizes[i]
  }

  /** The samples of a payload, each encrypted or decrypted as its plan says. */
  function SegmentApplied(k: Protection, seal: bool, payload: seq<byte>, sizes: seq<nat>, plan: Plan): (r: seq<byte>)
    requires PayloadSize(sizes) == |payload| && PlanFits(plan, sizes)
    ensures |r| == |payload|
    decreases |sizes|
  {
    if sizes == [] then []
    else
      var n := |sizes| - 1;
      var at := |payload| - sizes[n];
      SegmentApplied(k, seal, payload[..at], sizes[..n], plan[..n])
      + SampleApplied(k, plan[n].0, seal, payload[at..], plan[n].1)
  }

  lemma {:induction false} SegmentPush(k: Protection, seal: bool, payload: seq<byte>, sizes: seq<nat>, plan: Plan,
                                       iv: Block, subs: seq<Subsample>, sample: seq<byte>)
    requires PayloadSize(sizes) == |payload| && PlanFits(plan, sizes) && (subs == [] || Span(subs) == |sample|)
    ensures PayloadSize(sizes + [|sample|]) == |payload + sample| && PlanFits(plan + [(iv, subs)], sizes + [|sample|])
    ensures SegmentApplied(k, seal, payload + sample, sizes + [|sample|], plan + [(iv, subs)])
            == SegmentApplied(k, seal, payload, sizes, plan) + SampleApplied(k, iv, seal, sample, subs)
  {
    hide SampleApplied, Span;
    var n := |sizes|;
    assert (sizes + [|sample|])[..n] == sizes && (plan + [(iv, subs)])[..n] == plan;
    assert (payload + sample)[..|payload|] == payload && (payload + sample)[|payload|..] == sample;
  }

  /** Decrypting a segment under the plan it was encrypted under gives back every payload byte. */
  lemma {:induction false} SegmentRoundTrip(k: Protection, payload: seq<byte>, sizes: seq<nat>, plan: Plan)
    requires k.cipher.Valid() && PayloadSize(sizes) == |payload| && PlanFits(plan, sizes)
    ensures SegmentApplied(k, false, SegmentApplied(k, true, payload, sizes, plan), sizes, plan) == payload
    decreases |sizes|
  {
    hide SampleApplied, Span;
    if sizes != [] {
      var n := |sizes| - 1;
      var at := |payload| - sizes[n];
      var front := SegmentApplied(k, true, payload[..at], sizes[..n], plan[..n]);
      var back := SampleApplied(k, plan[n].0, true, payload[at..], plan[n].1);
      assert (front + back)[..at] == front && (front + back)[at..] == back;
      SegmentRoundTrip(k, payload[..at], sizes[..n], plan[..n]);
      SampleRoundTrip(k, plan[n].0, payload[at..], plan[n].1);
    }
  }

  lemma {:induction false} SizesPush(sizes: seq<nat>, i: nat)
    requires i < |sizes|
    ensures PayloadSize(sizes[..i + 1]) == PayloadSize(sizes[..i]) + sizes[i]
    ensures PayloadSize(sizes[..i + 1]) <= PayloadSize(sizes)
    decreases |sizes|
  {
    assert sizes[..i + 1][..i] == sizes[..i];
    if i + 1 < |sizes| {
      SizesPush(sizes[..|sizes| - 1], i);
      assert sizes[..|sizes| - 1][..i] == sizes[..i] && sizes[..|sizes| - 1][..i + 1] == sizes[..i + 1];
    } else {
      assert sizes[..i + 1] == sizes;
    }
  }

  /** The bytes of sample `i` of a payload. */
  function SampleOf(payload: seq<byte>, sizes: seq<nat>, i: nat): (r: seq<byte>)
    requires i < |sizes| && PayloadSize(sizes) <= |payload|
    ensures |r| == sizes[i]
  {
    SizesPush(sizes, i);
    payload[PayloadSize(sizes[..i])..PayloadSize(sizes[..i]) + sizes[i]]
  }

  lemma {:induction false} SampleSplits(front: seq<byte>, last: seq<byte>, sizes: seq<nat>, i: nat)
    requires i < |sizes| && PayloadSize(sizes) == |front + last| && |last| == sizes[|sizes| - 1]
    ensures PayloadSize(sizes[..|sizes| - 1]) == |front|
    ensures SampleOf(front + last, sizes, i) == if i < |sizes| - 1 then SampleOf(front, sizes[..|sizes| - 1], i) else last
  {
    hide PayloadSize;
    var n := |sizes| - 1;
    SizesPush(sizes, n);
    assert sizes[..n + 1] == sizes;
    if i < n {
      assert sizes[..n][..i] == sizes[..i];
      SizesPush(sizes[..n], i);
    }
  }

  /** Sample `i` of what was applied to a payload is what was applied to its sample `i`. */
  lemma {:induction false} AppliedAt(k: Protection, seal: bool, payload: seq<byte>, sizes: seq<nat>, plan: Plan, i: nat)
    requires PayloadSize(sizes) == |payload| && PlanFits(plan, sizes) && i < |sizes|
    ensures SampleOf(SegmentApplied(k, seal, payload, sizes, plan), sizes, i)
            == SampleApplied(k, plan[i].0, seal, SampleOf(payload, sizes, i), plan[i].1)
    decreases |sizes|
  {
    hide SampleApplied, Span, PayloadSize, SampleOf;
    var n := |sizes| - 1;
    var at := |payload| - sizes[n];
    SizesPush(sizes, n);
    assert sizes[..n + 1] == sizes;
    var front := SegmentApplied(k, seal, payload[..at], sizes[..n], plan[..n]);
    var last := SampleApplied(k, plan[n].0, seal, payload[at..], plan[n].1);
    assert SegmentApplied(k, seal, payload, sizes, plan) == front + last;
    SampleSplits(payload[..at], payload[at..], sizes, i);
    SampleSplits(front, last, sizes, i);
    assert payload[..at] + payload[at..] == payload;
    if i < n {
      AppliedAt(k, seal, payload[..at], sizes[..n], plan[..n], i);
    }
  }

  // ----- Encrypting -----

  /** The ranges of one sample encrypted in place, each from the constant IV. */
  method SealSample(k: Protection, iv: Block, data: array<byte>, lo: nat, hi: nat, subs: seq<Subsample>)
    requires lo <= hi <= data.Length && k.scheme.Cbcs? && (subs == [] || Span(subs) == hi - lo)
    modifies data
    ensures data[..] == Spliced(old(data[..]), lo, SampleApplied(k, iv, true, old(data[..])[lo..hi], subs))
  {
    hide Spliced, SubsApplied, RangesFrom, OpenedTo, SampleApplied, Encrypted, Decrypted, Span;
    ghost var pre := data[..];
    ghost var target := SampleApplied(k, iv, true, pre[lo..hi], subs);
    ghost var all := if subs == [] then [Subsample(0, hi - lo)] else subs;
    ghost var carry := Carry(0, iv);
    OpenStart(k, iv, true, pre, lo, hi, subs);
    if subs == [] {
      WholeSealed(k, iv, pre[lo..hi]);
      EncryptRange(k.cipher, iv, data, lo, hi, k.pattern);
      return;
    }
    var at := 0;
    ghost var done: seq<byte> := [];
    SpliceNothing(pre, lo);
    for i := 0 to |subs|
      invariant at == |done| && lo + at <= |pre| && data[..] == Spliced(pre, lo, done)
      invariant OpenedTo(k, iv, true, carry, pre, lo, hi, done, subs, i, target)
    {
      SealStep(k, iv, pre, lo, hi, done, subs, i, target);
      at := at + subs[i].clear;
      var end := at + subs[i].protected;
      ghost var sealed := Encrypted(k.cipher, pre[lo + at..lo + end], 0, iv, k.pattern).bytes;
      SpliceRange(pre, lo, done, lo + at, lo + end, sealed);
      EncryptRange(k.cipher, iv, data, lo + at, lo + end, k.pattern);
      done := done + pre[lo + |done|..lo + at] + sealed;
      at := end;
    }
    OpenEnd(k, iv, true, carry, pre, lo, hi, done, subs, target);
  }

  lemma {:induction false} WholeSealed(k: Protection, iv: Block, data: seq<byte>)
    requires k.scheme.Cbcs?
    ensures SampleApplied(k, iv, true, data, []) == Encrypted(k.cipher, data, 0, iv, k.pattern).bytes
  {
  }

  lemma {:induction false} SealStep(k: Protection, iv: Block, pre: seq<byte>, lo: nat, hi: nat,
                                    done: seq<byte>, subs: seq<Subsample>, i: nat, target: seq<byte>)
    requires k.scheme.Cbcs? && i < |subs|
    requires OpenedTo(k, iv, true, Carry(0, iv), pre, lo, hi, done, subs, i, target)
    ensures var start := |done| + subs[i].clear;
            var end := start + subs[i].protected;
            && lo + end <= hi <= |pre|
            && OpenedTo(k, iv, true, Carry(0, iv), pre, lo, hi,
                        done + pre[lo + |done|..lo + start] + Encrypted(k.cipher, pre[lo + start..lo + end], 0, iv, k.pattern).bytes,
                        subs, i + 1, target)
  {
    hide SubsApplied, RangesFrom, Span, Encrypted, Decrypted;
    RangesAt(subs, 0, i);
    OpenStep(k, iv, true, Carry(0, iv), pre, lo, hi, done, subs, i, target);
  }

  /** What a track's segments are encrypted with. */
  datatype TrackProtection<!P(!new)> = TrackProtection(cipher: BlockCipher, iv: Block, video: Option<(Codec<P>, P)>) {
    function Key(): Protection {
      Protection(cipher, Cbcs, if video.Some? then VIDEO else FULL)
    }

    ghost predicate Valid() {
      video.Some? ==> video.value.0.Valid()
    }

    /** Whether `subs` is the map of a sample: its slices past their headers, or all of it for audio. */
    ghost predicate MapOf(sample: seq<byte>, subs: seq<Subsample>)
      requires Valid()
    {
      match video
      case None => subs == []
      case Some(v) =>
        && Encrypts(sample) && Mask(subs) == NalMask(v.0, v.1, sample).value
        && Span(subs) == |sample| && |subs| == EntryCount(sample) && Fits(subs)
        && (subs == [] ==> sample == [])
    }

    /** Whether a sample can be encrypted: its NAL units can be told apart and described. */
    ghost predicate Encrypts(sample: seq<byte>)
      requires Valid()
    {
      video.Some? ==> NalMask(video.value.0, video.value.1, sample).Some? && EntryCount(sample) <= MAX_SUBSAMPLES
    }

    /** How many subsamples its map has. */
    ghost function EntryCount(sample: seq<byte>): nat
      requires Valid()
    {
      match video
      case None => 0
      case Some(v) => Entries(v.0, v.1, 0, sample)
    }

    /** Whether encryption may change byte `o`: of a slice past its header, in a block the pattern selects. */
    ghost predicate Reaches(sample: seq<byte>, subs: seq<Subsample>, o: nat)
      requires Valid() && MapOf(sample, subs) && o < |sample|
    {
      match video
      case None => BlockTouched(FULL, |sample|, o)
      case Some(v) => NalMask(v.0, v.1, sample).value[o] && Touched(VIDEO, subs, o)
    }
  }

  /** The subsample maps of the samples of `payload`, one after the other. */
  ghost predicate MapsOf<P(!new)>(t: TrackProtection<P>, payload: seq<byte>, sizes: seq<nat>, plan: Plan)
    requires t.Valid()
  {
    && |plan| == |sizes| && PayloadSize(sizes) == |payload|
    && forall i :: 0 <= i < |plan| ==> plan[i].0 == t.iv && t.MapOf(SampleOf(payload, sizes, i), plan[i].1)
  }

  /** Whether the samples of `payload` can all be encrypted. */
  ghost predicate Encryptable<P(!new)>(t: TrackProtection<P>, payload: seq<byte>, sizes: seq<nat>)
    requires t.Valid()
  {
    PayloadSize(sizes) == |payload| && forall i :: 0 <= i < |sizes| ==> t.Encrypts(SampleOf(payload, sizes, i))
  }

  /** `after` differs from `before` at most in the slices' selected blocks. */
  ghost predicate LeavesRest<P(!new)>(t: TrackProtection<P>, before: seq<byte>, after: seq<byte>, sizes: seq<nat>, plan: Plan)
    requires t.Valid() && MapsOf(t, before, sizes, plan)
  {
    && |after| == |before|
    && forall i, o :: 0 <= i < |sizes| && 0 <= o < sizes[i] && !t.Reaches(SampleOf(before, sizes, i), plan[i].1, o) ==>
                        SampleOf(after, sizes, i)[o] == SampleOf(before, sizes, i)[o]
  }

  /** `PendingCbcs::finish`, up to the fragment header: every sample encrypted in place. */
  method EncryptSegment<P(!new)>(t: TrackProtection<P>, payload: array<byte>, sizes: seq<nat>)
    returns (r: Result<Plan>)
    requires t.Valid()
    modifies payload
    ensures r.Ok? <==> Encryptable(t, old(payload[..]), sizes)
    ensures r.Ok? ==> MapsOf(t, old(payload[..]), sizes, r.value) && PlanFits(r.value, sizes)
    ensures r.Ok? ==> payload[..] == SegmentApplied(t.Key(), true, old(payload[..]), sizes, r.value)
    ensures r.Ok? ==> LeavesRest(t, old(payload[..]), payload[..], sizes, r.value)
    ensures PayloadSize(sizes) != payload.Length ==> payload[..] == old(payload[..])
  {
    hide Spliced, SegmentApplied, SampleApplied, PayloadSize, MapsOf, PlanFits, Span, NalMask, Mask, Entries, LeavesRest;
    ghost var pre := payload[..];
    var total := 0;
    NoSizes();
    assert sizes[..|sizes|] == sizes;
    for i := 0 to |sizes|
      invariant total == PayloadSize(sizes[..i]) && payload[..] == pre
    {
      SizesPush(sizes, i);
      total := total + sizes[i];
    }
    if total != payload.Length {
      return Err;
    }
    var plan: Plan := [];
    var offset := 0;
    ghost var done: seq<byte> := [];
    NothingSealed(t, pre, sizes);
    SpliceNothing(pre, 0);
    for i := 0 to |sizes|
      invariant offset == PayloadSize(sizes[..i]) == |done| <= |pre|
      invariant payload[..] == Spliced(pre, 0, done)
      invariant Sealed(t, pre, sizes, plan, i, done)
    {
      SizesPush(sizes, i);
      ghost var sample := pre[offset..offset + sizes[i]];
      SpliceAgain(pre, 0, done, sample);
      assert payload[..][offset..offset + sizes[i]] == sample == SampleOf(pre, sizes, i);
      var bytes := payload[offset..offset + sizes[i]];
      var subs: seq<Subsample> := [];
      if t.video.Some? {
        subs :- SubsamplesOf(t.video.value.0, t.video.value.1, bytes);
        MapTiles(t.video.value.0, t.video.value.1, bytes, subs);
      }
      assert t.MapOf(sample, subs);
      SealedStep(t, pre, sizes, plan, i, done, subs);
      SpliceAgain(pre, 0, done, SampleApplied(t.Key(), t.iv, true, sample, subs));
      SealSample(t.Key(), t.iv, payload, offset, offset + sizes[i], subs);
      done := done + SampleApplied(t.Key(), t.iv, true, sample, subs);
      plan := plan + [(t.iv, subs)];
      offset := offset + sizes[i];
    }
    SealedAll(t, pre, sizes, plan, done);
    MapsAreMade(t, pre, sizes, plan);
    RestIsLeft(t, pre, sizes, plan);
    return Ok(plan);
  }

  lemma {:induction false} MapsAreMade<P(!new)>(t: TrackProtection<P>, payload: seq<byte>, sizes: seq<nat>, plan: Plan)
    requires t.Valid() && MapsOf(t, payload, sizes, plan)
    ensures Encryptable(t, payload, sizes)
  {
    hide PayloadSize, SampleOf, Span, Mask, NalMask;
    forall i | 0 <= i < |sizes| ensures t.Encrypts(SampleOf(payload, sizes, i)) {
      assert t.MapOf(SampleOf(payload, sizes, i), plan[i].1);
    }
  }

  lemma {:induction false} NoSizes()
    ensures PayloadSize([]) == 0
  {
  }

  /** The first `i` samples encrypted: `done` are their bytes, `plan` their maps. */
  ghost predicate Sealed<P(!new)>(t: TrackProtection<P>, pre: seq<byte>, sizes: seq<nat>, plan: Plan, i: nat, done: seq<byte>)
    requires t.Valid()
  {
    && i == |plan| <= |sizes| && PayloadSize(sizes[..i]) <= |pre|
    && MapsOf(t, pre[..PayloadSize(sizes[..i])], sizes[..i], plan) && PlanFits(plan, sizes[..i])
    && done == SegmentApplied(t.Key(), true, pre[..PayloadSize(sizes[..i])], sizes[..i], plan)
  }

  lemma {:induction false} NothingSealed<P(!new)>(t: TrackProtection<P>, pre: seq<byte>, sizes: seq<nat>)
    requires t.Valid()
    ensures Sealed(t, pre, sizes, [], 0, []) && PayloadSize(sizes[..0]) == 0
  {
  }

  lemma {:induction false} SealedAll<P(!new)>(t: TrackProtection<P>, pre: seq<byte>, sizes: seq<nat>, plan: Plan, done: seq<byte>)
    requires t.Valid() && Sealed(t, pre, sizes, plan, |sizes|, done) && PayloadSize(sizes) == |pre|
    ensures MapsOf(t, pre, sizes, plan) && PlanFits(plan, sizes)
    ensures done == SegmentApplied(t.Key(), true, pre, sizes, plan)
    ensures Spliced(pre, 0, done) == done
  {
    hide MapsOf, PlanFits, SegmentApplied, PayloadSize;
    assert sizes[..|sizes|] == sizes && pre[..|pre|] == pre;
  }

  lemma {:induction false} SealedStep<P(!new)>(t: TrackProtection<P>, pre: seq<byte>, sizes: seq<nat>, plan: Plan, i: nat,
                                              done: seq<byte>, subs: seq<Subsample>)
    requires t.Valid() && Sealed(t, pre, sizes, plan, i, done) && i < |sizes|
    requires PayloadSize(sizes[..i + 1]) == PayloadSize(sizes[..i]) + sizes[i] <= |pre|
    requires t.MapOf(pre[PayloadSize(sizes[..i])..PayloadSize(sizes[..i]) + sizes[i]], subs)
    ensures var sample := pre[PayloadSize(sizes[..i])..PayloadSize(sizes[..i]) + sizes[i]];
            && (subs == [] || Span(subs) == |sample|)
            && Sealed(t, pre, sizes, plan + [(t.iv, subs)], i + 1, done + SampleApplied(t.Key(), t.iv, true, sample, subs))
  {
    hide SegmentApplied, SampleApplied, PayloadSize, Span, NalMask, Mask, MapsOf;
    var at := PayloadSize(sizes[..i]);
    var sample := pre[at..at + sizes[i]];
    SegmentPush(t.Key(), true, pre[..at], sizes[..i], plan, t.iv, subs, sample);
    assert pre[..at] + sample == pre[..at + sizes[i]] && sizes[..i] + [|sample|] == sizes[..i + 1];
    MapsPush(t, pre[..at], sizes[..i], plan, sample, subs);
  }

  lemma {:induction false} MapsPush<P(!new)>(t: TrackProtection<P>, payload: seq<byte>, sizes: seq<nat>, plan: Plan,
                                            sample: seq<byte>, subs: seq<Subsample>)
    requires t.Valid() && MapsOf(t, payload, sizes, plan) && t.MapOf(sample, subs)
    requires PayloadSize(sizes + [|sample|]) == |payload + sample|
    ensures MapsOf(t, payload + sample, sizes + [|sample|], plan + [(t.iv, subs)])
  {
    hide PayloadSize, TrackProtection.MapOf;
    var all, plan', sizes' := payload + sample, plan + [(t.iv, subs)], sizes + [|sample|];
    forall i | 0 <= i < |plan'|
      ensures plan'[i].0 == t.iv && t.MapOf(SampleOf(all, sizes', i), plan'[i].1)
    {
      assert sizes'[..i] == sizes[..i] && sizes[..|sizes|] == sizes;
      if i < |plan| {
        SizesPush(sizes, i);
        var from, to := PayloadSize(sizes[..i]), PayloadSize(sizes[..i]) + sizes[i];
        assert all[from..to] == payload[from..to];
        assert SampleOf(payload, sizes, i) == payload[from..to];
      } else {
        assert all[|payload|..|payload| + |sample|] == sample;
      }
    }
  }

  // ----- What encryption leaves alone -----

  /** Whether the pattern reaches byte `i` of a protected range: it lies in a selected whole block. */
  predicate BlockTouched(p: Pattern, length: nat, i: nat) {
    i / 16 < length / 16 && p.Selects(i / 16)
  }

  predicate Touched(p: Pattern, subs: seq<Subsample>, i: nat)
    requires i < Span(subs)
    decreases |subs|
  {
    var from, to := subs[0].clear, subs[0].clear + subs[0].protected;
    if i < from then false
    else if i < to then BlockTouched(p, subs[0].protected, i - from)
    else Touched(p, subs[1..], i - to)
  }

  /** `cbcs` changes no byte outside the selected whole blocks of the protected ranges. */
  lemma {:induction false} UntouchedStay(k: Protection, iv: Block, carry: Carry, data: seq<byte>, subs: seq<Subsample>, i: nat)
    requires k.scheme.Cbcs? && Span(subs) == |data| && i < |data| && !Touched(k.pattern, subs, i)
    ensures SubsApplied(k, iv, true, carry, data, subs)[i] == data[i]
    decreases |subs|
  {
    hide Encrypted, Decrypted, Pattern.Selects;
    var from, to := subs[0].clear, subs[0].clear + subs[0].protected;
    if from <= i < to {
      ClearBytesStay(k.cipher, data[from..to], 0, iv, k.pattern, i - from);
    } else if i >= to {
      UntouchedStay(k, iv, carry, data[to..], subs[1..], i - to);
    }
  }

  /** The same for a sample protected whole. */
  lemma {:induction false} WholeUntouchedStay(k: Protection, iv: Block, data: seq<byte>, i: nat)
    requires k.scheme.Cbcs? && i < |data| && !BlockTouched(k.pattern, |data|, i)
    ensures SampleApplied(k, iv, true, data, [])[i] == data[i]
  {
    ClearBytesStay(k.cipher, data, 0, iv, k.pattern, i);
  }

  /** A sample keeps its NAL lengths, parameter sets, SEI and slice headers, and every skipped block. */
  lemma {:induction false} SampleRestIsLeft<P(!new)>(t: TrackProtection<P>, sample: seq<byte>, subs: seq<Subsample>, o: nat)
    requires t.Valid() && t.MapOf(sample, subs) && o < |sample| && !t.Reaches(sample, subs, o)
    ensures SampleApplied(t.Key(), t.iv, true, sample, subs)[o] == sample[o]
  {
    hide SubsApplied, NalMask, Mask, Touched, BlockTouched, Encrypted, Decrypted, Span, Entries;
    match t.video
    case None => WholeUntouchedStay(t.Key(), t.iv, sample, o);
    case Some(v) =>
      if !Mask(subs)[o] {
        UnmaskedStay(t.Key(), t.iv, true, Carry(0, t.iv), sample, subs, o);
      } else {
        UntouchedStay(t.Key(), t.iv, Carry(0, t.iv), sample, subs, o);
      }
  }

  /** The same of every sample of a segment. */
  lemma {:induction false} RestIsLeft<P(!new)>(t: TrackProtection<P>, payload: seq<byte>, sizes: seq<nat>, plan: Plan)
    requires t.Valid() && MapsOf(t, payload, sizes, plan) && PlanFits(plan, sizes)
    ensures LeavesRest(t, payload, SegmentApplied(t.Key(), true, payload, sizes, plan), sizes, plan)
  {
    hide SegmentApplied, SampleApplied, PayloadSize, SampleOf, TrackProtection.MapOf, TrackProtection.Reaches, Span;
    forall i, o | 0 <= i < |sizes| && 0 <= o < sizes[i] && !t.Reaches(SampleOf(payload, sizes, i), plan[i].1, o)
      ensures SampleOf(SegmentApplied(t.Key(), true, payload, sizes, plan), sizes, i)[o] == SampleOf(payload, sizes, i)[o]
    {
      AppliedAt(t.Key(), true, payload, sizes, plan, i);
      SampleRestIsLeft(t, SampleOf(payload, sizes, i), plan[i].1, o);
    }
  }

  // ----- What encryption does to the rest -----

  /** Each protected range is encrypted by itself, from the constant IV on. */
  lemma {:induction false} RangeSealed(k: Protection, iv: Block, carry: Carry, data: seq<byte>, subs: seq<Subsample>, at: nat, j: nat)
    requires k.scheme.Cbcs? && Span(subs) == |data| && j < |subs|
    ensures var (from, to) := RangesFrom(subs, at)[j];
            && at <= from <= to <= at + |data|
            && SubsApplied(k, iv, true, carry, data, subs)[from - at..to - at]
               == Encrypted(k.cipher, data[from - at..to - at], 0, iv, k.pattern).bytes
    decreases |subs|
  {
    hide Encrypted, Decrypted, SubsApplied, Span, RangesFrom;
    var start, end := subs[0].clear, subs[0].clear + subs[0].protected;
    SubsStep(k, iv, true, carry, data, subs);
    RangesStep(subs, at, j);
    var sealed := Encrypted(k.cipher, data[start..end], 0, iv, k.pattern).bytes;
    var rest := SubsApplied(k, iv, true, carry, data[end..], subs[1..]);
    var all := SubsApplied(k, iv, true, carry, data, subs);
    MiddleAndEnd(data[..start], sealed, rest);
    if j > 0 {
      RangeSealed(k, iv, carry, data[end..], subs[1..], at + end, j - 1);
      var (from, to) := RangesFrom(subs, at)[j];
      SliceOfTail(all, end, from - at - end, to - at - end);
      SliceOfTail(data, end, from - at - end, to - at - end);
    }
  }

  lemma {:induction false} RangesStep(subs: seq<Subsample>, at: nat, j: nat)
    requires j < |subs|
    ensures var start, end := at + subs[0].clear, at + subs[0].clear + subs[0].protected;
            RangesFrom(subs, at)[j] == if j == 0 then (start, end) else RangesFrom(subs[1..], end)[j - 1]
  {
  }

  lemma {:induction false} MiddleAndEnd(a: seq<byte>, b: seq<byte>, c: seq<byte>)
    ensures (a + b + c)[|a|..|a| + |b|] == b && (a + b + c)[|a| + |b|..] == c
  {
  }

  /** A protected range of a video sample: one block in ten is encrypted, the first of them from the constant IV. */
  lemma {:induction false} VideoSealed<P(!new)>(t: TrackProtection<P>, sample: seq<byte>, subs: seq<Subsample>, j: nat, i: nat)
    requires t.video.Some? && subs != [] && Span(subs) == |sample| && j < |subs| && 16 * i + 16 <= subs[j].protected
    ensures var (from, to) := RangesFrom(subs, 0)[j];
            && from <= to <= |sample| && to - from == subs[j].protected
            && var range, out := sample[from..to], SampleApplied(t.Key(), t.iv, true, sample, subs)[from..to];
               BlockOf(out, i) == if i % 10 != 0 then BlockOf(range, i)
                                  else t.cipher.encrypt(XorBytes(BlockOf(range, i), if i == 0 then t.iv else BlockOf(out, i - 10)))
  {
    hide SubsApplied, Encrypted, XorBytes, BlockOf, Span, RangesFrom;
    RangesAt(subs, 0, j);
    RangeSealed(t.Key(), t.iv, Carry(0, t.iv), sample, subs, 0, j);
    var (from, to) := RangesFrom(subs, 0)[j];
    OneInTen(t.cipher, sample[from..to], t.iv, i);
  }

  /** An audio sample: every whole block is encrypted, the first of them from the constant IV. */
  lemma {:induction false} AudioSealed<P(!new)>(t: TrackProtection<P>, sample: seq<byte>, i: nat)
    requires t.video.None? && 16 * i + 16 <= |sample|
    ensures var out := SampleApplied(t.Key(), t.iv, true, sample, []);
            BlockOf(out, i) == t.cipher.encrypt(XorBytes(BlockOf(sample, i), if i == 0 then t.iv else BlockOf(out, i - 1)))
  {
    hide Encrypted, XorBytes, BlockOf;
    EveryBlock(t.cipher, sample, t.iv, i);
  }

  // ----- Decrypting -----

  /** Whether the source says how each of the samples from `first` on is protected. */
  ghost predicate Readable(s: SourceProtection, first: nat, sizes: seq<nat>) {
    forall i :: 0 <= i < |sizes| ==> SampleReadable(s, first + i, sizes[i])
  }

  ghost predicate SampleReadable(s: SourceProtection, index: nat, size: nat) {
    s.IvOf(index).Some? && (s.aux.Subs(index) == [] || Span(s.aux.Subs(index)) == size)
  }

  lemma {:induction false} ReadablePush(s: SourceProtection, first: nat, sizes: seq<nat>, size: nat)
    requires Readable(s, first, sizes) && SampleReadable(s, first + |sizes|, size)
    ensures Readable(s, first, sizes + [size])
  {
    hide SampleReadable;
  }

  function SourcePlan(s: SourceProtection, first: nat, n: nat): (r: Plan)
    ensures |r| == n
  {
    if n == 0 then []
    else
      var iv := s.IvOf(first + n - 1);
      SourcePlan(s, first, n - 1) + [(if iv.Some? then iv.value else seq(16, i => 0), s.aux.Subs(first + n - 1))]
  }

  lemma {:induction false} SourcePlanAt(s: SourceProtection, first: nat, n: nat, i: nat)
    requires i < n
    ensures SourcePlan(s, first, n)[i].1 == s.aux.Subs(first + i)
    ensures s.IvOf(first + i).Some? ==> SourcePlan(s, first, n)[i].0 == s.IvOf(first + i).value
  {
    if i < n - 1 {
      SourcePlanAt(s, first, n - 1, i);
    }
  }

  /** What the source says of readable samples is a plan for them. */
  lemma {:induction false} ReadablePlan(s: SourceProtection, first: nat, sizes: seq<nat>)
    requires Readable(s, first, sizes)
    ensures PlanFits(SourcePlan(s, first, |sizes|), sizes)
  {
    hide Span, SourceProtection.IvOf, AuxTable.Subs, SourcePlan;
    forall i | 0 <= i < |sizes|
      ensures var subs := SourcePlan(s, first, |sizes|)[i].1; subs == [] || Span(subs) == sizes[i]
    {
      SourcePlanAt(s, first, |sizes|, i);
      assert SampleReadable(s, first + i, sizes[i]);
    }
  }

  /** A protected payload as it is meant to be seen: its samples decrypted, what follows them as it is. */
  function Opened(s: SourceProtection, first: nat, payload: seq<byte>, sizes: seq<nat>): (r: seq<byte>)
    requires PayloadSize(sizes) <= |payload| && PlanFits(SourcePlan(s, first, |sizes|), sizes)
    ensures |r| == |payload|
  {
    var total := PayloadSize(sizes);
    SegmentApplied(s.key, false, payload[..total], sizes, SourcePlan(s, first, |sizes|)) + payload[total..]
  }

  /** `PendingDecrypt::finish`, before the fragment is finished: every sample decrypted in place. */
  method DecryptSegment(s: SourceProtection, first: nat, payload: array<byte>, sizes: seq<nat>) returns (r: Result<()>)
    modifies payload
    ensures r.Ok? <==> PayloadSize(sizes) <= payload.Length && Readable(s, first, sizes)
    ensures r.Ok? ==>
              && PlanFits(SourcePlan(s, first, |sizes|), sizes)
              && payload[..] == Opened(s, first, old(payload[..]), sizes)
  {
    hide Spliced, SegmentApplied, SampleApplied, PayloadSize, Span, Opening, SourceProtection.IvOf, AuxTable.Subs;
    ghost var pre := payload[..];
    var at := 0;
    ghost var done: seq<byte> := [];
    NothingOpened(s, first, pre, sizes);
    SpliceNothing(pre, 0);
    for i := 0 to |sizes|
      invariant at == PayloadSize(sizes[..i]) == |done| <= |pre|
      invariant payload[..] == Spliced(pre, 0, done)
      invariant Opening(s, first, pre, sizes, i, done)
    {
      SizesPush(sizes, i);
      var end := at + sizes[i];
      if end > payload.Length {
        return Err;
      }
      ghost var sample := pre[at..end];
      SpliceAgain(pre, 0, done, sample);
      assert payload[..][at..end] == sample;
      var iv := s.IvOf(first + i);
      if iv.None? {
        return Err;
      }
      var subs := s.aux.Subs(first + i);
      var _ :- DecryptSample(s.key, iv.value, payload, at, end, subs);
      OpeningStep(s, first, pre, sizes, i, done);
      SpliceAgain(pre, 0, done, SampleApplied(s.key, iv.value, false, sample, subs));
      done := done + SampleApplied(s.key, iv.value, false, sample, subs);
      at := end;
    }
    OpenedAll(s, first, pre, sizes, done);
    return Ok(());
  }

  /** The first `i` samples decrypted: `done` are their bytes. */
  ghost predicate Opening(s: SourceProtection, first: nat, pre: seq<byte>, sizes: seq<nat>, i: nat, done: seq<byte>) {
    && i <= |sizes| && PayloadSize(sizes[..i]) <= |pre|
    && Readable(s, first, sizes[..i]) && PlanFits(SourcePlan(s, first, i), sizes[..i])
    && done == SegmentApplied(s.key, false, pre[..PayloadSize(sizes[..i])], sizes[..i], SourcePlan(s, first, i))
  }

  lemma {:induction false} NothingOpened(s: SourceProtection, first: nat, pre: seq<byte>, sizes: seq<nat>)
    ensures Opening(s, first, pre, sizes, 0, []) && PayloadSize(sizes[..0]) == 0
  {
  }

  lemma {:induction false} OpenedAll(s: SourceProtection, first: nat, pre: seq<byte>, sizes: seq<nat>, done: seq<byte>)
    requires Opening(s, first, pre, sizes, |sizes|, done)
    ensures PayloadSize(sizes) <= |pre| && Readable(s, first, sizes) && PlanFits(SourcePlan(s, first, |sizes|), sizes)
    ensures Spliced(pre, 0, done) == Opened(s, first, pre, sizes)
  {
    hide Readable, PlanFits, SegmentApplied, PayloadSize, SourcePlan;
    assert sizes[..|sizes|] == sizes;
  }

  lemma {:induction false} OpeningStep(s: SourceProtection, first: nat, pre: seq<byte>, sizes: seq<nat>, i: nat, done: seq<byte>)
    requires Opening(s, first, pre, sizes, i, done) && i < |sizes|
    requires PayloadSize(sizes[..i + 1]) == PayloadSize(sizes[..i]) + sizes[i] <= |pre|
    requires s.IvOf(first + i).Some? && (s.aux.Subs(first + i) == [] || Span(s.aux.Subs(first + i)) == sizes[i])
    ensures var sample := pre[PayloadSize(sizes[..i])..PayloadSize(sizes[..i]) + sizes[i]];
            Opening(s, first, pre, sizes, i + 1,
                    done + SampleApplied(s.key, s.IvOf(first + i).value, false, sample, s.aux.Subs(first + i)))
  {
    hide SegmentApplied, SampleApplied, PayloadSize, Span, SourceProtection.IvOf, AuxTable.Subs, Readable;
    var at := PayloadSize(sizes[..i]);
    var sample := pre[at..at + sizes[i]];
    SegmentPush(s.key, false, pre[..at], sizes[..i], SourcePlan(s, first, i), s.IvOf(first + i).value, s.aux.Subs(first + i), sample);
    assert pre[..at] + sample == pre[..at + sizes[i]] && sizes[..i] + [|sample|] == sizes[..i + 1];
    assert SourcePlan(s, first, i + 1) == SourcePlan(s, first, i) + [(s.IvOf(first + i).value, s.aux.Subs(first + i))];
    ReadablePush(s, first, sizes[..i], sizes[i]);
  }

  // ----- The round trip -----

  /**
   `cbcs` round trip: a source that names the same key, the same constant IV, and the maps the
   encryption made reads every payload byte back.
   */
  lemma {:induction false} CbcsRoundTrip<P(!new)>(t: TrackProtection<P>, payload: seq<byte>, sizes: seq<nat>, plan: Plan,
                                                 s: SourceProtection, first: nat)
    requires t.Valid() && t.cipher.Valid() && MapsOf(t, payload, sizes, plan) && PlanFits(plan, sizes)
    requires s.key == t.Key() && s.constantIv == Some(t.iv) && s.aux.ivSize == 0
    requires forall i :: 0 <= i < |plan| ==> s.aux.Subs(first + i) == plan[i].1
    ensures Readable(s, first, sizes) && SourcePlan(s, first, |sizes|) == plan
    ensures SegmentApplied(s.key, false, SegmentApplied(t.Key(), true, payload, sizes, plan), sizes, plan) == payload
  {
    hide SegmentApplied, AuxTable.Subs;
    forall i | 0 <= i < |plan| ensures SourcePlan(s, first, |sizes|)[i] == plan[i] {
      SourcePlanAt(s, first, |sizes|, i);
    }
    forall i | 0 <= i < |sizes|
      ensures SampleReadable(s, first + i, sizes[i])
    {
      assert s.aux.Subs(first + i) == plan[i].1;
    }
    SegmentRoundTrip(t.Key(), payload, sizes, plan);
  }
}
