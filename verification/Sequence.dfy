/**
 Sequences (src/sequence.rs): clips played back to back, each starting where the one before ended,
 with their segments numbered across all of them.
 */
module Sequence {
  import opened Common
  import opened Samples
  import opened Clip

  // ----- The chain of clips -----

  datatype PlacedClip = PlacedClip(start: nat, trimmed: Trimmed)

  datatype ClipPlan = ClipPlan(index: MediaIndex, window: ClipWindow)

  function TrailingAt(position: nat, count: nat): Trailing {
    if position + 1 == count then Keep else Cut
  }

  ghost predicate PlansValid(clips: seq<ClipPlan>) {
    forall i :: 0 <= i < |clips| ==> clips[i].index.Valid()
  }

  ghost predicate ClipPlaced(clip: ClipPlan, placed: PlacedClip, trailing: Trailing)
    requires clip.index.Valid()
  {
    && Placing(clip.index, clip.window).Ok?
    && TrimmedTo(clip.index, Placing(clip.index, clip.window).value.0, Placing(clip.index, clip.window).value.1, placed.start,
                 trailing, placed.trimmed)
  }

  ghost predicate StartsAfter(placed: seq<PlacedClip>, i: nat)
    requires i < |placed|
  {
    placed[i].start == if i == 0 then 0 else placed[i - 1].trimmed.end
  }

  /** Each clip starts where the one before ended, from 0 to `total`; only the last keeps trailing audio. */
  ghost predicate Chained(clips: seq<ClipPlan>, placed: seq<PlacedClip>, total: nat, count: nat)
    requires PlansValid(clips)
  {
    && |placed| == |clips|
    && (forall i :: 0 <= i < |clips| ==> ClipPlaced(clips[i], placed[i], TrailingAt(i, count)))
    && (forall i :: 0 <= i < |placed| ==> StartsAfter(placed, i))
    && total == if placed == [] then 0 else placed[|placed| - 1].trimmed.end
  }

  lemma {:induction false} ChainPush(clips: seq<ClipPlan>, n: nat, placed: seq<PlacedClip>, start: nat, next: PlacedClip)
    requires PlansValid(clips) && n < |clips| && Chained(clips[..n], placed, start, |clips|)
    requires next.start == start && ClipPlaced(clips[n], next, TrailingAt(n, |clips|))
    ensures Chained(clips[..n + 1], placed + [next], next.trimmed.end, |clips|)
  {
    hide ClipPlaced, MediaIndex.Valid;
    var all, longer := placed + [next], clips[..n + 1];
    forall i | 0 <= i < n + 1
      ensures ClipPlaced(longer[i], all[i], TrailingAt(i, |clips|))
      ensures StartsAfter(all, i)
    {
      if i < n {
        assert longer[i] == clips[..n][i] && all[i] == placed[i] && StartsAfter(placed, i);
      }
    }
  }

  /** The first loop of `build`. */
  method PlaceClips(clips: seq<ClipPlan>) returns (r: Result<(seq<PlacedClip>, nat)>)
    requires PlansValid(clips)
    ensures r.Ok? ==> Chained(clips, r.value.0, r.value.1, |clips|)
    ensures r.Err? ==> exists i, start :: 0 <= i < |clips| && Refused(clips[i], start, TrailingAt(i, |clips|))
  {
    hide MediaIndex.Valid, TrimmedTo, Placing, CanTrim, Refused, Chained;
    var start, placed: seq<PlacedClip> := 0, [];
    NoChain(clips);
    for position := 0 to |clips|
      invariant Chained(clips[..position], placed, start, |clips|)
    {
      var clip := clips[position];
      var trailing := if position + 1 == |clips| then Keep else Cut;
      var cut := Trim(clip.index, clip.window, start, trailing);
      if cut.Err? {
        RefusedIs(clip, start, trailing);
        assert Refused(clips[position], start, TrailingAt(position, |clips|));
        return Err;
      }
      ChainPush(clips, position, placed, start, PlacedClip(start, cut.value));
      placed := placed + [PlacedClip(start, cut.value)];
      start := cut.value.end;
    }
    assert clips[..|clips|] == clips;
    return Ok((placed, start));
  }

  lemma {:induction false} NoChain(clips: seq<ClipPlan>)
    ensures Chained(clips[..0], [], 0, |clips|)
  {
  }

  ghost predicate Refused(clip: ClipPlan, start: nat, trailing: Trailing)
    requires clip.index.Valid()
  {
    Placing(clip.index, clip.window).Ok? ==>
      !CanTrim(clip.index, Placing(clip.index, clip.window).value.0, Placing(clip.index, clip.window).value.1, start, trailing)
  }

  lemma {:induction false} RefusedIs(clip: ClipPlan, start: nat, trailing: Trailing)
    requires clip.index.Valid()
    requires !(Placing(clip.index, clip.window).Ok? &&
               CanTrim(clip.index, Placing(clip.index, clip.window).value.0, Placing(clip.index, clip.window).value.1, start, trailing))
    ensures Refused(clip, start, trailing)
  {
  }

  // ----- Drift -----

  /** How long a clip is, in ticks of its reference track, and that track's timescale. */
  function ClipLength(clip: ClipPlan): (int, u32)
    requires clip.index.Valid()
  {
    match Placing(clip.index, clip.window)
    case Err => (0, 0)
    case Ok((reference, p)) => (Length(p), reference.timescale)
  }

  function Nanos(ticks: int, timescale: u32): real {
    if timescale == 0 then 0.0 else ticks as real * NANOS_PER_SECOND as real / timescale as real
  }

  /** The exact length of these clips in nanoseconds, with no rounding anywhere. */
  ghost function Exact(clips: seq<ClipPlan>): real
    requires PlansValid(clips)
  {
    if clips == [] then 0.0
    else
      var last := ClipLength(clips[|clips| - 1]);
      Exact(clips[..|clips| - 1]) + Nanos(last.0, last.1)
  }

  lemma {:induction false} FloorOfReal(n: nat, d: nat)
    requires d > 0
    ensures (n / d) as real <= n as real / d as real < (n / d) as real + 1.0
  {
    var q, r := n / d, n % d;
    assert n as real / d as real == q as real + r as real / d as real;
  }

  /** One clip's end is its start plus its exact length, less than a nanosecond short. */
  lemma {:induction false} EndIsClose(start: nat, ticks: nat, timescale: u32)
    requires After(start, ticks, timescale).Ok?
    ensures timescale > 0
    ensures var end, exact := After(start, ticks, timescale).value as real, start as real + Nanos(ticks, timescale);
            exact - 1.0 < end <= exact
  {
    FloorOfReal(ticks * NANOS_PER_SECOND, timescale);
    assert (ticks * NANOS_PER_SECOND) as real == ticks as real * NANOS_PER_SECOND as real;
  }

  lemma {:induction false} ClipEnd(clip: ClipPlan, placed: PlacedClip, trailing: Trailing)
    requires clip.index.Valid() && ClipPlaced(clip, placed, trailing)
    ensures ClipLength(clip).0 >= 0 && ClipLength(clip).1 > 0
    ensures After(placed.start, ClipLength(clip).0, ClipLength(clip).1) == Ok(placed.trimmed.end)
  {
    hide MediaIndex.Valid, Placing, Placed, Length;
  }

  /** Rounding never adds up past one nanosecond a clip: after `n` clips the position is in `(exact - n, exact]`. */
  lemma {:induction false} DriftBound(clips: seq<ClipPlan>, placed: seq<PlacedClip>, total: nat, count: nat)
    requires PlansValid(clips) && Chained(clips, placed, total, count)
    ensures clips != [] ==> Exact(clips) - |clips| as real < total as real <= Exact(clips)
    ensures clips == [] ==> total == 0
    decreases |clips|
  {
    hide ClipPlaced, ClipLength, Nanos, MediaIndex.Valid, Chained;
    if clips == [] {
      ChainEnd(clips, placed, total, count);
    } else {
      var n := |clips| - 1;
      ChainPrefix(clips, placed, total, count, n);
      ChainEnd(clips, placed, total, count);
      DriftBound(clips[..n], placed[..n], placed[n].start, count);
      var (ticks, timescale) := ClipLength(clips[n]);
      ClipEnd(clips[n], placed[n], TrailingAt(n, count));
      EndIsClose(placed[n].start, ticks, timescale);
    }
  }

  lemma {:induction false} ChainEnd(clips: seq<ClipPlan>, placed: seq<PlacedClip>, total: nat, count: nat)
    requires PlansValid(clips) && Chained(clips, placed, total, count)
    ensures |placed| == |clips|
    ensures clips == [] ==> total == 0
    ensures clips != [] ==>
              var n := |clips| - 1;
              total == placed[n].trimmed.end && ClipPlaced(clips[n], placed[n], TrailingAt(n, count))
  {
    hide ClipPlaced, MediaIndex.Valid;
  }

  /** The first clips of a chain are a chain, ending where the next clip starts. */
  lemma {:induction false} ChainPrefix(clips: seq<ClipPlan>, placed: seq<PlacedClip>, total: nat, count: nat, n: nat)
    requires PlansValid(clips) && Chained(clips, placed, total, count) && n < |clips|
    ensures |placed| == |clips| && Chained(clips[..n], placed[..n], placed[n].start, count)
  {
    hide ClipPlaced, MediaIndex.Valid;
    forall i | 0 <= i < n
      ensures ClipPlaced(clips[..n][i], placed[..n][i], TrailingAt(i, count))
      ensures StartsAfter(placed[..n], i)
    {
      assert StartsAfter(placed, i);
    }
    assert StartsAfter(placed, n);
  }

  // ----- No gaps -----

  lemma {:induction false} FloorShift(position: nat, ticks: nat, timescale: nat)
    requires 0 < timescale <= NANOS_PER_SECOND
    ensures var end := position + ticks * NANOS_PER_SECOND / timescale;
            var from := position * timescale / NANOS_PER_SECOND;
            from + ticks - 1 <= end * timescale / NANOS_PER_SECOND <= from + ticks
  {
    var nanos := ticks * NANOS_PER_SECOND / timescale;
    var end := position + nanos;
    var from, into := position * timescale / NANOS_PER_SECOND, end * timescale / NANOS_PER_SECOND;
    DivBounds(ticks * NANOS_PER_SECOND, timescale);
    DivBounds(position * timescale, NANOS_PER_SECOND);
    DivBounds(end * timescale, NANOS_PER_SECOND);
    Product(position, nanos, timescale);
    assert end * timescale == position * timescale + nanos * timescale;
  }

  /**
   Clips on one clock never leave a gap: the next clip's start tick is the tick the reference track
   ends at, or the one before.
   */
  lemma {:induction false} NoGap(clips: seq<ClipPlan>, placed: seq<PlacedClip>, total: nat, count: nat, i: nat)
    requires PlansValid(clips) && Chained(clips, placed, total, count) && i + 1 < |clips|
    ensures var timescale := ClipLength(clips[i]).1;
            var from, next := InTicks(placed[i].start, timescale), InTicks(placed[i + 1].start, timescale);
            ClipLength(clips[i + 1]).1 == timescale <= NANOS_PER_SECOND ==>
              from.Ok? && next.Ok? && var end := from.value + ClipLength(clips[i]).0; end - 1 <= next.value <= end
  {
    hide ClipPlaced, ClipLength, Placing, InTicks, After, MediaIndex.Valid;
    assert StartsAfter(placed, i + 1);
    ClipEnd(clips[i], placed[i], TrailingAt(i, count));
    var (ticks, timescale) := ClipLength(clips[i]);
    if ClipLength(clips[i + 1]).1 == timescale <= NANOS_PER_SECOND {
      NextStart(placed[i].start, ticks, timescale);
      StartTells(clips[i], placed[i], TrailingAt(i, count));
      StartTells(clips[i + 1], placed[i + 1], TrailingAt(i + 1, count));
    }
  }

  lemma {:induction false} NextStart(start: nat, ticks: nat, timescale: u32)
    requires 0 < timescale <= NANOS_PER_SECOND && After(start, ticks, timescale).Ok?
    ensures var from, next := InTicks(start, timescale), InTicks(After(start, ticks, timescale).value, timescale);
            from.Ok? && next.Ok? ==> from.value + ticks - 1 <= next.value <= from.value + ticks
  {
    FloorShift(start, ticks, timescale);
  }

  /** A placed clip's start fits its reference track's clock. */
  lemma {:induction false} StartTells(clip: ClipPlan, placed: PlacedClip, trailing: Trailing)
    requires clip.index.Valid() && ClipPlaced(clip, placed, trailing)
    ensures InTicks(placed.start, ClipLength(clip).1).Ok?
  {
    hide MovedTrack, InTicks, Placing, FollowerWindow, ReferenceTrack;
    var (reference, p) := Placing(clip.index, clip.window).value;
    var k :| 0 <= k < |clip.index.tracks| && clip.index.tracks[k] == reference;
    assert Placed(clip.index, reference, p, placed.start, trailing, k) == Ok(placed.trimmed.tracks[k]);
  }

  /** Where a placed clip's reference track ends: its start tick plus the clip's length. */
  lemma {:induction false} ReferenceEndsAt(clip: ClipPlan, placed: PlacedClip, trailing: Trailing, k: nat)
    requires clip.index.Valid() && ClipPlaced(clip, placed, trailing)
    requires k < |clip.index.tracks| && clip.index.tracks[k] == Placing(clip.index, clip.window).value.0
    ensures var (ticks, timescale) := ClipLength(clip);
            && k < |placed.trimmed.tracks| && placed.trimmed.tracks[k].samples.Valid() && InTicks(placed.start, timescale).Ok?
            && placed.trimmed.tracks[k].samples.List() != []
            && var list := placed.trimmed.tracks[k].samples.List();
               var last := list[|list| - 1];
               last.decodeTime + last.duration == InTicks(placed.start, timescale).value + ticks
  {
    hide MovedTrack, InTicks, Placing, PlacementOf, FollowerWindow, ReferenceTrack, SampleIndex.List, SampleIndex.Valid;
    StartTells(clip, placed, trailing);
    var (reference, p) := Placing(clip.index, clip.window).value;
    PlacementIsOrdered(clip.index.presentationOffsetMs, reference, clip.window);
    assert Placed(clip.index, reference, p, placed.start, trailing, k) == Ok(placed.trimmed.tracks[k]);
    var base := Base(placed.start, reference.timescale, p.lead).value;
    MovedTrackOk(reference, p.first, p.end, p.origin, base);
  }

  // ----- Numbering -----

  function SegmentsIn(counts: seq<nat>): nat {
    if counts == [] then 0 else SegmentsIn(counts[..|counts| - 1]) + counts[|counts| - 1]
  }

  /** The numbering of `assemble`: each clip's first segment, after all those before it. */
  method Number(counts: seq<nat>) returns (r: Result<seq<nat>>)
    ensures r.Ok? <==> SegmentsIn(counts) <= U32_MAX
    ensures r.Ok? ==> |r.value| == |counts| && forall i :: 0 <= i < |counts| ==> r.value[i] == SegmentsIn(counts[..i])
  {
    var firsts: seq<nat>, next := [], 0;
    for i := 0 to |counts|
      invariant next == SegmentsIn(counts[..i]) <= U32_MAX
      invariant |firsts| == i && forall k :: 0 <= k < i ==> firsts[k] == SegmentsIn(counts[..k])
    {
      assert counts[..i + 1][..i] == counts[..i];
      SegmentsGrow(counts, i + 1);
      firsts := firsts + [next];
      if next + counts[i] > U32_MAX {
        return Err;
      }
      next := next + counts[i];
    }
    assert counts[..|counts|] == counts;
    return Ok(firsts);
  }

  lemma {:induction false} SegmentsGrow(counts: seq<nat>, i: nat)
    requires i <= |counts|
    ensures SegmentsIn(counts[..i]) <= SegmentsIn(counts)
    decreases |counts|
  {
    if i < |counts| {
      SegmentsGrow(counts[..|counts| - 1], i);
      assert counts[..|counts| - 1][..i] == counts[..i];
    } else {
      assert counts[..i] == counts;
    }
  }

  /** The lookup of `prepare_segment`: the clip a global segment falls in, and its number there. */
  function Locate(firsts: seq<nat>, segment: nat): (int, int) {
    var clip := Below(firsts, segment + 1) - 1;
    (clip, if 0 <= clip < |firsts| then segment - firsts[clip] else segment)
  }

  /**
   Every global segment is found in the one clip that holds it, clips without segments included;
   past the last segment the lookup gives the last clip and a number it does not have.
   */
  lemma {:induction false} LocateFinds(counts: seq<nat>, firsts: seq<nat>, segment: nat)
    requires counts != [] && |firsts| == |counts| && forall i :: 0 <= i < |counts| ==> firsts[i] == SegmentsIn(counts[..i])
    ensures var (clip, number) := Locate(firsts, segment);
            && 0 <= clip < |counts| && number >= 0 && segment == firsts[clip] + number
            && (segment < SegmentsIn(counts) ==>
                  && number < counts[clip]
                  && forall i :: 0 <= i < |counts| && firsts[i] <= segment < firsts[i] + counts[i] ==> i == clip)
            && (segment >= SegmentsIn(counts) ==> clip == |counts| - 1 && number >= counts[clip])
  {
    var clip := Below(firsts, segment + 1) - 1;
    assert firsts[0] == SegmentsIn([]) == 0;
    NextFirst(counts, clip);
    forall i | 0 <= i < |counts| && firsts[i] <= segment < firsts[i] + counts[i] ensures i == clip {
      NextFirst(counts, i);
      if i < clip {
        FirstsGrow(counts, i + 1, clip);
      } else if i > clip {
        FirstsGrow(counts, clip + 1, i);
      }
    }
    if segment >= SegmentsIn(counts) && clip + 1 < |counts| {
      SegmentsGrow(counts, clip + 1);
    }
  }

  lemma {:induction false} NextFirst(counts: seq<nat>, i: nat)
    requires i < |counts|
    ensures SegmentsIn(counts[..i + 1]) == SegmentsIn(counts[..i]) + counts[i]
    ensures i + 1 == |counts| ==> counts[..i + 1] == counts
  {
    assert counts[..i + 1][..i] == counts[..i];
  }

  lemma {:induction false} FirstsGrow(counts: seq<nat>, a: nat, b: nat)
    requires a <= b <= |counts|
    ensures SegmentsIn(counts[..a]) <= SegmentsIn(counts[..b])
  {
    SegmentsGrow(counts[..b], a);
    assert counts[..b][..a] == counts[..a];
  }
}
