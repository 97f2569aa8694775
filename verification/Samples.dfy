/**
 A track's samples as compact tables (src/media/samples.rs): run-length tables shared by windows
 with a decode-time shift, standing in for a plain list of samples.
 */
module Samples {
  import opened Common

  datatype Sample = Sample(
    offset: nat, size: nat, decodeTime: int, duration: nat, compositionOffset: int, isSync: bool)

  /** The standard library's `partition_point`: how many leading elements lie below `bound`. */
  function Below(s: seq<int>, bound: int): (p: nat)
    ensures p <= |s|
    ensures forall i :: 0 <= i < p ==> s[i] < bound
    ensures p < |s| ==> s[p] >= bound
  {
    if s == [] || s[0] >= bound then 0 else 1 + Below(s[1..], bound)
  }

  ghost predicate StrictlyAscending(s: seq<int>) {
    forall i, j :: 0 <= i < j < |s| ==> s[i] < s[j]
  }

  /** The first samples of the runs (or chunks) that `n` samples fall into. */
  ghost predicate RunsOk(first: seq<nat>, n: nat) {
    && StrictlyAscending(first)
    && (forall i :: 0 <= i < |first| ==> first[i] < n)
    && (n > 0 ==> first != [] && first[0] == 0)
  }

  /** The run holding sample `index`, given each run's ascending first sample. */
  function RunOf(first: seq<nat>, index: nat): nat {
    Max(0, Below(first, index + 1) - 1)
  }

  ghost predicate InRun(first: seq<nat>, run: nat, index: nat) {
    run < |first| && first[run] <= index && (run + 1 < |first| ==> index < first[run + 1])
  }

  lemma {:induction false} RunOfIs(first: seq<nat>, n: nat, index: nat)
    requires RunsOk(first, n) && index < n
    ensures InRun(first, RunOf(first, index), index)
    ensures forall run: nat :: InRun(first, run, index) ==> run == RunOf(first, index)
  {
    var p := Below(first, index + 1);
    assert p > 0;
    forall run: nat | InRun(first, run, index) ensures run == RunOf(first, index) {
      assert run < p;
      assert run + 1 < |first| ==> first[run + 1] >= index + 1;
    }
  }

  function SizeSum(sizes: seq<nat>, from: nat, end: nat): nat
    requires end <= |sizes|
  {
    if end <= from then 0 else SizeSum(sizes, from, end - 1) + sizes[end - 1]
  }

  // ----- The tables -----

  /** Byte offsets: each chunk's, plus the sizes of the samples before in the chunk. */
  datatype Chunks = Chunks(first: seq<nat>, offset: seq<nat>, sizes: seq<nat>) {
    ghost predicate Valid() {
      RunsOk(first, |sizes|) && |offset| == |first|
    }

    function At(index: nat): nat
      requires Valid() && index < |sizes|
    {
      RunOfIs(first, |sizes|, index);
      var chunk := RunOf(first, index);
      offset[chunk] + SizeSum(sizes, first[chunk], index)
    }
  }

  /** Decode times: a run's samples have equal durations and follow each other without a gap. */
  datatype Times = Times(first: seq<nat>, start: seq<nat>, duration: seq<nat>) {
    ghost predicate Valid(n: nat) {
      RunsOk(first, n) && |start| == |duration| == |first|
    }

    function Run(n: nat, index: nat): (run: nat)
      requires Valid(n) && index < n
      ensures InRun(first, run, index) && run == RunOf(first, index)
    {
      RunOfIs(first, n, index);
      RunOf(first, index)
    }

    function In(run: nat, index: nat): int
      requires |start| == |duration| == |first| && run < |first|
    {
      start[run] + (index - first[run]) * duration[run]
    }

    function At(n: nat, index: nat): int
      requires Valid(n) && index < n
    {
      In(Run(n, index), index)
    }

    function DurationAt(n: nat, index: nat): nat
      requires Valid(n) && index < n
    {
      duration[Run(n, index)]
    }
  }

  /** Composition offsets by runs; no runs when every offset is zero. */
  datatype Compositions = Compositions(first: seq<nat>, offset: seq<int>) {
    ghost predicate Valid(n: nat) {
      (first != [] ==> RunsOk(first, n)) && |offset| == |first|
    }

    function At(n: nat, index: nat): int
      requires Valid(n) && index < n
    {
      if first == [] then 0
      else
        RunOfIs(first, n, index);
        offset[RunOf(first, index)]
    }
  }

  /** Sync samples in order, or `None` when every sample is one. */
  ghost predicate SyncOk(sync: Option<seq<nat>>, n: nat) {
    sync.Some? ==> StrictlyAscending(sync.value) && forall i :: 0 <= i < |sync.value| ==> sync.value[i] < n
  }

  predicate IsSync(sync: Option<seq<nat>>, index: nat) {
    sync.None? || index in sync.value
  }

  datatype Tables = Tables(chunks: Chunks, times: Times, compositions: Compositions, sync: Option<seq<nat>>) {
    function Len(): nat {
      |chunks.sizes|
    }

    ghost predicate Valid() {
      chunks.Valid() && times.Valid(Len()) && compositions.Valid(Len()) && SyncOk(sync, Len())
    }

    function At(index: nat): Sample
      requires Valid() && index < Len()
    {
      Sample(chunks.At(index), chunks.sizes[index], times.At(Len(), index), times.DurationAt(Len(), index),
             compositions.At(Len(), index), IsSync(sync, index))
    }

    /** Decode times never go back, as in every valid track. */
    ghost predicate Ordered()
      requires Valid()
    {
      forall i, j :: 0 <= i <= j < Len() ==> times.At(Len(), i) <= times.At(Len(), j)
    }
  }

  // ----- Building the tables -----

  ghost predicate ChunksFor(c: Chunks, samples: seq<Sample>) {
    && c.Valid() && |c.sizes| == |samples|
    && (samples == [] ==> c.first == [])
    && forall i :: 0 <= i < |samples| ==> c.sizes[i] == samples[i].size && c.At(i) == samples[i].offset
  }

  ghost predicate TimesFor(t: Times, samples: seq<Sample>) {
    && t.Valid(|samples|)
    && (samples == [] ==> t.first == [])
    && forall i :: 0 <= i < |samples| ==>
         t.At(|samples|, i) == samples[i].decodeTime && t.DurationAt(|samples|, i) == samples[i].duration
  }

  ghost predicate CompositionsFor(c: Compositions, samples: seq<Sample>) {
    && RunsOk(c.first, |samples|) && |c.offset| == |c.first|
    && (samples == [] ==> c.first == [])
    && forall i :: 0 <= i < |samples| ==> c.At(|samples|, i) == samples[i].compositionOffset
  }

  ghost predicate SyncFor(sync: seq<nat>, samples: seq<Sample>) {
    && SyncOk(Some(sync), |samples|) && |sync| <= |samples|
    && (|sync| == |samples| <==> forall i :: 0 <= i < |samples| ==> samples[i].isSync)
    && forall i :: 0 <= i < |samples| ==> (i in sync <==> samples[i].isSync)
  }

  lemma {:induction false} BelowPush(s: seq<int>, x: int, bound: int)
    ensures Below(s + [x], bound) == if Below(s, bound) < |s| then Below(s, bound) else |s| + (if x < bound then 1 else 0)
  {
    if s != [] && s[0] < bound {
      BelowPush(s[1..], x, bound);
      assert (s + [x])[1..] == s[1..] + [x];
    } else if s == [] {
      assert ([] + [x])[1..] == [];
    }
  }

  lemma {:induction false} RunOfEarlier(first: seq<nat>, n: nat, i: nat)
    requires i < n
    ensures RunOf(first + [n], i) == RunOf(first, i)
  {
    BelowPush(first, n, i + 1);
  }

  /** Runs of the first `n` samples, one more sample joining the last run or starting its own. */
  lemma {:induction false} RunsGrow(first: seq<nat>, n: nat, starts: bool)
    requires RunsOk(first, n) && (n == 0 ==> starts && first == [])
    ensures var next := if starts then first + [n] else first;
            && RunsOk(next, n + 1)
            && (forall i :: 0 <= i < n ==> RunOf(next, i) == RunOf(first, i))
            && RunOf(next, n) == |next| - 1
            && (n > 0 ==> RunOf(first, n - 1) == |first| - 1)
  {
    hide RunOf, Below;
    var next := if starts then first + [n] else first;
    forall i | 0 <= i < n ensures RunOf(next, i) == RunOf(first, i) {
      RunOfEarlier(first, n, i);
    }
    RunOfIs(next, n + 1, n);
    assert InRun(next, |next| - 1, n);
    if n > 0 {
      RunOfIs(first, n, n - 1);
      assert InRun(first, |first| - 1, n - 1);
    }
  }

  lemma {:induction false} SizeSumPush(sizes: seq<nat>, x: nat, from: nat, end: nat)
    requires end <= |sizes|
    ensures SizeSum(sizes + [x], from, end) == SizeSum(sizes, from, end)
    decreases end
  {
    if end > from {
      SizeSumPush(sizes, x, from, end - 1);
    }
  }

  /** A sample that follows the one before it in the file shares its chunk. */
  lemma {:induction false} ChunksGrow(c: Chunks, samples: seq<Sample>, s: Sample, same: bool)
    requires ChunksFor(c, samples)
    requires same ==> samples != [] && samples[|samples| - 1].offset + samples[|samples| - 1].size == s.offset
    ensures var n := |samples|;
            ChunksFor(if same then Chunks(c.first, c.offset, c.sizes + [s.size])
                      else Chunks(c.first + [n], c.offset + [s.offset], c.sizes + [s.size]), samples + [s])
  {
    hide RunsOk, RunOf;
    var n := |samples|;
    var next := if same then Chunks(c.first, c.offset, c.sizes + [s.size])
                else Chunks(c.first + [n], c.offset + [s.offset], c.sizes + [s.size]);
    RunsGrow(c.first, n, !same);
    forall i | 0 <= i < n + 1 ensures next.sizes[i] == (samples + [s])[i].size && next.At(i) == (samples + [s])[i].offset {
      RunOfIs(next.first, n + 1, i);
      var chunk := RunOf(next.first, i);
      SizeSumPush(c.sizes, s.size, next.first[chunk], i);
      if i < n {
        assert c.At(i) == samples[i].offset;
      } else if same {
        RunOfIs(c.first, n, n - 1);
        assert c.At(n - 1) == samples[n - 1].offset;
      }
    }
  }

  lemma {:induction false} OneMore(k: int, d: int)
    ensures (k + 1) * d == k * d + d
  {
  }

  /** A sample with the duration of the one before, starting where that ends, shares its run. */
  lemma {:induction false} TimesGrow(t: Times, samples: seq<Sample>, s: Sample, same: bool)
    requires TimesFor(t, samples) && s.decodeTime >= 0
    requires same ==>
               samples != [] &&
               var previous := samples[|samples| - 1];
               previous.duration == s.duration && previous.decodeTime + previous.duration == s.decodeTime
    ensures TimesFor(if same then t else Times(t.first + [|samples|], t.start + [s.decodeTime], t.duration + [s.duration]),
                     samples + [s])
  {
    hide RunsOk, RunOf;
    var n := |samples|;
    var next := if same then t else Times(t.first + [n], t.start + [s.decodeTime], t.duration + [s.duration]);
    RunsGrow(t.first, n, !same);
    forall i | 0 <= i < n + 1
      ensures next.At(n + 1, i) == (samples + [s])[i].decodeTime && next.DurationAt(n + 1, i) == (samples + [s])[i].duration
    {
      if i < n {
        assert t.At(n, i) == samples[i].decodeTime;
      } else if same {
        assert t.At(n, n - 1) == samples[n - 1].decodeTime;
        OneMore(n - 1 - t.first[|t.first| - 1], t.duration[|t.first| - 1]);
      }
    }
  }

  lemma {:induction false} CompositionsGrow(c: Compositions, samples: seq<Sample>, s: Sample)
    requires CompositionsFor(c, samples)
    ensures CompositionsFor(if c.offset != [] && c.offset[|c.offset| - 1] == s.compositionOffset then c
                            else Compositions(c.first + [|samples|], c.offset + [s.compositionOffset]), samples + [s])
  {
    var n := |samples|;
    var same := c.offset != [] && c.offset[|c.offset| - 1] == s.compositionOffset;
    var next := if same then c else Compositions(c.first + [n], c.offset + [s.compositionOffset]);
    RunsGrow(c.first, n, !same);
    forall i | 0 <= i < n + 1 ensures next.At(n + 1, i) == (samples + [s])[i].compositionOffset {
      if i < n {
        assert c.At(n, i) == samples[i].compositionOffset;
      }
    }
  }

  lemma {:induction false} SyncGrow(sync: seq<nat>, samples: seq<Sample>, s: Sample)
    requires SyncFor(sync, samples)
    ensures SyncFor(if s.isSync then sync + [|samples|] else sync, samples + [s])
  {
    var all := samples + [s];
    if forall i :: 0 <= i < |all| ==> all[i].isSync {
      forall i | 0 <= i < |samples| ensures samples[i].isSync {
        assert all[i] == samples[i];
      }
      assert all[|samples|].isSync;
    }
  }

  /** `from_samples`: tables that give back every sample they were built from. */
  method FromSamples(samples: seq<Sample>) returns (t: Tables)
    requires forall i :: 0 <= i < |samples| ==> samples[i].decodeTime >= 0
    ensures t.Valid() && t.Len() == |samples|
    ensures forall i :: 0 <= i < |samples| ==> t.At(i) == samples[i]
    ensures t.sync.None? <==> forall i :: 0 <= i < |samples| ==> samples[i].isSync
  {
    hide ChunksFor, TimesFor, CompositionsFor, SyncFor;
    var chunks, times, compositions := Chunks([], [], []), Times([], [], []), Compositions([], []);
    var sync: seq<nat> := [];
    EmptyTables();
    for index := 0 to |samples|
      invariant ChunksFor(chunks, samples[..index]) && TimesFor(times, samples[..index])
      invariant CompositionsFor(compositions, samples[..index]) && SyncFor(sync, samples[..index])
    {
      var sample := samples[index];
      assert samples[..index + 1] == samples[..index] + [sample];
      var sameChunk := index > 0 && samples[index - 1].offset + samples[index - 1].size == sample.offset;
      ChunksGrow(chunks, samples[..index], sample, sameChunk);
      chunks := if sameChunk then chunks.(sizes := chunks.sizes + [sample.size])
                else Chunks(chunks.first + [index], chunks.offset + [sample.offset], chunks.sizes + [sample.size]);
      var sameRun := index > 0 && samples[index - 1].duration == sample.duration
                     && samples[index - 1].decodeTime + samples[index - 1].duration == sample.decodeTime;
      TimesGrow(times, samples[..index], sample, sameRun);
      if !sameRun {
        times := Times(times.first + [index], times.start + [sample.decodeTime], times.duration + [sample.duration]);
      }
      CompositionsGrow(compositions, samples[..index], sample);
      if compositions.offset == [] || compositions.offset[|compositions.offset| - 1] != sample.compositionOffset {
        compositions := Compositions(compositions.first + [index], compositions.offset + [sample.compositionOffset]);
      }
      SyncGrow(sync, samples[..index], sample);
      if sample.isSync {
        sync := sync + [index];
      }
    }
    assert samples[..|samples|] == samples;
    FinishTables(chunks, times, compositions, sync, samples);
    if compositions.offset == [0] {
      compositions := Compositions([], []);
    }
    t := Tables(chunks, times, compositions, if |sync| != |samples| then Some(sync) else None);
  }

  lemma {:induction false} EmptyTables()
    ensures ChunksFor(Chunks([], [], []), []) && TimesFor(Times([], [], []), [])
    ensures CompositionsFor(Compositions([], []), []) && SyncFor([], [])
  {
  }

  lemma {:induction false} FinishTables(chunks: Chunks, times: Times, compositions: Compositions, sync: seq<nat>, samples: seq<Sample>)
    requires ChunksFor(chunks, samples) && TimesFor(times, samples)
    requires CompositionsFor(compositions, samples) && SyncFor(sync, samples)
    ensures var t := Tables(chunks, times, if compositions.offset == [0] then Compositions([], []) else compositions,
                            if |sync| != |samples| then Some(sync) else None);
            && t.Valid() && t.Len() == |samples|
            && (forall i :: 0 <= i < |samples| ==> t.At(i) == samples[i])
            && (t.sync.None? <==> forall i :: 0 <= i < |samples| ==> samples[i].isSync)
  {
    if compositions.offset == [0] {
      forall i | 0 <= i < |samples| ensures samples[i].compositionOffset == 0 {
        assert compositions.At(|samples|, i) == samples[i].compositionOffset;
      }
    }
  }

  // ----- Searching by decode time -----

  lemma {:induction false} CeilDiv(elapsed: int, d: int, k: int)
    requires d > 0 && k >= 0
    ensures k < (elapsed + d - 1) / d <==> k * d < elapsed
  {
    var steps := (elapsed + d - 1) / d;
    assert elapsed + d - 1 == steps * d + (elapsed + d - 1) % d;
    if k < steps {
      TimesMonotone(k + 1, steps, d);
    } else {
      TimesMonotone(steps, k, d);
    }
  }

  lemma {:induction false} TimesMonotone(a: int, b: int, d: nat)
    requires a <= b
    ensures a * d <= b * d
  {
  }

  /** Every sample before the `p`th starts before `time`, and no other does. */
  ghost predicate SplitsAt(t: Tables, time: int, p: nat)
    requires t.Valid()
  {
    && p <= t.Len()
    && (forall i :: 0 <= i < p ==> t.times.At(t.Len(), i) < time)
    && (forall i :: p <= i < t.Len() ==> t.times.At(t.Len(), i) >= time)
  }

  /** `partition_by_decode_time` on whole tables: found by arithmetic in one run. */
  function SearchTables(t: Tables, time: int): (p: int)
    requires t.Valid()
  {
    var runs := |t.times.first|;
    var next := Below(t.times.start, time);
    var nextFirst := if next < runs then t.times.first[next] else t.Len();
    if next == 0 then 0
    else
      var run := next - 1;
      var runEnd := if next < runs then nextFirst else t.Len();
      var duration := t.times.duration[run];
      if duration == 0 then nextFirst
      else
        var elapsed := time - t.times.start[run];
        var candidate := t.times.first[run] + (elapsed + duration - 1) / duration;
        if candidate < runEnd then candidate else nextFirst
  }

  /** A run's first sample starts when the run does. */
  lemma {:induction false} RunStart(t: Times, n: nat, run: nat)
    requires t.Valid(n) && run < |t.first|
    ensures t.At(n, t.first[run]) == t.start[run] && t.Run(n, t.first[run]) == run
  {
    RunOfIs(t.first, n, t.first[run]);
    assert InRun(t.first, run, t.first[run]);
  }

  lemma {:induction false} InNextRuns(t: Times, n: nat, index: nat, run: nat)
    requires t.Valid(n) && index < n && run < |t.first|
    ensures t.first[run] <= index && (run + 1 < |t.first| ==> index < t.first[run + 1]) ==> t.At(n, index) == t.In(run, index)
  {
    RunOfIs(t.first, n, index);
    if t.first[run] <= index && (run + 1 < |t.first| ==> index < t.first[run + 1]) {
      assert InRun(t.first, run, index);
    }
  }

  /** The arithmetic search agrees with counting, also over zero durations and gaps in time. */
  lemma {:induction false} SearchCounts(t: Tables, time: int)
    requires t.Valid() && t.Ordered()
    ensures SearchTables(t, time) >= 0 && SplitsAt(t, time, SearchTables(t, time))
  {
    hide RunsOk, RunOf;
    var n, times := t.Len(), t.times;
    var next := Below(times.start, time);
    var nextFirst := if next < |times.first| then times.first[next] else n;
    if next < |times.first| {
      RunStart(times, n, next);
      FirstsBelow(times, n, next);
      forall i | nextFirst <= i < n ensures times.At(n, i) >= time {
        assert times.At(n, nextFirst) <= times.At(n, i);
      }
    }
    if next == 0 {
      NoRunsNoSamples(times, n);
    } else {
      SearchInRun(t, time, next - 1, nextFirst);
    }
  }

  lemma {:induction false} FirstsBelow(t: Times, n: nat, run: nat)
    requires t.Valid(n) && run < |t.first|
    ensures t.first[run] < n && (run > 0 ==> t.first[run - 1] < t.first[run])
    ensures run == 0 ==> t.first[run] == 0
  {
  }

  lemma {:induction false} NoRunsNoSamples(t: Times, n: nat)
    requires t.Valid(n)
    ensures t.first == [] ==> n == 0
    ensures t.first != [] ==> t.first[0] == 0
  {
  }

  lemma {:induction false} SearchInRun(t: Tables, time: int, run: nat, runEnd: nat)
    requires t.Valid() && t.Ordered() && run < |t.times.first|
    requires runEnd == if run + 1 < |t.times.first| then t.times.first[run + 1] else t.Len()
    requires t.times.start[run] < time
    requires forall i :: runEnd <= i < t.Len() ==> t.times.At(t.Len(), i) >= time
    ensures var duration := t.times.duration[run];
            var steps := if duration == 0 then 0 else (time - t.times.start[run] + duration - 1) / duration;
            var candidate := t.times.first[run] + steps;
            var p := if duration == 0 || candidate >= runEnd then runEnd else candidate;
            p >= 0 && SplitsAt(t, time, p)
  {
    hide RunsOk, RunOf;
    var n, times := t.Len(), t.times;
    var first, duration := times.first[run], times.duration[run];
    var elapsed := time - times.start[run];
    FirstsBelow(times, n, run);
    RunStart(times, n, run);
    if run + 1 < |times.first| {
      FirstsBelow(times, n, run + 1);
    }
    forall i | first <= i < runEnd ensures times.At(n, i) == times.start[run] + (i - first) * duration {
      InNextRuns(times, n, i, run);
    }
    forall i | 0 <= i < first ensures times.At(n, i) < time {
      assert times.At(n, i) <= times.At(n, first);
    }
    if duration > 0 {
      forall i | first <= i < runEnd
        ensures i - first < (elapsed + duration - 1) / duration <==> times.At(n, i) < time
      {
        CeilDiv(elapsed, duration, i - first);
      }
      CeilDiv(elapsed, duration, 0);
    }
  }

  // ----- Windows and shifts -----

  function Moved(s: Sample, delta: int): Sample {
    s.(decodeTime := s.decodeTime + delta)
  }

  function MovedAll(list: seq<Sample>, delta: int): (r: seq<Sample>)
    ensures |r| == |list|
  {
    seq(|list|, i requires 0 <= i < |list| => Moved(list[i], delta))
  }

  /** `SampleIndex`: a window over shared tables, with every decode time moved by `shift`. */
  datatype SampleIndex = SampleIndex(tables: Tables, start: nat, end: nat, shift: int) {
    ghost predicate Valid() {
      && tables.Valid() && start <= end <= tables.Len()
      && forall i :: start <= i < end ==> 0 <= tables.times.At(tables.Len(), i) + shift <= U64_MAX
    }

    function Len(): nat
      requires start <= end
    {
      end - start
    }

    function Get(index: nat): Sample
      requires Valid() && index < Len()
    {
      Moved(tables.At(start + index), shift)
    }

    /** The plain list this index stands for. */
    function List(): (r: seq<Sample>)
      requires Valid()
      ensures |r| == Len()
    {
      seq(Len(), i requires 0 <= i < Len() => Get(i))
    }

    function PartitionByDecodeTime(time: nat): int
      requires Valid()
    {
      Max(start, Min(SearchTables(tables, time - shift), end)) - start
    }

    function SyncIndices(): seq<int>
      requires Valid()
    {
      match tables.sync
      case None => seq(Len(), i => i)
      case Some(sync) => Rebased(sync, start, end)
    }

    function NthSync(nth: nat): Option<int>
      requires Valid()
    {
      match tables.sync
      case None => if nth < Len() then Some(nth) else None
      case Some(sync) =>
        var position := Below(sync, start) + nth;
        if position < Below(sync, end) then Some(sync[position] - start) else None
    }

    function PayloadBytes(from: nat, until: nat): nat
      requires Valid() && from <= until <= Len()
    {
      SizeSum(tables.chunks.sizes, start + from, start + until)
    }

    function Window(from: nat, until: nat): SampleIndex
      requires Valid() && from <= until <= Len()
    {
      SampleIndex(tables, start + from, start + until, shift)
    }

    /** Fails if a decode time or the end of the last sample would leave `0..=u64::MAX`. */
    function Shifted(delta: int): Result<SampleIndex>
      requires Valid()
    {
      if Len() > 0 &&
         (Get(0).decodeTime + delta < 0
          || Get(Len() - 1).decodeTime + Get(Len() - 1).duration + delta < 0
          || Get(Len() - 1).decodeTime + Get(Len() - 1).duration + delta > U64_MAX)
      then Err
      else Ok(this.(shift := shift + delta))
    }
  }

  /** The sync samples inside a window, counted from its start. */
  function Rebased(sync: seq<nat>, start: nat, end: nat): seq<int> {
    var low, high := Below(sync, start), Below(sync, end);
    if low <= high then seq(high - low, i requires 0 <= i < high - low => sync[low + i] - start) else []
  }

  lemma {:induction false} WindowIsSlice(x: SampleIndex, from: nat, until: nat)
    requires x.Valid() && from <= until <= x.Len()
    ensures x.Window(from, until).Valid() && x.Window(from, until).List() == x.List()[from..until]
  {
    hide SearchTables;
    var w := x.Window(from, until);
    assert w.Valid();
    forall i | 0 <= i < until - from ensures w.List()[i] == x.List()[from..until][i] {
      assert x.start + from + i == x.start + (from + i);
    }
  }

  /** Shifting fails exactly when the moved first or end time leaves the range, and moves the rest. */
  lemma {:induction false} ShiftMoves(x: SampleIndex, delta: int)
    requires x.Valid() && x.tables.Ordered()
    ensures var r, list := x.Shifted(delta), x.List();
            && (r.Err? <==>
                list != [] &&
                var last := list[|list| - 1];
                (list[0].decodeTime + delta < 0 || last.decodeTime + last.duration + delta > U64_MAX))
            && (r.Ok? ==> r.value.Valid() && r.value.List() == MovedAll(list, delta))
            && (r.Ok? ==> r.value.tables == x.tables && r.value.start == x.start)
  {
    hide RunsOk, RunOf;
    var t, n := x.tables.times, x.tables.Len();
    if x.Len() > 0 {
      assert t.At(n, x.start) <= t.At(n, x.end - 1);
      forall i | x.start <= i < x.end ensures t.At(n, x.start) <= t.At(n, i) <= t.At(n, x.end - 1) {
      }
    }
    if x.Shifted(delta).Ok? {
      var moved := x.(shift := x.shift + delta);
      assert moved.Valid();
      forall i | 0 <= i < x.Len() ensures moved.List()[i] == MovedAll(x.List(), delta)[i] {
      }
    }
  }

  /** `partition_by_decode_time` is what `partition_point` gives on the list. */
  lemma {:induction false} PartitionMatchesList(x: SampleIndex, time: nat)
    requires x.Valid() && x.tables.Ordered()
    ensures var p := x.PartitionByDecodeTime(time);
            && 0 <= p <= x.Len()
            && (forall i :: 0 <= i < p ==> x.List()[i].decodeTime < time)
            && (forall i :: p <= i < x.Len() ==> x.List()[i].decodeTime >= time)
  {
    hide SearchTables, RunsOk, RunOf, Times.At;
    SearchCounts(x.tables, time - x.shift);
  }

  lemma {:induction false} ListItem(x: SampleIndex, i: nat)
    requires x.Valid() && i < x.Len()
    ensures x.List()[i].size == x.tables.chunks.sizes[x.start + i]
    ensures x.List()[i].isSync == IsSync(x.tables.sync, x.start + i)
  {
  }

  lemma {:induction false} PayloadIsSum(x: SampleIndex, from: nat, until: nat)
    requires x.Valid() && from <= until <= x.Len()
    ensures x.PayloadBytes(from, until) == ListBytes(x.List()[from..until])
    decreases until
  {
    hide SampleIndex.List, SampleIndex.Get, SampleIndex.Valid;
    if from < until {
      PayloadIsSum(x, from, until - 1);
      ListItem(x, until - 1);
      var slice := x.List()[from..until];
      assert slice[..|slice| - 1] == x.List()[from..until - 1];
    } else {
      assert x.List()[from..until] == [];
    }
  }

  function ListBytes(list: seq<Sample>): nat {
    if list == [] then 0 else ListBytes(list[..|list| - 1]) + list[|list| - 1].size
  }

  // ----- Sync samples -----

  /** The positions of the sync samples of a list. */
  function SyncPositions(list: seq<Sample>): seq<int> {
    if list == [] then []
    else
      var n := |list| - 1;
      SyncPositions(list[..n]) + (if list[n].isSync then [n] else [])
  }

  lemma {:induction false} BelowIs(s: seq<int>, bound: int, p: nat)
    requires p <= |s| && (forall i :: 0 <= i < p ==> s[i] < bound) && (p < |s| ==> s[p] >= bound)
    ensures Below(s, bound) == p
  {
    if p > 0 {
      BelowIs(s[1..], bound, p - 1);
    }
  }

  lemma {:induction false} BelowNext(sync: seq<nat>, end: nat)
    requires StrictlyAscending(sync)
    ensures Below(sync, end + 1) == Below(sync, end) + (if end in sync then 1 else 0)
    ensures end in sync ==> sync[Below(sync, end)] == end
  {
    var p := Below(sync, end);
    if end in sync {
      var i :| 0 <= i < |sync| && sync[i] == end;
      assert p == i;
      BelowIs(sync, end + 1, p + 1);
    } else {
      BelowIs(sync, end + 1, p);
    }
  }

  lemma {:induction false} RebasedNext(sync: seq<nat>, start: nat, end: nat)
    requires StrictlyAscending(sync) && start <= end
    ensures Rebased(sync, start, start) == []
    ensures Rebased(sync, start, end + 1) == Rebased(sync, start, end) + (if end in sync then [end - start] else [])
  {
    hide Below, StrictlyAscending;
    BelowNext(sync, end);
    BelowMonotone(sync, start, end);
    var low, high := Below(sync, start), Below(sync, end);
    var before, after := Rebased(sync, start, end), Rebased(sync, start, end + 1);
    assert |before| == high - low && |after| == |before| + (if end in sync then 1 else 0);
    assert after[..|before|] == before;
  }

  lemma {:induction false} BelowMonotone(sync: seq<nat>, a: nat, b: nat)
    requires a <= b
    ensures Below(sync, a) <= Below(sync, b)
  {
  }

  lemma {:induction false} SyncTable(x: SampleIndex)
    requires x.Valid()
    ensures x.tables.sync.Some? ==> StrictlyAscending(x.tables.sync.value)
    ensures x.start <= x.end
  {
  }

  /** `sync_indices` are the list's sync positions. */
  lemma {:induction false} SyncIndicesMatchList(x: SampleIndex)
    requires x.Valid()
    ensures x.SyncIndices() == SyncPositions(x.List())
    decreases x.end - x.start
  {
    hide SampleIndex.List, SampleIndex.Get, SampleIndex.Valid, Below, StrictlyAscending, Rebased;
    SyncTable(x);
    var n := x.Len();
    if n == 0 {
      if x.tables.sync.Some? {
        RebasedNext(x.tables.sync.value, x.start, x.end);
      }
    } else {
      var w := x.Window(0, n - 1);
      WindowIsSlice(x, 0, n - 1);
      ListItem(x, n - 1);
      SyncIndicesMatchList(w);
      assert x.List()[..n - 1] == x.List()[0..n - 1];
      if x.tables.sync.Some? {
        RebasedNext(x.tables.sync.value, x.start, x.end - 1);
      }
    }
  }

  /** `nth_sync` is the list's `nth` sync position. */
  lemma {:induction false} NthSyncMatchesList(x: SampleIndex, nth: nat)
    requires x.Valid()
    ensures x.NthSync(nth) == if nth < |SyncPositions(x.List())| then Some(SyncPositions(x.List())[nth]) else None
  {
    hide SampleIndex.List, SampleIndex.Valid, Below, SyncPositions;
    SyncTable(x);
    SyncIndicesMatchList(x);
    if x.tables.sync.Some? {
      BelowMonotone(x.tables.sync.value, x.start, x.end);
    }
  }

  // ----- Any nesting -----

  datatype Cut = WindowCut(from: nat, until: nat) | ShiftBy(delta: int)

  /** A chain of windows and shifts on a plain list, with the position of its first sample. */
  function CutList(list: seq<Sample>, cuts: seq<Cut>): Option<(seq<Sample>, nat)>
  {
    if cuts == [] then Some((list, 0))
    else
      match CutList(list, cuts[..|cuts| - 1])
      case None => None
      case Some((l, at)) =>
        match cuts[|cuts| - 1]
        case WindowCut(from, until) => if from <= until <= |l| then Some((l[from..until], at + from)) else None
        case ShiftBy(delta) => Some((MovedAll(l, delta), at))
  }

  /** The same chain on an index; `None` where the code panics or fails. */
  ghost function CutIndex(x: SampleIndex, cuts: seq<Cut>): (r: Option<SampleIndex>)
    requires x.Valid() && x.tables.Ordered()
    ensures r.Some? ==> r.value.Valid() && r.value.tables == x.tables
  {
    if cuts == [] then Some(x)
    else
      match CutIndex(x, cuts[..|cuts| - 1])
      case None => None
      case Some(y) =>
        match cuts[|cuts| - 1]
        case WindowCut(from, until) =>
          if from <= until <= y.Len() then (WindowIsSlice(y, from, until); Some(y.Window(from, until))) else None
        case ShiftBy(delta) =>
          ShiftMoves(y, delta);
          if y.Shifted(delta).Ok? then Some(y.Shifted(delta).value) else None
  }

  /**
   Windows and shifts nest in any order: the index is the list cut the same way, and its first
   sample's position among all the samples of the file is where the cuts say.
   */
  lemma {:induction false} NestingMatchesList(x: SampleIndex, cuts: seq<Cut>)
    requires x.Valid() && x.tables.Ordered() && CutIndex(x, cuts).Some?
    ensures CutList(x.List(), cuts).Some?
    ensures var (list, at) := CutList(x.List(), cuts).value;
            CutIndex(x, cuts).value.List() == list && CutIndex(x, cuts).value.start == x.start + at
    decreases |cuts|
  {
    hide SampleIndex.Shifted, SampleIndex.List, SampleIndex.Valid;
    if cuts != [] {
      NestingMatchesList(x, cuts[..|cuts| - 1]);
      var y := CutIndex(x, cuts[..|cuts| - 1]).value;
      match cuts[|cuts| - 1] {
        case WindowCut(from, until) => WindowIsSlice(y, from, until);
        case ShiftBy(delta) => ShiftMoves(y, delta);
      }
    }
  }

  /** By how much a chain moves decode times. */
  function ShiftSum(cuts: seq<Cut>): int {
    if cuts == [] then 0
    else ShiftSum(cuts[..|cuts| - 1]) + match cuts[|cuts| - 1] case WindowCut(_, _) => 0 case ShiftBy(delta) => delta
  }

  lemma {:induction false} CutListItem(list: seq<Sample>, cuts: seq<Cut>, i: nat)
    requires CutList(list, cuts).Some? && i < |CutList(list, cuts).value.0|
    ensures var (l, at) := CutList(list, cuts).value;
            at + i < |list| && l[i] == Moved(list[at + i], ShiftSum(cuts))
    decreases |cuts|
  {
    if cuts != [] {
      match cuts[|cuts| - 1] {
        case WindowCut(from, _) => CutListItem(list, cuts[..|cuts| - 1], from + i);
        case ShiftBy(_) => CutListItem(list, cuts[..|cuts| - 1], i);
      }
    }
  }

  /**
   After any nesting, `window_start + i` is the position among the samples of the file of the sample
   that sample `i` was cut from, so tables that are indexed by that position stay right.
   */
  lemma {:induction false} WindowNamesSource(x: SampleIndex, cuts: seq<Cut>, i: nat)
    requires x.Valid() && x.tables.Ordered() && x.start == 0 && CutIndex(x, cuts).Some? && i < CutIndex(x, cuts).value.Len()
    ensures var y := CutIndex(x, cuts).value;
            y.start + i < x.Len() && y.List()[i] == Moved(x.List()[y.start + i], ShiftSum(cuts))
  {
    hide SampleIndex.List, SampleIndex.Valid, CutIndex, CutList, ShiftSum;
    NestingMatchesList(x, cuts);
    CutListItem(x.List(), cuts, i);
  }

  // ----- Reading in order -----

  /** The run a cursor has reached: `index` is in it, or is the first sample after it. */
  ghost predicate CursorIn(first: seq<nat>, run: nat, index: nat) {
    run < |first| && first[run] <= index && (run + 1 < |first| ==> index <= first[run + 1])
  }

  /** The `at` loops of `Iter::next`: the cursor moves on to the run that holds `index`. */
  method Advance(first: seq<nat>, run: nat, index: nat) returns (r: nat)
    requires StrictlyAscending(first) && CursorIn(first, run, index)
    ensures InRun(first, r, index) && (r == run || r == run + 1)
    ensures r == run + 1 ==> first[r] == index
  {
    r := run;
    while r + 1 < |first| && first[r + 1] <= index
      invariant run <= r <= run + 1 && r < |first| && first[r] <= index
      invariant r == run ==> CursorIn(first, r, index)
      invariant r == run + 1 ==> first[r] == index
      decreases |first| - r
    {
      r := r + 1;
    }
  }

  /** `Iter`: a cursor into each table instead of a search for each sample. */
  class Iter {
    const index: SampleIndex
    const end: nat
    var position: nat
    var chunk: nat
    var offset: nat
    var timeRun: nat
    var compositionRun: nat
    var sync: nat

    ghost predicate Valid()
      reads this
    {
      var t := index.tables;
      && index.Valid() && index.start <= position <= end <= index.end
      && (position < end ==>
            && CursorIn(t.chunks.first, chunk, position)
            && offset == t.chunks.offset[chunk] + SizeSum(t.chunks.sizes, t.chunks.first[chunk], position)
            && CursorIn(t.times.first, timeRun, position)
            && (t.compositions.first != [] ==> CursorIn(t.compositions.first, compositionRun, position))
            && (t.sync.Some? ==> sync == Below(t.sync.value, position)))
    }

    /** What is still to be read. */
    ghost function Rest(): seq<Sample>
      reads this
      requires Valid()
    {
      index.List()[position - index.start..end - index.start]
    }

    /** `range` */
    constructor (x: SampleIndex, from: nat, until: nat)
      requires x.Valid() && from <= until <= x.Len()
      ensures Valid() && index == x && position == x.start + from && end == x.start + until
    {
      hide SampleIndex.List;
      var t := x.tables;
      var at := x.start + from;
      index, position, end := x, at, x.start + until;
      if at < t.Len() {
        RunOfIs(t.chunks.first, t.Len(), at);
        RunOfIs(t.times.first, t.Len(), at);
        chunk := RunOf(t.chunks.first, at);
        offset := t.chunks.At(at);
        timeRun := RunOf(t.times.first, at);
        if t.compositions.first != [] {
          RunOfIs(t.compositions.first, t.Len(), at);
        }
        compositionRun := if t.compositions.first != [] then RunOf(t.compositions.first, at) else 0;
      } else {
        chunk, offset, timeRun, compositionRun := 0, 0, 0, 0;
      }
      sync := if t.sync.Some? then Below(t.sync.value, at) else 0;
    }

    /** The first half of `next`: every cursor on the run that holds the sample to read. */
    method Seek()
      requires Valid() && position < end
      modifies `chunk, `offset, `timeRun, `compositionRun
      ensures var t := index.tables;
              && InRun(t.chunks.first, chunk, position) && InRun(t.times.first, timeRun, position)
              && |t.chunks.offset| == |t.chunks.first|
              && offset == t.chunks.offset[chunk] + SizeSum(t.chunks.sizes, t.chunks.first[chunk], position)
              && (t.compositions.first != [] ==> InRun(t.compositions.first, compositionRun, position))
    {
      hide SampleIndex.Valid, RunsOk, Below, SizeSum;
      var t := index.tables;
      TablesOf(index);
      ChunkStart(t.chunks.sizes, position);
      var c := Advance(t.chunks.first, chunk, position);
      if c != chunk {
        offset := t.chunks.offset[c];
      }
      chunk := c;
      timeRun := Advance(t.times.first, timeRun, position);
      if t.compositions.first != [] {
        compositionRun := Advance(t.compositions.first, compositionRun, position);
      }
    }

    /** `next`: the next sample of the list, until there are no more. */
    method Next() returns (r: Option<Sample>)
      requires Valid()
      modifies this
      ensures Valid()
      ensures old(Rest()) == [] ==> r == None && Rest() == []
      ensures old(Rest()) != [] ==> r == Some(old(Rest())[0]) && Rest() == old(Rest())[1..]
    {
      hide SampleIndex.Valid, SampleIndex.List, SampleIndex.Get, RunsOk, Below, SizeSum, Times.In;
      TablesOf(index);
      if position >= end {
        return None;
      }
      var t := index.tables;
      RestStep(index, position, end);
      Seek();
      var composition := if t.compositions.first != [] then t.compositions.offset[compositionRun] else 0;
      var isSync := true;
      if t.sync.Some? {
        BelowNext(t.sync.value, position);
        SyncHit(t.sync.value, position);
        isSync := sync < |t.sync.value| && t.sync.value[sync] == position;
        if isSync {
          sync := sync + 1;
        }
      }
      var size := t.chunks.sizes[position];
      CursorReads(index, position, chunk, offset, timeRun, compositionRun);
      NextCursors(t, position, chunk, timeRun, compositionRun);
      r := Some(Sample(offset, size, t.times.In(timeRun, position) + index.shift, t.times.duration[timeRun], composition, isSync));
      offset := offset + size;
      position := position + 1;
    }
  }

  lemma {:induction false} TablesOf(x: SampleIndex)
    requires x.Valid()
    ensures StrictlyAscending(x.tables.chunks.first) && |x.tables.chunks.offset| == |x.tables.chunks.first|
    ensures StrictlyAscending(x.tables.times.first) && |x.tables.times.start| == |x.tables.times.duration| == |x.tables.times.first|
    ensures StrictlyAscending(x.tables.compositions.first) && |x.tables.compositions.offset| == |x.tables.compositions.first|
    ensures x.tables.sync.Some? ==> StrictlyAscending(x.tables.sync.value)
    ensures x.start <= x.end <= x.tables.Len()
  {
  }

  lemma {:induction false} RestStep(x: SampleIndex, position: nat, end: nat)
    requires x.Valid() && x.start <= position < end <= x.end
    ensures var rest := x.List()[position - x.start..end - x.start];
            rest != [] && rest[0] == x.Get(position - x.start)
            && rest[1..] == x.List()[position + 1 - x.start..end - x.start]
  {
    hide SampleIndex.Get;
  }

  /** Cursors on the runs that hold a sample read that sample. */
  lemma {:induction false} CursorReads(x: SampleIndex, position: nat, chunk: nat, offset: nat, timeRun: nat, compositionRun: nat)
    requires x.Valid() && x.start <= position < x.end
    requires var t := x.tables;
             && InRun(t.chunks.first, chunk, position) && InRun(t.times.first, timeRun, position)
             && offset == t.chunks.offset[chunk] + SizeSum(t.chunks.sizes, t.chunks.first[chunk], position)
             && (t.compositions.first != [] ==> InRun(t.compositions.first, compositionRun, position))
    ensures var t := x.tables;
            x.Get(position - x.start)
            == Sample(offset, t.chunks.sizes[position], t.times.In(timeRun, position) + x.shift, t.times.duration[timeRun],
                      if t.compositions.first != [] then t.compositions.offset[compositionRun] else 0,
                      IsSync(t.sync, position))
  {
    hide RunOf, RunsOk, SizeSum, Times.In;
    var t := x.tables;
    RunOfIs(t.chunks.first, t.Len(), position);
    RunOfIs(t.times.first, t.Len(), position);
    if t.compositions.first != [] {
      RunOfIs(t.compositions.first, t.Len(), position);
    }
  }

  /** After a sample the cursors are in its runs or at their ends. */
  lemma {:induction false} NextCursors(t: Tables, position: nat, chunk: nat, timeRun: nat, compositionRun: nat)
    requires position < |t.chunks.sizes|
    ensures InRun(t.chunks.first, chunk, position) ==>
              && CursorIn(t.chunks.first, chunk, position + 1)
              && SizeSum(t.chunks.sizes, t.chunks.first[chunk], position + 1)
                 == SizeSum(t.chunks.sizes, t.chunks.first[chunk], position) + t.chunks.sizes[position]
    ensures InRun(t.times.first, timeRun, position) ==> CursorIn(t.times.first, timeRun, position + 1)
    ensures InRun(t.compositions.first, compositionRun, position) ==> CursorIn(t.compositions.first, compositionRun, position + 1)
  {
  }

  /** A chunk starts at its own offset. */
  lemma {:induction false} ChunkStart(sizes: seq<nat>, from: nat)
    requires from <= |sizes|
    ensures SizeSum(sizes, from, from) == 0
  {
  }

  lemma {:induction false} SyncHit(sync: seq<nat>, position: nat)
    requires StrictlyAscending(sync)
    ensures var p := Below(sync, position); position in sync <==> p < |sync| && sync[p] == position
  {
    BelowNext(sync, position);
  }

  /** `to_vec`: the iterator, collected. */
  method ToVec(x: SampleIndex, from: nat, until: nat) returns (v: seq<Sample>)
    requires x.Valid() && from <= until <= x.Len()
    ensures v == x.List()[from..until]
  {
    hide SampleIndex.List, SampleIndex.Valid, Iter.Valid;
    v := [];
    var iter := new Iter(x, from, until);
    var next := iter.Next();
    while next.Some?
      invariant fresh(iter) && iter.Valid()
      invariant next.Some? ==> v + [next.value] + iter.Rest() == x.List()[from..until]
      invariant next.None? ==> v == x.List()[from..until]
      decreases |x.List()| - |v|, next.Some?
    {
      v := v + [next.value];
      next := iter.Next();
    }
  }
}
