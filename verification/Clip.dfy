/**
 Cutting one file's tracks down to a time window and placing them on a sequence's timeline
 (src/clip.rs): integer conversions that round down, and what their roundings add up to.
 */
module Clip {
  import opened Common
  import opened Samples
  import opened Fragment

  const NANOS_PER_SECOND: nat := 1_000_000_000

  // ----- Conversions -----

  /** `TimelinePosition::in_ticks`; positions are in nanoseconds. */
  function InTicks(position: nat, timescale: u32): Result<nat> {
    var ticks := position * timescale / NANOS_PER_SECOND;
    if ticks > U64_MAX then Err else Ok(ticks)
  }

  /** `TimelinePosition::after` */
  function After(position: nat, ticks: nat, timescale: u32): Result<nat> {
    if timescale == 0 then Err
    else
      var nanos := ticks * NANOS_PER_SECOND / timescale;
      if nanos > U64_MAX || position + nanos > U64_MAX then Err else Ok(position + nanos)
  }

  function MsToTicks(milliseconds: nat, timescale: u32): Result<nat> {
    var ticks := milliseconds * timescale / 1000;
    if ticks > U64_MAX then Err else Ok(ticks)
  }

  function Rescale(value: nat, from: u32, into: u32): Result<nat> {
    if from == 0 then Err
    else
      var product: nat := value * into;
      if product / from > U64_MAX then Err else Ok(product / from)
  }

  /** `n / d` is `t`, rounded down. */
  predicate RoundsDown(n: nat, d: nat, t: int) {
    t * d <= n < (t + 1) * d
  }

  lemma {:induction false} DivisionRounds(n: nat, d: nat, t: int)
    requires d > 0
    ensures n / d == t <==> RoundsDown(n, d, t)
  {
    var q := n / d;
    assert n == q * d + n % d;
    if RoundsDown(n, d, t) {
      if t < q {
        StepDown(t + 1, q, d);
      } else if t > q {
        StepDown(q + 1, t, d);
      }
    }
  }

  lemma {:induction false} StepDown(a: int, b: int, d: nat)
    requires a <= b
    ensures a * d <= b * d
  {
  }

  /** Conversions round down, and fail exactly when the result needs more than 64 bits or a clock stands still. */
  lemma {:induction false} TicksRoundDown(value: nat, into: u32, product: nat, t: nat)
    requires product == value * into
    ensures InTicks(value, into) == Ok(t) <==> t <= U64_MAX && RoundsDown(product, 1_000_000_000, t)
    ensures MsToTicks(value, into) == Ok(t) <==> t <= U64_MAX && RoundsDown(product, 1000, t)
  {
    hide RoundsDown;
    DivisionRounds(product, 1_000_000_000, t);
    DivisionRounds(product, 1000, t);
  }

  lemma {:induction false} RescaleRoundsDown(value: nat, from: u32, into: u32, product: nat, t: nat)
    requires product == value * into
    ensures Rescale(value, from, into) == Ok(t) <==> from > 0 && t <= U64_MAX && RoundsDown(product, from, t)
  {
    hide RoundsDown;
    if from > 0 {
      DivisionRounds(product, from, t);
    }
  }

  lemma {:induction false} AfterRoundsDown(position: nat, ticks: nat, timescale: u32, t: nat)
    ensures After(position, ticks, timescale) == Ok(t)
            <==> timescale > 0 && position <= t <= U64_MAX && RoundsDown(ticks * 1_000_000_000, timescale, t - position)
  {
    hide RoundsDown;
    if timescale > 0 {
      var nanos := ticks * 1_000_000_000;
      var later := nanos / timescale;
      DivisionRounds(nanos, timescale, t - position);
      AfterIs(position, ticks, timescale, later);
    }
  }

  lemma {:induction false} AfterIs(position: nat, ticks: nat, timescale: u32, later: nat)
    requires timescale > 0 && later == ticks * 1_000_000_000 / timescale
    ensures After(position, ticks, timescale) == if position + later > U64_MAX then Err else Ok(position + later)
  {
  }

  function Presented(s: Sample): int {
    s.decodeTime + s.compositionOffset
  }

  function SampleEnd(s: Sample): Result<int> {
    if s.decodeTime + s.duration > U64_MAX then Err else Ok(s.decodeTime + s.duration)
  }

  // ----- Tracks -----

  datatype Track = Track(id: u32, kind: TrackKind, timescale: u32, samples: SampleIndex) {
    /** Decode times never go back, and every field is as wide as its box stores it. */
    ghost predicate Valid() {
      && samples.Valid() && samples.tables.Ordered()
      && forall i :: 0 <= i < samples.Len() ==> OnWire(samples.List()[i])
    }
  }

  datatype MediaIndex = MediaIndex(movieTimescale: u32, presentationOffsetMs: nat, tracks: seq<Track>) {
    ghost predicate Valid() {
      && (forall i :: 0 <= i < |tracks| ==> tracks[i].Valid())
      && (forall i, j :: 0 <= i < j < |tracks| ==> tracks[i].id != tracks[j].id)
    }
  }

  datatype ClipWindow = ClipWindow(fromMs: nat, toMs: Option<nat>)

  datatype Trailing = Keep | Cut

  function FirstOf(tracks: seq<Track>, kind: TrackKind): (r: Option<Track>)
    ensures r.Some? ==> r.value in tracks && r.value.kind == kind
    ensures r.Some? ==> exists i :: 0 <= i < |tracks| && tracks[i] == r.value && forall j :: 0 <= j < i ==> tracks[j].kind != kind
    ensures r.None? ==> forall t :: t in tracks ==> t.kind != kind
  {
    if tracks == [] then None
    else if tracks[0].kind == kind then Some(tracks[0])
    else FirstOf(tracks[1..], kind)
  }

  /** `reference_track`: the first video track, or else the first audio track. */
  function ReferenceTrack(tracks: seq<Track>): (r: Option<Track>)
    ensures r.Some? ==> r.value in tracks
  {
    match FirstOf(tracks, Video)
    case Some(track) => Some(track)
    case None => FirstOf(tracks, Audio)
  }

  // ----- Windows -----

  lemma {:induction false} SyncPositionsAre(list: seq<Sample>)
    ensures forall i :: 0 <= i < |list| && list[i].isSync ==> i in SyncPositions(list)
    ensures forall k :: 0 <= k < |SyncPositions(list)| ==>
              0 <= SyncPositions(list)[k] < |list| && list[SyncPositions(list)[k]].isSync
    ensures forall j, k :: 0 <= j < k < |SyncPositions(list)| ==> SyncPositions(list)[j] < SyncPositions(list)[k]
  {
    if list != [] {
      var n := |list| - 1;
      SyncPositionsAre(list[..n]);
      assert list[n].isSync ==> SyncPositions(list)[|SyncPositions(list)| - 1] == n;
      forall i | 0 <= i < |list| && list[i].isSync ensures i in SyncPositions(list) {
        assert i < n ==> list[..n][i].isSync;
      }
    }
  }

  predicate Positions(list: seq<Sample>, positions: seq<int>) {
    forall k :: 0 <= k < |positions| ==> 0 <= positions[k] < |list|
  }

  /** The last of these samples shown at or before `from`. */
  function LastShown(list: seq<Sample>, positions: seq<int>, from: int): (r: Option<nat>)
    requires Positions(list, positions)
    ensures r.Some? ==> exists k :: 0 <= k < |positions| && positions[k] == r.value && Presented(list[positions[k]]) <= from &&
                                    forall j :: k < j < |positions| ==> Presented(list[positions[j]]) > from
    ensures r.None? ==> forall k :: 0 <= k < |positions| ==> Presented(list[positions[k]]) > from
  {
    if positions == [] then None
    else
      var n := |positions| - 1;
      if Presented(list[positions[n]]) <= from then Some(positions[n]) else LastShown(list, positions[..n], from)
  }

  /** How many samples reach through the last one shown before `until`. */
  function ShownBefore(list: seq<Sample>, until: int): (n: nat)
    ensures n <= |list|
    ensures n > 0 ==> Presented(list[n - 1]) < until
    ensures forall i :: n <= i < |list| ==> Presented(list[i]) >= until
  {
    if list == [] then 0
    else if Presented(list[|list| - 1]) < until then |list|
    else ShownBefore(list[..|list| - 1], until)
  }

  function VideoFirst(samples: SampleIndex, from: nat): (first: nat)
    requires samples.Valid()
    ensures samples.Len() > 0 ==> first < samples.Len()
    ensures samples.Len() == 0 ==> first == 0
  {
    SyncIndicesMatchList(samples);
    SyncPositionsAre(samples.List());
    var list, sync := samples.List(), samples.SyncIndices();
    var shown := LastShown(list, sync, from);
    if shown.Some? then shown.value else if sync != [] then sync[0] else 0
  }

  function VideoWindow(samples: SampleIndex, from: nat, until: Option<nat>): (nat, nat)
    requires samples.Valid()
  {
    var first := VideoFirst(samples, from);
    var end := match until
      case None => samples.Len()
      case Some(until) =>
        var n := ShownBefore(samples.List()[first..], until);
        if n == 0 then first + 1 else first + n;
    (first, Max(end, first + 1))
  }

  function AudioWindow(samples: SampleIndex, from: nat, until: Option<nat>): (int, int)
    requires samples.Valid()
  {
    var first := Max(0, samples.PartitionByDecodeTime(Min(from + 1, U64_MAX)) - 1);
    var end := match until case None => samples.Len() case Some(until) => samples.PartitionByDecodeTime(until);
    (first, Max(end, first + 1))
  }

  function FollowerWindow(samples: SampleIndex, start: nat, end: nat, toTheEnd: bool): (int, int)
    requires samples.Valid()
  {
    var first := samples.PartitionByDecodeTime(start);
    var last := if toTheEnd then samples.Len() else samples.PartitionByDecodeTime(end);
    (first, Max(last, first))
  }

  /** At the last keyframe shown at or before `from`, or else at the first keyframe, if there is any. */
  ghost predicate StartsRight(list: seq<Sample>, from: int, first: nat) {
    && first < |list|
    && (list[first].isSync || (first == 0 && forall i :: 0 <= i < |list| ==> !list[i].isSync))
    && (list[first].isSync && Presented(list[first]) <= from ==>
          forall i :: first < i < |list| && list[i].isSync ==> Presented(list[i]) > from)
    && (list[first].isSync && Presented(list[first]) > from ==>
          forall i :: 0 <= i < |list| && list[i].isSync ==> i >= first && Presented(list[i]) > from)
  }

  /** The shortest run from `first` outside which no later frame is shown before `until`. */
  ghost predicate EndsRight(list: seq<Sample>, first: nat, end: nat, until: Option<nat>) {
    && first < end <= |list|
    && (until.None? ==> end == |list|)
    && (until.Some? ==> forall i :: end <= i < |list| ==> Presented(list[i]) >= until.value)
    && (until.Some? && end > first + 1 ==> Presented(list[end - 1]) < until.value)
  }

  lemma {:induction false} VideoWindowKeeps(samples: SampleIndex, from: nat, until: Option<nat>)
    requires samples.Valid() && samples.Len() > 0
    ensures var (first, end) := VideoWindow(samples, from, until);
            StartsRight(samples.List(), from, first) && EndsRight(samples.List(), first, end, until)
  {
    hide SampleIndex.List, SampleIndex.Valid, StartsRight, Presented, VideoFirst;
    var list, first := samples.List(), VideoFirst(samples, from);
    FirstKept(samples, from);
    if until.Some? {
      var n := ShownBefore(list[first..], until.value);
      forall i | first + n <= i < |list| ensures Presented(list[i]) >= until.value {
        assert list[first..][i - first] == list[i];
      }
    }
  }

  lemma {:induction false} FirstKept(samples: SampleIndex, from: nat)
    requires samples.Valid() && samples.Len() > 0
    ensures StartsRight(samples.List(), from, VideoFirst(samples, from))
  {
    hide SampleIndex.List, SampleIndex.SyncIndices, SampleIndex.Valid, SyncPositions, StartsRight, Presented;
    SyncIndicesMatchList(samples);
    var list, sync := samples.List(), samples.SyncIndices();
    SyncPositionsAre(list);
    var shown := LastShown(list, sync, from);
    if shown.Some? {
      LastKept(list, sync, from);
    } else {
      FirstOrNone(list, sync, from);
    }
  }

  lemma {:induction false} LastKept(list: seq<Sample>, sync: seq<int>, from: int)
    requires sync == SyncPositions(list) && Positions(list, sync) && LastShown(list, sync, from).Some?
    ensures StartsRight(list, from, LastShown(list, sync, from).value)
  {
    hide SyncPositions, Presented;
    SyncPositionsAre(list);
    var first := LastShown(list, sync, from).value;
    var k :| 0 <= k < |sync| && sync[k] == first && Presented(list[sync[k]]) <= from &&
             forall j :: k < j < |sync| ==> Presented(list[sync[j]]) > from;
    forall i | first < i < |list| && list[i].isSync ensures Presented(list[i]) > from {
      var j :| 0 <= j < |sync| && sync[j] == i;
    }
  }

  lemma {:induction false} FirstOrNone(list: seq<Sample>, sync: seq<int>, from: int)
    requires list != [] && sync == SyncPositions(list) && Positions(list, sync) && LastShown(list, sync, from).None?
    ensures StartsRight(list, from, if sync != [] then sync[0] else 0)
  {
    hide SyncPositions, Presented, LastShown;
    SyncPositionsAre(list);
    forall i | 0 <= i < |list| && list[i].isSync ensures sync != [] && i >= sync[0] && Presented(list[i]) > from {
      var j :| 0 <= j < |sync| && sync[j] == i;
    }
  }

  /** An audio window begins at the last frame that starts at or before `from`, and ends before the first at or after `until`. */
  lemma {:induction false} AudioWindowKeeps(samples: SampleIndex, from: nat, until: Option<nat>)
    requires samples.Valid() && samples.tables.Ordered() && samples.Len() > 0 && from < U64_MAX
    ensures var list, (first, end) := samples.List(), AudioWindow(samples, from, until);
            && 0 <= first < end <= |list|
            && (forall i :: first < i < |list| ==> list[i].decodeTime > from)
            && (first > 0 ==> list[first].decodeTime <= from)
            && (until.None? ==> end == |list|)
            && (until.Some? ==> forall i :: first < i < |list| ==> (i < end <==> list[i].decodeTime < until.value))
  {
    hide SampleIndex.List, SampleIndex.PartitionByDecodeTime, SampleIndex.Valid, Tables.Ordered;
    PartitionMatchesList(samples, from + 1);
    if until.Some? {
      PartitionMatchesList(samples, until.value);
    }
  }

  /** A follower keeps exactly the samples that decode inside the span, or from its start on. */
  lemma {:induction false} FollowerWindowKeeps(samples: SampleIndex, start: nat, end: nat, toTheEnd: bool)
    requires samples.Valid() && samples.tables.Ordered()
    ensures var list, (first, last) := samples.List(), FollowerWindow(samples, start, end, toTheEnd);
            && 0 <= first <= last <= |list|
            && forall i :: 0 <= i < |list| ==>
                 (first <= i < last <==> start <= list[i].decodeTime && (toTheEnd || list[i].decodeTime < end))
  {
    hide SampleIndex.List, SampleIndex.PartitionByDecodeTime, SampleIndex.Valid, Tables.Ordered;
    PartitionMatchesList(samples, start);
    PartitionMatchesList(samples, end);
  }

  // ----- Placing a clip -----

  /** The earliest any of these samples is shown. */
  function Earliest(list: seq<Sample>): (t: int)
    requires list != []
    ensures forall i :: 0 <= i < |list| ==> t <= Presented(list[i])
    ensures exists i :: 0 <= i < |list| && t == Presented(list[i])
  {
    var n := |list| - 1;
    if n == 0 then Presented(list[0]) else Min(Earliest(list[..n]), Presented(list[n]))
  }

  /** What is kept of the reference track, and how much later it moves so that no frame shows early. */
  datatype Placement = Placement(first: nat, end: nat, origin: nat, keptEnd: nat, lead: nat)

  function ReferenceWindow(offset: nat, reference: Track, window: ClipWindow): (r: Result<(nat, nat)>)
    requires reference.Valid()
    ensures r.Ok? ==> r.value.0 < r.value.1 <= reference.samples.Len()
  {
    var samples := reference.samples;
    if samples.Len() == 0 then Err
    else
      var referenceEnd :- SampleEnd(samples.Get(samples.Len() - 1));
      if window.fromMs + offset > U64_MAX then Err
      else
        var from :- MsToTicks(window.fromMs + offset, reference.timescale);
        if from >= referenceEnd then Err
        else
          var until :- UntilTicks(offset, reference.timescale, window.toMs);
          if until.Some? && until.value <= from then Err
          else
            var bounded := if until.Some? && until.value < referenceEnd then until else None;
            VideoWindowKeeps(samples, from, bounded);
            AudioWindowKeeps(samples, from, bounded);
            if reference.kind.Video? then Ok(VideoWindow(samples, from, bounded))
            else
              var (first, end) := AudioWindow(samples, from, bounded);
              Ok((first, end))
  }

  function UntilTicks(offset: nat, timescale: u32, toMs: Option<nat>): Result<Option<nat>> {
    match toMs
    case None => Ok(None)
    case Some(ms) =>
      if ms + offset > U64_MAX then Err
      else
        var ticks :- MsToTicks(ms + offset, timescale);
        Ok(Some(ticks))
  }

  // ----- What is kept, in milliseconds -----

  /**
   A millisecond is `timescale` units here and a tick is 1000, so nothing is rounded: of a video track
   the keyframe kept first is the last shown by `from`, or the first of all, and the frames kept end
   with the last that is shown a whole tick before `until`, if any is to be left out.
   */
  ghost predicate VideoInTime(list: seq<Sample>, from: nat, until: Option<nat>, first: nat, end: nat) {
    && first < end <= |list|
    && (forall i :: first < i < |list| && list[i].isSync ==> 1000 * (list[i].decodeTime + list[i].compositionOffset) > from)
    && ((list[first].isSync && 1000 * (list[first].decodeTime + list[first].compositionOffset) <= from)
        || (forall i :: 0 <= i < |list| && list[i].isSync ==> i >= first && 1000 * (list[i].decodeTime + list[i].compositionOffset) > from))
    && (until.None? ==> end == |list|)
    && (until.Some? ==> forall i :: end <= i < |list| ==> 1000 * (list[i].decodeTime + list[i].compositionOffset + 1) > until.value)
    && (end < |list| && end > first + 1 ==> 1000 * (list[end - 1].decodeTime + list[end - 1].compositionOffset + 1) <= until.value)
  }

  /** Of an audio track the frames kept run from the last that starts by `from` to the last that starts a whole tick before `until`. */
  ghost predicate AudioInTime(list: seq<Sample>, from: nat, until: Option<nat>, first: nat, end: nat) {
    && first < end <= |list|
    && (forall i :: first < i < |list| ==> 1000 * list[i].decodeTime > from)
    && (first > 0 ==> 1000 * list[first].decodeTime <= from)
    && (until.None? ==> end == |list|)
    && (until.Some? && end < |list| ==> forall i :: first < i < |list| ==> (i < end <==> 1000 * (list[i].decodeTime + 1) <= until.value))
  }

  /** Milliseconds in units of which a tick is 1000. */
  function Units(milliseconds: nat, timescale: u32): nat {
    milliseconds * timescale
  }

  lemma {:induction false} TicksAre(milliseconds: nat, timescale: u32, t: int)
    requires MsToTicks(milliseconds, timescale).Ok?
    ensures var ticks := MsToTicks(milliseconds, timescale).value;
            && (t <= ticks <==> 1000 * t <= Units(milliseconds, timescale))
            && (t < ticks <==> 1000 * (t + 1) <= Units(milliseconds, timescale))
  {
    var product := Units(milliseconds, timescale);
    assert product == 1000 * (product / 1000) + product % 1000;
  }

  /**
   The reference track's window is what `fromMs` and `toMs` ask for, both later by the file's own
   presentation offset.
   */
  lemma {:induction false} WindowInTime(offset: nat, reference: Track, window: ClipWindow)
    requires reference.Valid() && ReferenceWindow(offset, reference, window).Ok?
    ensures var list, (first, end) := reference.samples.List(), ReferenceWindow(offset, reference, window).value;
            var from := Units(window.fromMs + offset, reference.timescale);
            var until := if window.toMs.None? then None else Some(Units(window.toMs.value + offset, reference.timescale));
            && (until.Some? ==> until.value > from)
            && (if reference.kind.Video? then VideoInTime(list, from, until, first, end) else AudioInTime(list, from, until, first, end))
  {
    hide SampleIndex.List, SampleIndex.Valid, Tables.Ordered, OnWire, VideoWindow, AudioWindow, StartsRight, EndsRight, MsToTicks,
      SampleIndex.Get, Presented, VideoInTime, AudioInTime, Units;
    var samples := reference.samples;
    var referenceEnd := SampleEnd(samples.Get(samples.Len() - 1)).value;
    DecodeTimeFits(samples, samples.Len() - 1);
    var from := MsToTicks(window.fromMs + offset, reference.timescale).value;
    var asked := UntilTicks(offset, reference.timescale, window.toMs).value;
    var until := if asked.Some? && asked.value < referenceEnd then asked else None;
    if window.toMs.Some? {
      Later(window.fromMs + offset, window.toMs.value + offset, reference.timescale);
    }
    if reference.kind.Video? {
      VideoWindowKeeps(samples, from, until);
      var (first, end) := VideoWindow(samples, from, until);
      VideoTimes(samples.List(), window.fromMs + offset, window.toMs, offset, reference.timescale, until, first, end);
    } else {
      TicksBelow(window.fromMs + offset, reference.timescale, referenceEnd);
      AudioWindowKeeps(samples, from, until);
      var (first, end) := AudioWindow(samples, from, until);
      AudioTimes(samples.List(), window.fromMs + offset, window.toMs, offset, reference.timescale, until, first, end);
    }
  }

  /** When a window is refused: no samples, times beyond 64 bits, nothing left to show, or no whole tick between its ends. */
  lemma {:induction false} WindowRefused(offset: nat, reference: Track, window: ClipWindow)
    requires reference.Valid()
    ensures var list := reference.samples.List();
            ReferenceWindow(offset, reference, window).Ok?
            <==> list != []
                 && var last := list[|list| - 1].decodeTime + list[|list| - 1].duration;
                    && last <= U64_MAX && window.fromMs + offset <= U64_MAX
                    && Units(window.fromMs + offset, reference.timescale) < 1000 * last
                    && (window.toMs.Some? ==>
                          && window.toMs.value + offset <= U64_MAX
                          && Units(window.toMs.value + offset, reference.timescale) < 1000 * (U64_MAX + 1)
                          && HasTick(Units(window.fromMs + offset, reference.timescale),
                                     Units(window.toMs.value + offset, reference.timescale)))
  {
    hide SampleIndex.List, Tables.Ordered, OnWire, VideoWindow, AudioWindow, SampleIndex.Get, Units, MsToTicks, HasTick;
    var samples := reference.samples;
    if samples.Len() > 0 {
      DecodeTimeFits(samples, samples.Len() - 1);
      var last := samples.Get(samples.Len() - 1).decodeTime + samples.Get(samples.Len() - 1).duration;
      TicksOk(window.fromMs + offset, reference.timescale);
      if MsToTicks(window.fromMs + offset, reference.timescale).Ok? {
        TicksAre(window.fromMs + offset, reference.timescale, last);
        if window.toMs.Some? {
          TicksOk(window.toMs.value + offset, reference.timescale);
          if MsToTicks(window.toMs.value + offset, reference.timescale).Ok? {
            WholeTick(window.fromMs + offset, window.toMs.value + offset, reference.timescale);
          }
        }
      }
    }
  }

  /** Tick `t` lies after `a` and not after `b`. */
  predicate Between(a: nat, t: nat, b: nat) {
    a < 1000 * t <= b
  }

  ghost predicate HasTick(a: nat, b: nat) {
    exists t: nat :: Between(a, t, b)
  }

  lemma {:induction false} TicksOk(milliseconds: nat, timescale: u32)
    ensures MsToTicks(milliseconds, timescale).Ok? <==> Units(milliseconds, timescale) < 1000 * (U64_MAX + 1)
  {
    var product := Units(milliseconds, timescale);
    assert product == 1000 * (product / 1000) + product % 1000;
  }

  lemma {:induction false} WholeTick(a: nat, b: nat, timescale: u32)
    requires MsToTicks(a, timescale).Ok? && MsToTicks(b, timescale).Ok?
    ensures MsToTicks(b, timescale).value > MsToTicks(a, timescale).value
            <==> HasTick(Units(a, timescale), Units(b, timescale))
  {
    hide Units, MsToTicks;
    var from, until := MsToTicks(a, timescale).value, MsToTicks(b, timescale).value;
    TicksAre(a, timescale, until);
    TicksAre(b, timescale, until);
    if until > from {
      assert Between(Units(a, timescale), until, Units(b, timescale));
    }
    if t: nat :| Between(Units(a, timescale), t, Units(b, timescale)) {
      TicksAre(a, timescale, t);
      TicksAre(b, timescale, t);
    }
  }

  lemma {:induction false} TicksBelow(milliseconds: nat, timescale: u32, end: int)
    requires MsToTicks(milliseconds, timescale).Ok? && MsToTicks(milliseconds, timescale).value < end <= U64_MAX
    ensures MsToTicks(milliseconds, timescale).value < U64_MAX
  {
  }

  lemma {:induction false} Later(a: nat, b: nat, timescale: u32)
    requires MsToTicks(a, timescale).Ok? && MsToTicks(b, timescale).Ok?
    ensures MsToTicks(b, timescale).value > MsToTicks(a, timescale).value ==> Units(b, timescale) > Units(a, timescale)
  {
    TicksAre(a, timescale, MsToTicks(b, timescale).value);
    TicksAre(b, timescale, MsToTicks(b, timescale).value);
  }

  lemma {:induction false} VideoTimes(list: seq<Sample>, fromMs: nat, toMs: Option<nat>, offset: nat, timescale: u32,
                                      until: Option<nat>, first: nat, end: nat)
    requires MsToTicks(fromMs, timescale).Ok?
    requires StartsRight(list, MsToTicks(fromMs, timescale).value, first) && EndsRight(list, first, end, until)
    requires until.Some? ==> toMs.Some? && MsToTicks(toMs.value + offset, timescale) == Ok(until.value)
    requires toMs.None? ==> until.None?
    ensures VideoInTime(list, Units(fromMs, timescale), if toMs.None? then None else Some(Units(toMs.value + offset, timescale)), first, end)
  {
    hide MsToTicks, Units;
    forall i | 0 <= i < |list|
      ensures Presented(list[i]) <= MsToTicks(fromMs, timescale).value <==> 1000 * Presented(list[i]) <= Units(fromMs, timescale)
      ensures until.Some? ==> (Presented(list[i]) < until.value <==> 1000 * (Presented(list[i]) + 1) <= Units(toMs.value + offset, timescale))
    {
      TicksAre(fromMs, timescale, Presented(list[i]));
      if until.Some? {
        TicksAre(toMs.value + offset, timescale, Presented(list[i]));
      }
    }
  }

  lemma {:induction false} AudioTimes(list: seq<Sample>, fromMs: nat, toMs: Option<nat>, offset: nat, timescale: u32,
                                      until: Option<nat>, first: nat, end: nat)
    requires MsToTicks(fromMs, timescale).Ok? && first < end <= |list|
    requires forall i :: first < i < |list| ==> list[i].decodeTime > MsToTicks(fromMs, timescale).value
    requires first > 0 ==> list[first].decodeTime <= MsToTicks(fromMs, timescale).value
    requires until.None? ==> end == |list|
    requires until.Some? ==> forall i :: first < i < |list| ==> (i < end <==> list[i].decodeTime < until.value)
    requires until.Some? ==> toMs.Some? && MsToTicks(toMs.value + offset, timescale) == Ok(until.value)
    requires toMs.None? ==> until.None?
    ensures AudioInTime(list, Units(fromMs, timescale), if toMs.None? then None else Some(Units(toMs.value + offset, timescale)), first, end)
  {
    hide MsToTicks, Units;
    forall i | 0 <= i < |list|
      ensures list[i].decodeTime <= MsToTicks(fromMs, timescale).value <==> 1000 * list[i].decodeTime <= Units(fromMs, timescale)
      ensures until.Some? ==> (list[i].decodeTime < until.value <==> 1000 * (list[i].decodeTime + 1) <= Units(toMs.value + offset, timescale))
    {
      TicksAre(fromMs, timescale, list[i].decodeTime);
      if until.Some? {
        TicksAre(toMs.value + offset, timescale, list[i].decodeTime);
      }
    }
  }

  /** Cuts are decided on the first video track, or on the first audio track when there is no video. */
  lemma {:induction false} ReferenceIsFirst(tracks: seq<Track>)
    ensures var r := ReferenceTrack(tracks);
            && (r.None? <==> tracks == [])
            && (r.Some? ==> exists i ::
                  && 0 <= i < |tracks| && tracks[i] == r.value
                  && (tracks[i].kind.Audio? ==> forall j :: 0 <= j < |tracks| ==> tracks[j].kind.Audio?)
                  && forall j :: 0 <= j < i ==> tracks[j].kind != tracks[i].kind)
  {
    assert forall j :: 0 <= j < |tracks| ==> tracks[j] in tracks;
  }

  lemma {:induction false} DecodeTimeFits(samples: SampleIndex, i: nat)
    requires samples.Valid() && i < samples.Len()
    ensures 0 <= samples.Get(i).decodeTime <= U64_MAX && samples.List()[i] == samples.Get(i)
  {
    hide RunsOk, RunOf, Times.At, Chunks.At, Compositions.At, IsSync;
  }

  function PlacementOf(offset: nat, reference: Track, window: ClipWindow): (r: Result<Placement>)
    requires reference.Valid()
    ensures r.Ok? ==> r.value.first < r.value.end <= reference.samples.Len()
  {
    hide SampleIndex.List, SampleIndex.Get, SampleIndex.Valid, Tables.Ordered, ReferenceWindow, Earliest, OnWire;
    var (first, end) :- ReferenceWindow(offset, reference, window);
    WindowIsSlice(reference.samples, first, end);
    var kept := reference.samples.Window(first, end);
    DecodeTimeFits(reference.samples, first);
    DecodeTimeFits(kept, kept.Len() - 1);
    var origin := reference.samples.Get(first).decodeTime;
    var keptEnd :- SampleEnd(kept.Get(kept.Len() - 1));
    var ahead := origin - Earliest(kept.List());
    Ok(Placement(first, end, origin, keptEnd, if 0 <= ahead <= U64_MAX then ahead else 0))
  }

  /** `moved_track`: `None` of it is left is an error, and so is a first sample before `origin`. */
  function MovedTrack(track: Track, first: nat, end: nat, origin: nat, base: nat): Result<Track>
    requires track.Valid() && first <= end <= track.samples.Len()
  {
    WindowIsSlice(track.samples, first, end);
    var kept := track.samples.Window(first, end);
    if kept.Len() == 0 then Err
    else if kept.Get(0).decodeTime < origin then Err
    else
      var samples :- kept.Shifted(base - origin);
      ShiftMoves(kept, base - origin);
      var last :- SampleEnd(samples.Get(samples.Len() - 1));
      if last < samples.Get(0).decodeTime then Err else Ok(track.(samples := samples))
  }

  function Base(start: nat, timescale: u32, lead: nat): Result<nat> {
    var ticks :- InTicks(start, timescale);
    if ticks + lead > U64_MAX then Err else Ok(ticks + lead)
  }

  /** One track of a clip that starts at `start` on the timeline: the reference's own window, or a follower's. */
  function PlaceTrack(reference: Track, p: Placement, start: nat, toTheEnd: bool, track: Track): Result<Track>
    requires track.Valid() && (track.id == reference.id ==> p.first <= p.end <= track.samples.Len())
  {
    if track.id == reference.id then
      var base :- Base(start, track.timescale, p.lead);
      MovedTrack(track, p.first, p.end, p.origin, base)
    else
      var origin :- Rescale(p.origin, reference.timescale, track.timescale);
      var spanEnd :- Rescale(p.keptEnd, reference.timescale, track.timescale);
      var lead :- Rescale(p.lead, reference.timescale, track.timescale);
      FollowerWindowKeeps(track.samples, origin, spanEnd, toTheEnd);
      var (first, end) := FollowerWindow(track.samples, origin, spanEnd, toTheEnd);
      var base :- Base(start, track.timescale, lead);
      MovedTrack(track, first, end, origin, base)
  }

  /** A clip's samples on the timeline, its length on the movie's clock, and where the next clip starts. */
  datatype Trimmed = Trimmed(tracks: seq<Track>, duration: nat, end: nat)

  function Length(p: Placement): int {
    p.keptEnd - p.origin + p.lead
  }

  /** What `trim` promises of a clip placed as `p`. */
  ghost predicate TrimmedTo(index: MediaIndex, reference: Track, p: Placement, start: nat, trailing: Trailing, t: Trimmed)
    requires index.Valid() && reference in index.tracks && p.first <= p.end <= reference.samples.Len()
  {
    && |t.tracks| == |index.tracks| && Length(p) >= 0
    && (forall k :: 0 <= k < |t.tracks| ==> Placed(index, reference, p, start, trailing, k) == Ok(t.tracks[k]))
    && Rescale(Length(p), reference.timescale, index.movieTimescale) == Ok(t.duration)
    && After(start, Length(p), reference.timescale) == Ok(t.end)
  }

  ghost function Placed(index: MediaIndex, reference: Track, p: Placement, start: nat, trailing: Trailing, k: nat): Result<Track>
    requires index.Valid() && reference in index.tracks && p.first <= p.end <= reference.samples.Len() && k < |index.tracks|
  {
    PlaceTrack(reference, p, start, p.end == reference.samples.Len() && trailing.Keep?, index.tracks[k])
  }

  /** Whether every track can be placed, and the clip's length and end told. */
  ghost predicate CanTrim(index: MediaIndex, reference: Track, p: Placement, start: nat, trailing: Trailing)
    requires index.Valid() && reference in index.tracks && p.first <= p.end <= reference.samples.Len()
  {
    && 0 <= Length(p) <= U64_MAX
    && (forall k :: 0 <= k < |index.tracks| ==> Placed(index, reference, p, start, trailing, k).Ok?)
    && Rescale(Length(p), reference.timescale, index.movieTimescale).Ok?
    && After(start, Length(p), reference.timescale).Ok?
  }

  /** The placement of the clip, when there is a reference track and the window is good. */
  function Placing(index: MediaIndex, window: ClipWindow): (r: Result<(Track, Placement)>)
    requires index.Valid()
    ensures r.Ok? ==>
              && ReferenceTrack(index.tracks) == Some(r.value.0) && r.value.0 in index.tracks
              && PlacementOf(index.presentationOffsetMs, r.value.0, window) == Ok(r.value.1)
              && r.value.1.first < r.value.1.end <= r.value.0.samples.Len()
  {
    match ReferenceTrack(index.tracks)
    case None => Err
    case Some(reference) =>
      var p :- PlacementOf(index.presentationOffsetMs, reference, window);
      Ok((reference, p))
  }

  /** `trim` */
  method Trim(index: MediaIndex, window: ClipWindow, start: nat, trailing: Trailing) returns (r: Result<Trimmed>)
    requires index.Valid()
    ensures r.Ok? <==>
              && Placing(index, window).Ok?
              && CanTrim(index, Placing(index, window).value.0, Placing(index, window).value.1, start, trailing)
    ensures r.Ok? ==>
              TrimmedTo(index, Placing(index, window).value.0, Placing(index, window).value.1, start, trailing, r.value)
  {
    hide Track.Valid, MediaIndex.Valid, Placing, PlacementOf, ReferenceTrack, Placed, Rescale, After;
    var placing :- Placing(index, window);
    var (reference, p) := placing;
    PlacingIsOrdered(index, window);
    var tracks :- PlaceAll(index, reference, p, start, trailing);
    var length := p.keptEnd - p.origin + p.lead;
    if length > U64_MAX {
      return Err;
    }
    var duration :- Rescale(length, reference.timescale, index.movieTimescale);
    var end :- After(start, length, reference.timescale);
    return Ok(Trimmed(tracks, duration, end));
  }

  lemma {:induction false} PlacingIsOrdered(index: MediaIndex, window: ClipWindow)
    requires index.Valid() && Placing(index, window).Ok?
    ensures Length(Placing(index, window).value.1) >= 0
  {
    hide PlacementOf, Track.Valid, ReferenceTrack;
    var (reference, p) := Placing(index, window).value;
    PlacementIsOrdered(index.presentationOffsetMs, reference, window);
  }

  /** The loop of `trim` over the tracks. */
  method PlaceAll(index: MediaIndex, reference: Track, p: Placement, start: nat, trailing: Trailing) returns (r: Result<seq<Track>>)
    requires index.Valid() && reference in index.tracks && p.first <= p.end <= reference.samples.Len()
    ensures r.Ok? <==> forall k :: 0 <= k < |index.tracks| ==> Placed(index, reference, p, start, trailing, k).Ok?
    ensures r.Ok? ==>
              && |r.value| == |index.tracks|
              && forall k :: 0 <= k < |r.value| ==> Placed(index, reference, p, start, trailing, k) == Ok(r.value[k])
  {
    hide Track.Valid, PlaceTrack;
    var toTheEnd := p.end == reference.samples.Len() && trailing.Keep?;
    var tracks: seq<Track> := [];
    for k := 0 to |index.tracks|
      invariant |tracks| == k
      invariant forall j :: 0 <= j < k ==> Placed(index, reference, p, start, trailing, j) == Ok(tracks[j])
    {
      var placed := PlaceTrack(reference, p, start, toTheEnd, index.tracks[k]);
      if placed.Err? {
        assert Placed(index, reference, p, start, trailing, k).Err?;
        return Err;
      }
      tracks := tracks + [placed.value];
    }
    return Ok(tracks);
  }

  // ----- What a placed clip keeps -----

  lemma {:induction false} OrderedList(samples: SampleIndex, i: nat, j: nat)
    requires samples.Valid() && samples.tables.Ordered() && i <= j < samples.Len()
    ensures samples.List()[i].decodeTime <= samples.List()[j].decodeTime
  {
    hide RunsOk, RunOf, Times.At, Chunks.At, Compositions.At, IsSync;
    assert samples.start + i <= samples.start + j < samples.tables.Len();
  }

  /** What a placement says of the reference's list. */
  lemma {:induction false} PlacementIsOrdered(offset: nat, reference: Track, window: ClipWindow)
    requires reference.Valid() && PlacementOf(offset, reference, window).Ok?
    ensures var p, list := PlacementOf(offset, reference, window).value, reference.samples.List();
            && p.origin == list[p.first].decodeTime
            && p.keptEnd == list[p.end - 1].decodeTime + list[p.end - 1].duration
            && p.origin <= p.keptEnd
            && p.lead == Max(0, p.origin - Earliest(list[p.first..p.end]))
            && p.lead <= 0x8000_0000
  {
    hide SampleIndex.List, SampleIndex.Valid, SampleIndex.Get, Tables.Ordered, ReferenceWindow;
    var p, list := PlacementOf(offset, reference, window).value, reference.samples.List();
    WindowIsSlice(reference.samples, p.first, p.end);
    ListIs(reference.samples, p.first);
    ListIs(reference.samples.Window(p.first, p.end), p.end - p.first - 1);
    OrderedList(reference.samples, p.first, p.end - 1);
    var kept := list[p.first..p.end];
    var early :| 0 <= early < |kept| && Earliest(kept) == Presented(kept[early]);
    OrderedList(reference.samples, p.first, p.first + early);
    assert OnWire(list[p.first + early]);
  }

  lemma {:induction false} ListIs(samples: SampleIndex, i: nat)
    requires samples.Valid() && i < samples.Len()
    ensures samples.List()[i] == samples.Get(i)
  {
  }

  lemma {:induction false} ShiftedBy(samples: SampleIndex, delta: int)
    requires samples.Valid() && samples.Shifted(delta).Ok?
    ensures samples.Shifted(delta).value == samples.(shift := samples.shift + delta)
  {
  }

  /** With its first sample at `origin` or later, a track moves unless none is left or its end overflows. */
  lemma {:induction false} MovedTrackOk(track: Track, first: nat, end: nat, origin: nat, base: nat)
    requires track.Valid() && first <= end <= track.samples.Len()
    requires first < end ==> track.samples.List()[first].decodeTime >= origin
    ensures var r, list := MovedTrack(track, first, end, origin, base), track.samples.List();
            && (r.Ok? <==> first < end && list[end - 1].decodeTime + list[end - 1].duration + base - origin <= U64_MAX)
            && (r.Ok? ==>
                  && r.value.samples.Valid() && r.value.samples.List() == MovedAll(list[first..end], base - origin)
                  && r.value.timescale == track.timescale
                  && r.value.samples.shift == track.samples.shift + base - origin)
  {
    hide SampleIndex.List, SampleIndex.Get, SampleIndex.Valid, SampleIndex.Shifted, Tables.Ordered, OnWire;
    var kept := track.samples.Window(first, end);
    WindowIsSlice(track.samples, first, end);
    ShiftMoves(kept, base - origin);
    if first < end {
      ListIs(kept, 0);
      ListIs(kept, kept.Len() - 1);
      OrderedList(track.samples, first, end - 1);
      var r := kept.Shifted(base - origin);
      if r.Ok? {
        ShiftedBy(kept, base - origin);
        ListIs(r.value, 0);
        ListIs(r.value, r.value.Len() - 1);
      }
    }
  }

  /** The check for a sample before `origin` never fails: every kept one is at or after its own origin. */
  lemma {:induction false} NeverBeforeOrigin(offset: nat, reference: Track, window: ClipWindow, toTheEnd: bool, track: Track)
    requires reference.Valid() && track.Valid() && PlacementOf(offset, reference, window).Ok?
    ensures var p := PlacementOf(offset, reference, window).value;
            && reference.samples.List()[p.first].decodeTime >= p.origin
            && (Rescale(p.origin, reference.timescale, track.timescale).Ok? && Rescale(p.keptEnd, reference.timescale, track.timescale).Ok? ==>
                  var origin := Rescale(p.origin, reference.timescale, track.timescale).value;
                  var (first, end) := FollowerWindow(track.samples, origin, Rescale(p.keptEnd, reference.timescale, track.timescale).value, toTheEnd);
                  0 <= first < end ==> first < track.samples.Len() && track.samples.List()[first].decodeTime >= origin)
  {
    hide SampleIndex.List, SampleIndex.Valid, Tables.Ordered, PlacementOf, FollowerWindow, Rescale, Earliest;
    var p := PlacementOf(offset, reference, window).value;
    PlacementIsOrdered(offset, reference, window);
    var origin, spanEnd := Rescale(p.origin, reference.timescale, track.timescale), Rescale(p.keptEnd, reference.timescale, track.timescale);
    if origin.Ok? && spanEnd.Ok? {
      FollowerWindowKeeps(track.samples, origin.value, spanEnd.value, toTheEnd);
    }
  }

  /** The reference track is placed exactly when its clip starts and ends within 64 bits of its ticks. */
  lemma {:induction false} ReferencePlaces(offset: nat, reference: Track, window: ClipWindow, start: nat, toTheEnd: bool)
    requires reference.Valid() && PlacementOf(offset, reference, window).Ok?
    ensures var p := PlacementOf(offset, reference, window).value;
            PlaceTrack(reference, p, start, toTheEnd, reference).Ok?
            <==> InTicks(start, reference.timescale).Ok? && InTicks(start, reference.timescale).value + Length(p) <= U64_MAX
  {
    hide SampleIndex.List, SampleIndex.Valid, Tables.Ordered, PlacementOf, InTicks, MovedTrack, OnWire, Earliest;
    var p, list := PlacementOf(offset, reference, window).value, reference.samples.List();
    PlacementIsOrdered(offset, reference, window);
    var ticks := InTicks(start, reference.timescale);
    if ticks.Ok? {
      MovedTrackOk(reference, p.first, p.end, p.origin, ticks.value + p.lead);
    }
  }

  /** Every frame kept of the reference track is shown at or after the clip's start. */
  lemma {:induction false} ReferenceShownFromStart(offset: nat, reference: Track, window: ClipWindow, start: nat, toTheEnd: bool, moved: Track)
    requires reference.Valid() && PlacementOf(offset, reference, window).Ok?
    requires PlaceTrack(reference, PlacementOf(offset, reference, window).value, start, toTheEnd, reference) == Ok(moved)
    ensures InTicks(start, reference.timescale).Ok? && moved.samples.Valid()
    ensures forall i :: 0 <= i < moved.samples.Len() ==>
              var s := moved.samples.List()[i]; s.decodeTime + s.compositionOffset >= InTicks(start, reference.timescale).value
  {
    hide SampleIndex.List, SampleIndex.Valid, Tables.Ordered, PlacementOf, InTicks, MovedTrack, OnWire;
    var p, list := PlacementOf(offset, reference, window).value, reference.samples.List();
    PlacementIsOrdered(offset, reference, window);
    var base := Base(start, reference.timescale, p.lead).value;
    MovedTrackOk(reference, p.first, p.end, p.origin, base);
    var kept := list[p.first..p.end];
    forall i | 0 <= i < moved.samples.Len()
      ensures Presented(moved.samples.List()[i]) >= InTicks(start, reference.timescale).value
    {
      assert Earliest(kept) <= Presented(kept[i]);
      assert moved.samples.List()[i] == Moved(kept[i], base - p.origin);
    }
  }

  /** Every sample kept of a follower decodes at or after the clip's start on its own clock, and is one of the span's. */
  lemma {:induction false} FollowerDecodesFromStart(reference: Track, p: Placement, start: nat, toTheEnd: bool, track: Track, moved: Track)
    requires track.Valid() && track.id != reference.id
    requires PlaceTrack(reference, p, start, toTheEnd, track) == Ok(moved)
    ensures InTicks(start, track.timescale).Ok? && moved.samples.Valid()
    ensures forall i :: 0 <= i < moved.samples.Len() ==> moved.samples.List()[i].decodeTime >= InTicks(start, track.timescale).value
  {
    hide SampleIndex.List, SampleIndex.Valid, Tables.Ordered, InTicks, Rescale, MovedTrack, FollowerWindow, OnWire;
    var origin := Rescale(p.origin, reference.timescale, track.timescale).value;
    var spanEnd := Rescale(p.keptEnd, reference.timescale, track.timescale).value;
    var lead := Rescale(p.lead, reference.timescale, track.timescale).value;
    FollowerWindowKeeps(track.samples, origin, spanEnd, toTheEnd);
    var (first, end) := FollowerWindow(track.samples, origin, spanEnd, toTheEnd);
    var base := Base(start, track.timescale, lead).value;
    MovedTrackOk(track, first, end, origin, base);
    var list := track.samples.List();
    forall i | 0 <= i < moved.samples.Len()
      ensures moved.samples.List()[i].decodeTime >= InTicks(start, track.timescale).value
    {
      assert moved.samples.List()[i] == Moved(list[first..end][i], base as int - origin);
      assert list[first + i].decodeTime >= origin;
    }
  }

  // ----- Staying in sync -----

  lemma {:induction false} DivBounds(n: nat, d: nat)
    requires d > 0
    ensures d * (n / d) <= n < d * (n / d) + d
  {
  }

  lemma {:induction false} Product(a: int, b: int, c: int)
    ensures (a + b) * c == a * c + b * c && (a - b) * c == a * c - b * c
  {
  }

  lemma {:induction false} Cancel(g: nat, y: int, low: nat, high: nat)
    requires g > 0 && 0 - low * g <= y * g <= high * g
    ensures 0 - low <= y <= high
  {
  }

  /** The start, rounded down on either clock. */
  lemma {:induction false} StartsClose(start: nat, tf: nat, tr: nat)
    ensures 0 - tr <= (start * tf / NANOS_PER_SECOND) * tr - (start * tr / NANOS_PER_SECOND) * tf <= tf
  {
    var a, d := start * tf / NANOS_PER_SECOND, start * tr / NANOS_PER_SECOND;
    var ra, rd := start * tf - NANOS_PER_SECOND * a, start * tr - NANOS_PER_SECOND * d;
    DivBounds(start * tf, NANOS_PER_SECOND);
    DivBounds(start * tr, NANOS_PER_SECOND);
    CrossMultiply(start, tf, tr, a, d, ra, rd);
    Bounded(ra, tr);
    Bounded(rd, tf);
    Cancel(NANOS_PER_SECOND, a * tr - d * tf, tr, tf);
  }

  lemma {:induction false} Bounded(r: nat, t: nat)
    requires r < NANOS_PER_SECOND
    ensures 0 <= r * t <= t * NANOS_PER_SECOND
  {
  }

  lemma {:induction false} CrossMultiply(s: nat, tf: nat, tr: nat, a: nat, d: nat, ra: int, rd: int)
    requires s * tf == NANOS_PER_SECOND * a + ra && s * tr == NANOS_PER_SECOND * d + rd
    ensures (a * tr - d * tf) * NANOS_PER_SECOND == rd * tf - ra * tr
  {
    calc {
      (a * tr - d * tf) * NANOS_PER_SECOND;
      (NANOS_PER_SECOND * a) * tr - (NANOS_PER_SECOND * d) * tf;
      (s * tf - ra) * tr - (s * tr - rd) * tf;
      { Product(s * tf, ra, tr); Product(s * tr, rd, tf); }
      (s * tf) * tr - ra * tr - ((s * tr) * tf - rd * tf);
      { Commute(s, tf, tr); }
      rd * tf - ra * tr;
    }
  }

  lemma {:induction false} Commute(s: nat, a: nat, b: nat)
    ensures (s * a) * b == (s * b) * a
  {
  }

  /** How far a track's samples moved, in its own ticks. */
  function ShiftOf(track: Track, moved: Track): int {
    moved.samples.shift - track.samples.shift
  }

  /**
   In real time a follower moves by less than two of its ticks less, and less than one tick of each
   track more, than the reference; every product here is a time times both timescales.
   */
  lemma {:induction false} FollowerStaysInSync(reference: Track, p: Placement, start: nat, toTheEnd: bool, track: Track,
                                               movedReference: Track, moved: Track)
    requires reference.Valid() && track.Valid() && track.id != reference.id
    requires p.first < p.end <= reference.samples.Len() && reference.samples.List()[p.first].decodeTime == p.origin
    requires PlaceTrack(reference, p, start, toTheEnd, reference) == Ok(movedReference)
    requires PlaceTrack(reference, p, start, toTheEnd, track) == Ok(moved)
    ensures -2 * reference.timescale
            < ShiftOf(track, moved) * reference.timescale - ShiftOf(reference, movedReference) * track.timescale
            < track.timescale + reference.timescale
  {
    hide Track.Valid, PlaceTrack, ShiftOf;
    var tf, tr := track.timescale, reference.timescale;
    ReferenceShift(reference, p, start, toTheEnd, movedReference);
    FollowerShift(reference, p, start, toTheEnd, track, moved);
    StartsClose(start, tf, tr);
    SyncBound(InTicks(start, tf).value, InTicks(start, tr).value, p.lead, p.origin, Rescale(p.lead, tr, tf).value,
              Rescale(p.origin, tr, tf).value, tf, tr);
  }

  lemma {:induction false} ReferenceShift(reference: Track, p: Placement, start: nat, toTheEnd: bool, moved: Track)
    requires reference.Valid() && p.first < p.end <= reference.samples.Len()
    requires reference.samples.List()[p.first].decodeTime == p.origin
    requires PlaceTrack(reference, p, start, toTheEnd, reference) == Ok(moved)
    ensures InTicks(start, reference.timescale).Ok?
    ensures ShiftOf(reference, moved) == InTicks(start, reference.timescale).value + p.lead - p.origin
  {
    hide SampleIndex.List, SampleIndex.Valid, Tables.Ordered, MovedTrack, OnWire, InTicks;
    MovedTrackOk(reference, p.first, p.end, p.origin, Base(start, reference.timescale, p.lead).value);
  }

  lemma {:induction false} FollowerShift(reference: Track, p: Placement, start: nat, toTheEnd: bool, track: Track, moved: Track)
    requires track.Valid() && track.id != reference.id && PlaceTrack(reference, p, start, toTheEnd, track) == Ok(moved)
    ensures var tf, tr := track.timescale, reference.timescale;
            && InTicks(start, tf).Ok? && Rescale(p.lead, tr, tf).Ok? && Rescale(p.origin, tr, tf).Ok?
            && ShiftOf(track, moved) == InTicks(start, tf).value + Rescale(p.lead, tr, tf).value - Rescale(p.origin, tr, tf).value
  {
    hide SampleIndex.List, SampleIndex.Valid, Tables.Ordered, MovedTrack, OnWire, InTicks, FollowerWindow, Rescale;
    var tf, tr := track.timescale, reference.timescale;
    var origin, spanEnd := Rescale(p.origin, tr, tf).value, Rescale(p.keptEnd, tr, tf).value;
    FollowerWindowKeeps(track.samples, origin, spanEnd, toTheEnd);
    var (first, end) := FollowerWindow(track.samples, origin, spanEnd, toTheEnd);
    MovedTrackOk(track, first, end, origin, Base(start, tf, Rescale(p.lead, tr, tf).value).value);
  }

  lemma {:induction false} SyncBound(a: int, d: int, lead: nat, origin: nat, leadThere: nat, originThere: nat, tf: nat, tr: nat)
    requires tr > 0 && leadThere == lead * tf / tr && originThere == origin * tf / tr
    requires 0 - tr <= a * tr - d * tf <= tf
    ensures -2 * tr < (a + leadThere - originThere) * tr - (d + lead - origin) * tf < tf + tr
  {
    DivBounds(lead * tf, tr);
    DivBounds(origin * tf, tr);
    Product(a + leadThere, originThere, tr);
    Product(a, leadThere, tr);
    Product(d + lead, origin, tf);
    Product(d, lead, tf);
  }
}
