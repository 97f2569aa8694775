/**
 Key periods of a rotating asset: the rules for a timeline (src/cenc/keys.rs), placing it on a plan
 of segments (src/cenc/schedule.rs), and finding a segment's keys (src/cenc/segment.rs).
 */
module Schedule {
  import opened Common
  import opened Samples

  // ----- Timelines -----

  datatype KeyPeriod<+K> = KeyPeriod(startMs: nat, content: Option<K>)

  /** The keys of the first encrypted period and, only when they rotate, the whole timeline. */
  datatype Encryption<+K> = Encryption(keys: K, periods: seq<KeyPeriod<K>>)

  function FirstKeys<K>(periods: seq<KeyPeriod<K>>): (r: Option<K>)
    ensures r.None? <==> forall i :: 0 <= i < |periods| ==> periods[i].content.None?
  {
    if periods == [] then None
    else if periods[0].content.Some? then periods[0].content
    else FirstKeys(periods[1..])
  }

  predicate Increasing<K>(periods: seq<KeyPeriod<K>>) {
    forall i :: 0 < i < |periods| ==> periods[i - 1].startMs < periods[i].startMs
  }

  predicate ChangesKeys<K, I(==)>(periods: seq<KeyPeriod<K>>, ids: K -> I) {
    forall i :: 0 < i < |periods| && periods[i - 1].content.Some? && periods[i].content.Some? ==>
      ids(periods[i - 1].content.value) != ids(periods[i].content.value)
  }

  /** `timeline`: `ids` are the key identifiers of a period's keys. */
  function Timeline<K, I(==)>(periods: seq<KeyPeriod<K>>, ids: K -> I): (r: Result<Encryption<K>>)
    ensures r.Ok? <==>
              && periods != [] && periods[0].startMs == 0 && Increasing(periods)
              && (exists i :: 0 <= i < |periods| && periods[i].content.Some?) && ChangesKeys(periods, ids)
    ensures r.Ok? ==> r.value.periods == [] || r.value.periods == periods
    ensures r.Ok? && r.value.periods == [] ==> |periods| == 1 && periods[0].content == Some(r.value.keys)
  {
    if periods == [] || periods[0].startMs != 0 then Err
    else if !Increasing(periods) then Err
    else
      match FirstKeys(periods)
      case None => Err
      case Some(primary) =>
        if !ChangesKeys(periods, ids) then Err
        else if |periods| == 1 && periods[0].content.Some? then Ok(Encryption(primary, []))
        else Ok(Encryption(primary, periods))
  }

  lemma {:induction false} StartsAscend<K>(periods: seq<KeyPeriod<K>>, a: nat, b: nat)
    requires Increasing(periods) && a <= b < |periods|
    ensures periods[a].startMs + (b - a) <= periods[b].startMs
    decreases b
  {
    if a < b {
      StartsAscend(periods, a, b - 1);
      assert periods[b - 1].startMs < periods[b].startMs;
    }
  }

  // ----- Plans -----

  datatype TrackSegment = TrackSegment(trackId: u32, firstSample: nat, endSample: nat, decodeTime: nat, duration: nat)
  datatype PlannedSegment = PlannedSegment(index: u32, tracks: seq<TrackSegment>)
  datatype Clock = Clock(id: u32, timescale: u32)

  function ClockOf(tracks: seq<Clock>, id: u32): (r: Option<Clock>)
    ensures r.None? <==> forall i :: 0 <= i < |tracks| ==> tracks[i].id != id
    ensures r.Some? ==> exists i :: 0 <= i < |tracks| && tracks[i] == r.value && r.value.id == id && forall j :: 0 <= j < i ==> tracks[j].id != id
  {
    if tracks == [] then None
    else if tracks[0].id == id then Some(tracks[0])
    else ClockOf(tracks[1..], id)
  }

  /** When a segment starts, on the clock of its first track. */
  function StartOf(tracks: seq<Clock>, segment: PlannedSegment): Option<(nat, u32)> {
    if segment.tracks == [] then None
    else
      match ClockOf(tracks, segment.tracks[0].trackId)
      case None => None
      case Some(clock) => Some((segment.tracks[0].decodeTime, clock.timescale))
  }

  function BaseOf(tracks: seq<Clock>, plan: seq<PlannedSegment>): nat {
    if plan == [] then 0
    else
      match StartOf(tracks, plan[0])
      case None => 0
      case Some((time, _)) => time
  }

  /** Whether a segment starts `startMs` or later after the plan's start; compared exactly, without rounding. */
  predicate Reached(tracks: seq<Clock>, segment: PlannedSegment, base: nat, startMs: nat) {
    match StartOf(tracks, segment)
    case None => false
    case Some((time, timescale)) => Max(0, time - base) * 1000 >= startMs * timescale
  }

  function FirstReached(tracks: seq<Clock>, plan: seq<PlannedSegment>, base: nat, startMs: nat): (r: Option<PlannedSegment>)
    ensures r.None? <==> forall i :: 0 <= i < |plan| ==> !Reached(tracks, plan[i], base, startMs)
    ensures r.Some? ==>
              exists i :: 0 <= i < |plan| && plan[i] == r.value && Reached(tracks, plan[i], base, startMs) &&
                          forall j :: 0 <= j < i ==> !Reached(tracks, plan[j], base, startMs)
  {
    if plan == [] then None
    else if Reached(tracks, plan[0], base, startMs) then Some(plan[0])
    else
      var r := FirstReached(tracks, plan[1..], base, startMs);
      assert r.Some? ==>
               var i :| 0 <= i < |plan[1..]| && plan[1..][i] == r.value && Reached(tracks, plan[1..][i], base, startMs) &&
                        forall j :: 0 <= j < i ==> !Reached(tracks, plan[1..][j], base, startMs);
               plan[i + 1] == r.value && forall j :: 0 <= j < i + 1 ==> !Reached(tracks, plan[j], base, startMs);
      r
  }

  // ----- Scheduling -----

  datatype Scheduled<+K> = Scheduled(firstSegment: u32, content: Option<K>)

  /** Every period that some segment reaches, from the first that does. */
  function Kept<K>(tracks: seq<Clock>, plan: seq<PlannedSegment>, periods: seq<KeyPeriod<K>>): seq<Scheduled<K>> {
    if periods == [] then []
    else
      var last := periods[|periods| - 1];
      var before := Kept(tracks, plan, periods[..|periods| - 1]);
      match FirstReached(tracks, plan, BaseOf(tracks, plan), last.startMs)
      case None => before
      case Some(segment) => before + [Scheduled(segment.index, last.content)]
  }

  function Firsts<K>(scheduled: seq<Scheduled<K>>): (r: seq<nat>)
    ensures |r| == |scheduled|
  {
    seq(|scheduled|, i requires 0 <= i < |scheduled| => scheduled[i].firstSegment)
  }

  predicate StepsUp(s: seq<nat>) {
    forall i :: 0 < i < |s| ==> s[i - 1] < s[i]
  }

  lemma {:induction false} KeptPush<K>(tracks: seq<Clock>, plan: seq<PlannedSegment>, periods: seq<KeyPeriod<K>>, i: nat)
    requires i < |periods|
    ensures Kept(tracks, plan, periods[..i + 1]) <= Kept(tracks, plan, periods)
    ensures var before := Kept(tracks, plan, periods[..i]);
            Kept(tracks, plan, periods[..i + 1]) ==
            match FirstReached(tracks, plan, BaseOf(tracks, plan), periods[i].startMs)
            case None => before
            case Some(segment) => before + [Scheduled(segment.index, periods[i].content)]
    decreases |periods|
  {
    hide FirstReached, BaseOf;
    assert periods[..i + 1][..i] == periods[..i];
    if i + 1 < |periods| {
      var init := periods[..|periods| - 1];
      assert init[..i] == periods[..i] && init[..i + 1] == periods[..i + 1];
      KeptPush(tracks, plan, init, i);
    } else {
      assert periods[..i + 1] == periods;
    }
  }

  /** `schedule`: two periods that would begin at one segment are refused. */
  method SchedulePeriods<K>(encryption: Encryption<K>, tracks: seq<Clock>, plan: seq<PlannedSegment>)
    returns (r: Result<seq<Scheduled<K>>>)
    ensures encryption.periods == [] ==> r == Ok([Scheduled(0, Some(encryption.keys))])
    ensures encryption.periods != [] ==>
              && (r.Ok? <==> StepsUp(Firsts(Kept(tracks, plan, encryption.periods))))
              && (r.Ok? ==> r.value == Kept(tracks, plan, encryption.periods))
  {
    hide FirstReached, Kept;
    if encryption.periods == [] {
      return Ok([Scheduled(0, Some(encryption.keys))]);
    }
    var base := BaseOf(tracks, plan);
    var periods: seq<Scheduled<K>> := [];
    KeptNone<K>(tracks, plan);
    assert encryption.periods[..|encryption.periods|] == encryption.periods;
    for i := 0 to |encryption.periods|
      invariant periods == Kept(tracks, plan, encryption.periods[..i]) && StepsUp(Firsts(periods))
    {
      var period := encryption.periods[i];
      KeptPush(tracks, plan, encryption.periods, i);
      var first := FirstReached(tracks, plan, base, period.startMs);
      if first.None? {
        continue;
      }
      var n := |periods|;
      ghost var all := Firsts(Kept(tracks, plan, encryption.periods));
      if n > 0 && periods[n - 1].firstSegment >= first.value.index {
        assert Kept(tracks, plan, encryption.periods)[..n + 1] == periods + [Scheduled(first.value.index, period.content)];
        assert Kept(tracks, plan, encryption.periods)[n - 1] == periods[n - 1];
        assert all[n - 1] >= all[n];
        return Err;
      }
      StepsPush(periods, Scheduled(first.value.index, period.content));
      periods := periods + [Scheduled(first.value.index, period.content)];
    }
    return Ok(periods);
  }

  lemma {:induction false} StepsPush<K>(scheduled: seq<Scheduled<K>>, next: Scheduled<K>)
    requires StepsUp(Firsts(scheduled))
    requires scheduled != [] ==> scheduled[|scheduled| - 1].firstSegment < next.firstSegment
    ensures StepsUp(Firsts(scheduled + [next]))
  {
    var s := Firsts(scheduled + [next]);
    forall i | 0 < i < |s| ensures s[i - 1] < s[i] {
      if i < |scheduled| {
        assert s[i - 1] == Firsts(scheduled)[i - 1] && s[i] == Firsts(scheduled)[i];
      }
    }
  }

  lemma {:induction false} KeptNone<K>(tracks: seq<Clock>, plan: seq<PlannedSegment>)
    ensures Kept<K>(tracks, plan, []) == []
  {
  }

  // ----- Protection by segment -----

  datatype PeriodProtection<T> = PeriodProtection(firstSegment: u32, content: Option<map<u32, T>>)

  datatype SegmentProtection<T> = Encrypted(protection: T) | ClearStretch

  datatype AssetProtection<T> = AssetProtection(tracks: map<u32, T>, periods: seq<PeriodProtection<T>>) {
    /** `for_segment` */
    function ForSegment(segmentIndex: nat, trackId: u32): Option<SegmentProtection<T>> {
      if periods == [] then Lookup(tracks, trackId)
      else
        var at := Below(Starts(), segmentIndex + 1);
        if at == 0 then None else ContentFor(periods[at - 1].content, trackId)
    }

    function Starts(): (r: seq<nat>)
      ensures |r| == |periods|
    {
      seq(|periods|, i requires 0 <= i < |periods| => periods[i].firstSegment)
    }
  }

  function Lookup<T>(tracks: map<u32, T>, id: u32): Option<SegmentProtection<T>> {
    if id in tracks then Some(Encrypted(tracks[id])) else None
  }

  function ContentFor<T>(content: Option<map<u32, T>>, id: u32): Option<SegmentProtection<T>> {
    match content
    case None => Some(ClearStretch)
    case Some(tracks) => Lookup(tracks, id)
  }

  /** A scheduled period's protection; `protect` gives every track's under some keys. */
  ghost predicate ProtectedAs<K, T>(s: Scheduled<K>, p: PeriodProtection<T>, protect: K -> Result<map<u32, T>>) {
    && p.firstSegment == s.firstSegment
    && (s.content.None? ==> p.content == None)
    && (s.content.Some? ==> protect(s.content.value).Ok? && p.content == Some(protect(s.content.value).value))
  }

  /** `AssetProtection::new` */
  method Protect<K, T>(encryption: Encryption<K>, protect: K -> Result<map<u32, T>>, tracks: seq<Clock>, plan: seq<PlannedSegment>)
    returns (r: Result<AssetProtection<T>>)
    ensures r.Ok? ==> protect(encryption.keys).Ok? && r.value.tracks == protect(encryption.keys).value
    ensures r.Ok? && encryption.periods == [] ==> r.value.periods == []
    ensures r.Ok? && encryption.periods != [] ==>
              var kept := Kept(tracks, plan, encryption.periods);
              && StepsUp(Firsts(kept)) && |r.value.periods| == |kept|
              && forall k :: 0 <= k < |kept| ==> ProtectedAs(kept[k], r.value.periods[k], protect)
    ensures r.Err? ==>
              || protect(encryption.keys).Err?
              || (encryption.periods != [] && !StepsUp(Firsts(Kept(tracks, plan, encryption.periods))))
              || exists k :: 0 <= k < |encryption.periods| && encryption.periods[k].content.Some? &&
                             protect(encryption.periods[k].content.value).Err?
  {
    hide Kept, StepsUp;
    var primary :- protect(encryption.keys);
    var periods: seq<PeriodProtection<T>> := [];
    if encryption.periods != [] {
      var kept :- SchedulePeriods(encryption, tracks, plan);
      for k := 0 to |kept|
        invariant |periods| == k && forall j :: 0 <= j < k ==> ProtectedAs(kept[j], periods[j], protect)
      {
        if kept[k].content.None? {
          periods := periods + [PeriodProtection(kept[k].firstSegment, None)];
        } else {
          KeptFrom(tracks, plan, encryption.periods, k);
          var content :- protect(kept[k].content.value);
          periods := periods + [PeriodProtection(kept[k].firstSegment, Some(content))];
        }
      }
    }
    return Ok(AssetProtection(primary, periods));
  }

  lemma {:induction false} KeptFrom<K>(tracks: seq<Clock>, plan: seq<PlannedSegment>, periods: seq<KeyPeriod<K>>, k: nat)
    requires k < |Kept(tracks, plan, periods)|
    ensures exists j :: 0 <= j < |periods| && periods[j].content == Kept(tracks, plan, periods)[k].content
    decreases |periods|
  {
    hide FirstReached, BaseOf;
    var init := periods[..|periods| - 1];
    if k < |Kept(tracks, plan, init)| {
      KeptFrom(tracks, plan, init, k);
      var j :| 0 <= j < |init| && init[j].content == Kept(tracks, plan, init)[k].content;
      assert periods[j].content == Kept(tracks, plan, periods)[k].content;
    } else {
      assert periods[|periods| - 1].content == Kept(tracks, plan, periods)[k].content;
    }
  }

  // ----- Periods cover their segments -----

  /** A plan as the planner makes it: numbered from 0, on one clock that never goes back. */
  ghost predicate PlanOk(tracks: seq<Clock>, plan: seq<PlannedSegment>) {
    && (forall i :: 0 <= i < |plan| ==> plan[i].index == i && StartOf(tracks, plan[i]).Some?)
    && (forall i, j :: 0 <= i <= j < |plan| ==>
          StartOf(tracks, plan[i]).value.1 == StartOf(tracks, plan[j]).value.1 &&
          StartOf(tracks, plan[i]).value.0 <= StartOf(tracks, plan[j]).value.0)
  }

  lemma {:induction false} Scaled(a: nat, b: nat, t: nat)
    requires a <= b
    ensures a * t <= b * t
  {
  }

  /** A segment that reaches a period reaches every earlier one, and so do the segments after it. */
  lemma {:induction false} ReachedSpreads(tracks: seq<Clock>, plan: seq<PlannedSegment>, base: nat, i: nat, j: nat, early: nat, late: nat)
    requires PlanOk(tracks, plan) && i <= j < |plan| && early <= late
    requires Reached(tracks, plan[i], base, late)
    ensures Reached(tracks, plan[j], base, early)
  {
    Scaled(early, late, StartOf(tracks, plan[j]).value.1);
  }

  /** Where period `k` begins: at the first segment that reaches it, whose number is its place. */
  lemma {:induction false} FirstIs(tracks: seq<Clock>, plan: seq<PlannedSegment>, base: nat, startMs: nat, i: nat)
    requires PlanOk(tracks, plan) && i < |plan|
    ensures var first := FirstReached(tracks, plan, base, startMs);
            Reached(tracks, plan[i], base, startMs) <==> first.Some? && first.value.index <= i
  {
    hide Reached;
    var first := FirstReached(tracks, plan, base, startMs);
    if first.Some? {
      var f :| 0 <= f < |plan| && plan[f] == first.value && Reached(tracks, plan[f], base, startMs) &&
               forall j :: 0 <= j < f ==> !Reached(tracks, plan[j], base, startMs);
      if f <= i {
        ReachedSpreads(tracks, plan, base, f, i, startMs, startMs);
      }
    }
  }

  /**
   The periods kept are a prefix of those listed, each beginning at the first segment that reaches
   it, the first of them at segment 0; the dropped ones are reached by no segment at all.
   */
  lemma {:induction false} KeptIsPrefix<K>(tracks: seq<Clock>, plan: seq<PlannedSegment>, periods: seq<KeyPeriod<K>>)
    requires PlanOk(tracks, plan) && Increasing(periods)
    ensures var base, kept := BaseOf(tracks, plan), Kept(tracks, plan, periods);
            && |kept| <= |periods|
            && (forall k :: 0 <= k < |kept| ==>
                  kept[k].content == periods[k].content &&
                  forall i :: 0 <= i < |plan| ==> (kept[k].firstSegment <= i <==> Reached(tracks, plan[i], base, periods[k].startMs)))
            && (forall k :: 0 <= k < |kept| ==> kept[k].firstSegment < |plan|)
            && (forall k, i :: |kept| <= k < |periods| && 0 <= i < |plan| ==> !Reached(tracks, plan[i], base, periods[k].startMs))
  {
    hide Reached, BaseOf, FirstReached, PlanOk;
    if periods != [] {
      var n := |periods| - 1;
      var base := BaseOf(tracks, plan);
      KeptIsPrefix(tracks, plan, periods[..n]);
      var before := Kept(tracks, plan, periods[..n]);
      var first := FirstReached(tracks, plan, base, periods[n].startMs);
      FirstPlaced(tracks, plan, base, periods[n].startMs);
      if first.Some? && |before| < n {
        assert periods[..n][|before|] == periods[|before|];
        StartsAscend(periods, |before|, n);
        ReachedSpreadsOver(tracks, plan, base, first.value.index, periods[|before|].startMs, periods[n].startMs);
        assert false;
      }
    }
  }

  lemma {:induction false} FirstPlaced(tracks: seq<Clock>, plan: seq<PlannedSegment>, base: nat, startMs: nat)
    requires PlanOk(tracks, plan)
    ensures var first := FirstReached(tracks, plan, base, startMs);
            && (first.Some? ==> first.value.index < |plan|)
            && (forall i :: 0 <= i < |plan| ==>
                  (Reached(tracks, plan[i], base, startMs) <==> first.Some? && first.value.index <= i))
  {
    hide Reached, FirstReached;
    forall i | 0 <= i < |plan|
      ensures var first := FirstReached(tracks, plan, base, startMs);
              Reached(tracks, plan[i], base, startMs) <==> first.Some? && first.value.index <= i
    {
      FirstIs(tracks, plan, base, startMs, i);
    }
  }

  lemma {:induction false} ReachedSpreadsOver(tracks: seq<Clock>, plan: seq<PlannedSegment>, base: nat, i: nat, early: nat, late: nat)
    requires PlanOk(tracks, plan) && i < |plan| && early <= late && Reached(tracks, plan[i], base, late)
    ensures Reached(tracks, plan[i], base, early)
  {
    ReachedSpreads(tracks, plan, base, i, i, early, late);
  }

  /** `k` is the last period listed whose start is at or before the start of segment `i`. */
  ghost predicate LastStarted<K>(tracks: seq<Clock>, plan: seq<PlannedSegment>, periods: seq<KeyPeriod<K>>, i: nat, k: nat)
    requires i < |plan|
  {
    && k < |periods| && Reached(tracks, plan[i], BaseOf(tracks, plan), periods[k].startMs)
    && forall j :: k < j < |periods| ==> !Reached(tracks, plan[i], BaseOf(tracks, plan), periods[j].startMs)
  }

  /** Accepted schedules number their periods strictly upwards from segment 0. */
  lemma {:induction false} ScheduleStartsAtZero<K>(tracks: seq<Clock>, plan: seq<PlannedSegment>, periods: seq<KeyPeriod<K>>)
    requires PlanOk(tracks, plan) && plan != []
    requires periods != [] && periods[0].startMs == 0 && Increasing(periods)
    ensures var kept := Kept(tracks, plan, periods);
            kept != [] && kept[0].firstSegment == 0 && kept[0].content == periods[0].content
  {
    hide FirstReached;
    KeptIsPrefix(tracks, plan, periods);
    assert Reached(tracks, plan[0], BaseOf(tracks, plan), periods[0].startMs);
  }

  /** Segment `i` reaches period `k`, and no segment before it reached the period before: that one would go unused. */
  ghost predicate Clash<K>(tracks: seq<Clock>, plan: seq<PlannedSegment>, periods: seq<KeyPeriod<K>>, k: nat, i: nat) {
    && 0 < k < |periods| && i < |plan|
    && Reached(tracks, plan[i], BaseOf(tracks, plan), periods[k].startMs)
    && (i == 0 || !Reached(tracks, plan[i - 1], BaseOf(tracks, plan), periods[k - 1].startMs))
  }

  /** A schedule is refused exactly when some period would cover no segment though a later one does. */
  lemma {:induction false} RefusedIffClash<K>(tracks: seq<Clock>, plan: seq<PlannedSegment>, periods: seq<KeyPeriod<K>>)
    requires PlanOk(tracks, plan) && Increasing(periods)
    ensures !StepsUp(Firsts(Kept(tracks, plan, periods))) <==> exists k: nat, i: nat :: Clash(tracks, plan, periods, k, i)
  {
    hide Reached, BaseOf, FirstReached, PlanOk, Kept, Increasing;
    var kept := Kept(tracks, plan, periods);
    KeptIsPrefix(tracks, plan, periods);
    if !StepsUp(Firsts(kept)) {
      var k :| 0 < k < |kept| && Firsts(kept)[k - 1] >= Firsts(kept)[k];
      assert Clash(tracks, plan, periods, k, kept[k].firstSegment);
    }
    if k: nat, i: nat :| Clash(tracks, plan, periods, k, i) {
      ClashShows(tracks, plan, periods, kept, k, i);
    }
  }

  lemma {:induction false} ClashShows<K>(tracks: seq<Clock>, plan: seq<PlannedSegment>, periods: seq<KeyPeriod<K>>,
                                         kept: seq<Scheduled<K>>, k: nat, i: nat)
    requires Clash(tracks, plan, periods, k, i) && |kept| <= |periods|
    requires forall k, i :: 0 <= k < |kept| && 0 <= i < |plan| ==>
               (kept[k].firstSegment <= i <==> Reached(tracks, plan[i], BaseOf(tracks, plan), periods[k].startMs))
    requires forall k, i :: |kept| <= k < |periods| && 0 <= i < |plan| ==>
               !Reached(tracks, plan[i], BaseOf(tracks, plan), periods[k].startMs)
    ensures !StepsUp(Firsts(kept))
  {
    hide Reached, BaseOf;
    assert k < |kept|;
    assert kept[k].firstSegment <= i <= kept[k - 1].firstSegment;
    assert Firsts(kept)[k - 1] >= Firsts(kept)[k];
  }

  /**
   Key-period lookup: under an accepted timeline and schedule, every segment of every track is
   protected by the keys of the last period listed that starts at or before it, or clear with it.
   */
  lemma {:induction false} KeysFollowTimeline<K, I, T>(listed: seq<KeyPeriod<K>>, ids: K -> I, protect: K -> Result<map<u32, T>>,
                                                       tracks: seq<Clock>, plan: seq<PlannedSegment>, asset: AssetProtection<T>,
                                                       i: nat, trackId: u32)
    requires Timeline(listed, ids).Ok? && PlanOk(tracks, plan) && i < |plan|
    requires Protects(Timeline(listed, ids).value, protect, tracks, plan, asset)
    ensures exists k: nat :: LastStarted(tracks, plan, listed, i, k)
    ensures forall k: nat :: LastStarted(tracks, plan, listed, i, k) ==>
              match listed[k].content
              case None => asset.ForSegment(i, trackId) == Some(ClearStretch)
              case Some(keys) => protect(keys).Ok? && asset.ForSegment(i, trackId) == Lookup(protect(keys).value, trackId)
  {
    hide Reached, BaseOf, FirstReached, PlanOk, Timeline, Lookup;
    if Timeline(listed, ids).value.periods == [] {
      OnlyPeriod(listed, tracks, plan, i);
      assert LastStarted(tracks, plan, listed, i, 0);
    } else {
      KeptIsPrefix(tracks, plan, listed);
      ScheduleStartsAtZero(tracks, plan, listed);
      var kept := Kept(tracks, plan, listed);
      assert asset.Starts() == Firsts(kept);
      var at := Below(asset.Starts(), i + 1);
      FoundIsLast(tracks, plan, listed, kept, i);
      var k: nat := at - 1;
      assert LastStarted(tracks, plan, listed, i, k);
      assert ProtectedAs(kept[at - 1], asset.periods[at - 1], protect);
    }
  }

  // ----- In real time -----

  /** `clock` is that of the first track listed which the segment's first part is of. */
  ghost predicate RunsOn(tracks: seq<Clock>, segment: PlannedSegment, clock: Clock) {
    && segment.tracks != []
    && exists i :: 0 <= i < |tracks| && tracks[i] == clock && clock.id == segment.tracks[0].trackId
                   && forall j :: 0 <= j < i ==> tracks[j].id != clock.id
  }

  /** How many milliseconds after the first segment a segment starts. */
  function ElapsedMs(plan: seq<PlannedSegment>, segment: PlannedSegment, clock: Clock): real
    requires plan != [] && plan[0].tracks != [] && segment.tracks != [] && clock.timescale > 0
  {
    1000.0 * (segment.tracks[0].decodeTime - plan[0].tracks[0].decodeTime) as real / clock.timescale as real
  }

  lemma {:induction false} ReachedIs(tracks: seq<Clock>, plan: seq<PlannedSegment>, i: nat, clock: Clock, startMs: nat)
    requires PlanOk(tracks, plan) && i < |plan| && RunsOn(tracks, plan[i], clock) && clock.timescale > 0
    ensures plan[0].tracks != []
    ensures Reached(tracks, plan[i], BaseOf(tracks, plan), startMs) <==> ElapsedMs(plan, plan[i], clock) >= startMs as real
  {
    assert ClockOf(tracks, plan[i].tracks[0].trackId) == Some(clock);
    assert StartOf(tracks, plan[0]).Some? && StartOf(tracks, plan[i]).Some?;
    var ticks: nat := plan[i].tracks[0].decodeTime - plan[0].tracks[0].decodeTime;
    Quotient(1000 * ticks, startMs, clock.timescale);
  }

  /** A segment without parts, or of a track that is not listed, is no place for a period to begin. */
  lemma {:induction false} UnplacedIsNotReached(tracks: seq<Clock>, segment: PlannedSegment, base: nat, startMs: nat)
    requires segment.tracks == [] || forall i :: 0 <= i < |tracks| ==> tracks[i].id != segment.tracks[0].trackId
    ensures !Reached(tracks, segment, base, startMs)
  {
  }

  lemma {:induction false} Quotient(a: nat, b: nat, d: nat)
    requires d > 0
    ensures a as real / d as real >= b as real <==> a >= b * d
  {
    var q := a as real / d as real;
    assert q * d as real == a as real;
    if a >= b * d {
      assert a as real >= b as real * d as real;
      assert (q - b as real) * d as real >= 0.0;
    } else {
      assert a as real < b as real * d as real;
      assert (q - b as real) * d as real < 0.0;
    }
  }

  /**
   Key-period lookup in real time: every segment has the keys of the last period listed that starts no
   later than the segment does, in milliseconds from the start of the first.
   */
  lemma {:induction false} KeysInRealTime<K, I, T>(listed: seq<KeyPeriod<K>>, ids: K -> I, protect: K -> Result<map<u32, T>>,
                                                   tracks: seq<Clock>, plan: seq<PlannedSegment>, asset: AssetProtection<T>,
                                                   i: nat, clock: Clock, k: nat, trackId: u32)
    requires Timeline(listed, ids).Ok? && PlanOk(tracks, plan) && i < |plan|
    requires Protects(Timeline(listed, ids).value, protect, tracks, plan, asset)
    requires RunsOn(tracks, plan[i], clock) && clock.timescale > 0 && k < |listed| && StartOf(tracks, plan[0]).Some?
    requires listed[k].startMs as real <= ElapsedMs(plan, plan[i], clock)
    requires k + 1 < |listed| ==> ElapsedMs(plan, plan[i], clock) < listed[k + 1].startMs as real
    ensures match listed[k].content
            case None => asset.ForSegment(i, trackId) == Some(ClearStretch)
            case Some(keys) => protect(keys).Ok? && asset.ForSegment(i, trackId) == Lookup(protect(keys).value, trackId)
  {
    hide Reached, BaseOf, PlanOk, RunsOn, ElapsedMs, Protects, Lookup;
    forall j | k <= j < |listed|
      ensures Reached(tracks, plan[i], BaseOf(tracks, plan), listed[j].startMs) <==> j == k
    {
      ReachedIs(tracks, plan, i, clock, listed[j].startMs);
      if j > k {
        StartsAscend(listed, k + 1, j);
      }
    }
    assert LastStarted(tracks, plan, listed, i, k);
    KeysFollowTimeline(listed, ids, protect, tracks, plan, asset, i, trackId);
  }

  lemma {:induction false} FoundIsLast<K>(tracks: seq<Clock>, plan: seq<PlannedSegment>, listed: seq<KeyPeriod<K>>,
                                          kept: seq<Scheduled<K>>, i: nat)
    requires i < |plan| && |kept| <= |listed| && StepsUp(Firsts(kept)) && kept != [] && kept[0].firstSegment == 0
    requires forall k :: 0 <= k < |kept| ==>
               forall i :: 0 <= i < |plan| ==>
                 (kept[k].firstSegment <= i <==> Reached(tracks, plan[i], BaseOf(tracks, plan), listed[k].startMs))
    requires forall k, i :: |kept| <= k < |listed| && 0 <= i < |plan| ==>
               !Reached(tracks, plan[i], BaseOf(tracks, plan), listed[k].startMs)
    ensures var at := Below(Firsts(kept), i + 1);
            at > 0 && forall k: nat :: LastStarted(tracks, plan, listed, i, k) <==> k == at - 1
  {
    hide Reached, BaseOf, StepsUp;
    var at := Below(Firsts(kept), i + 1);
    AscendingBelow(Firsts(kept), Firsts(kept), i);
    assert Firsts(kept)[at - 1] == kept[at - 1].firstSegment <= i;
    forall j | at <= j < |listed| ensures !Reached(tracks, plan[i], BaseOf(tracks, plan), listed[j].startMs) {
      assert j < |kept| ==> Firsts(kept)[j] > i;
    }
  }

  /** What a successful `Protect` promises of its result. */
  ghost predicate Protects<K, T>(encryption: Encryption<K>, protect: K -> Result<map<u32, T>>, tracks: seq<Clock>,
                                 plan: seq<PlannedSegment>, asset: AssetProtection<T>)
  {
    && protect(encryption.keys).Ok? && asset.tracks == protect(encryption.keys).value
    && (encryption.periods == [] ==> asset.periods == [])
    && (encryption.periods != [] ==>
          var kept := Kept(tracks, plan, encryption.periods);
          && StepsUp(Firsts(kept)) && |asset.periods| == |kept|
          && forall k :: 0 <= k < |kept| ==> ProtectedAs(kept[k], asset.periods[k], protect))
  }

  lemma {:induction false} EmptyPlanKeeps<K>(tracks: seq<Clock>, periods: seq<KeyPeriod<K>>)
    ensures Kept(tracks, [], periods) == []
  {
    if periods != [] {
      EmptyPlanKeeps(tracks, periods[..|periods| - 1]);
    }
  }

  /** With no segments planned, no period is kept, and any number is answered with the first keys listed. */
  lemma {:induction false} EmptyPlanHasFirstKeys<K, I, T>(listed: seq<KeyPeriod<K>>, ids: K -> I, protect: K -> Result<map<u32, T>>,
                                                          tracks: seq<Clock>, asset: AssetProtection<T>, segment: nat, trackId: u32)
    requires Timeline(listed, ids).Ok? && Protects(Timeline(listed, ids).value, protect, tracks, [], asset)
    ensures FirstKeys(listed).Some? && protect(FirstKeys(listed).value).Ok? && asset.periods == []
    ensures asset.ForSegment(segment, trackId) == Lookup(protect(FirstKeys(listed).value).value, trackId)
  {
    hide Kept, StepsUp, Increasing, ChangesKeys;
    EmptyPlanKeeps(tracks, Timeline(listed, ids).value.periods);
  }

  lemma {:induction false} OnlyPeriod<K>(listed: seq<KeyPeriod<K>>, tracks: seq<Clock>, plan: seq<PlannedSegment>, i: nat)
    requires PlanOk(tracks, plan) && i < |plan| && |listed| == 1 && listed[0].startMs == 0
    ensures forall k: nat :: LastStarted(tracks, plan, listed, i, k) <==> k == 0
  {
    assert Reached(tracks, plan[i], BaseOf(tracks, plan), 0);
  }

  lemma {:induction false} AscendingBelow(firsts: seq<nat>, starts: seq<nat>, i: nat)
    requires StepsUp(firsts) && starts == firsts && firsts != [] && firsts[0] == 0
    ensures var at := Below(starts, i + 1);
            && at > 0 && (forall k :: 0 <= k < at ==> firsts[k] <= i) && (forall k :: at <= k < |firsts| ==> firsts[k] > i)
  {
    var at := Below(starts, i + 1);
    forall k | at <= k < |firsts| ensures firsts[k] > i {
      UpFrom(firsts, at, k);
    }
  }

  lemma {:induction false} UpFrom(s: seq<nat>, a: nat, b: nat)
    requires StepsUp(s) && a <= b < |s|
    ensures s[a] <= s[b]
    decreases b
  {
    if a < b {
      UpFrom(s, a, b - 1);
    }
  }
}
