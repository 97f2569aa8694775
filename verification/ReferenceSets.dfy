/**
 H.265 short-term reference picture sets (src/cenc/hevc.rs; sections 7.3.7 and 7.4.8 of ITU-T H.265):
 parsed outright, or derived from an earlier set by equations 7-61 and 7-62.
 */
module ReferenceSets {
  import opened Common
  import opened Bits
  import opened Syntax

  const I32_MIN: int := -0x8000_0000
  const I32_MAX: int := 0x7FFF_FFFF
  const MAX_REFERENCES_PER_SET := 16

  /** A picture's order count less the current one's, and whether the current picture may use it. */
  datatype Delta = Delta(poc: int, used: bool)

  /** The pictures kept before and after the current one, nearest first. */
  datatype ReferenceSet = ReferenceSet(before: seq<Delta>, after: seq<Delta>) {
    function Len(): nat {
      |before| + |after|
    }

    function Used(): nat {
      UsedIn(before) + UsedIn(after)
    }
  }

  function UsedIn(list: seq<Delta>): nat {
    if list == [] then 0 else UsedIn(list[..|list| - 1]) + (if list[|list| - 1].used then 1 else 0)
  }

  /** 32-bit addition that stays at the ends of its range. */
  function Saturated(x: int): int {
    Max(I32_MIN, Min(x, I32_MAX))
  }

  // ----- Sets written outright -----

  /** Pictures one after another, each `ue + 1` further away; a difference over 31 bits is refused. */
  function DeltasAt(t: seq<bool>, p: nat, n: nat, poc: int, negative: bool): (r: Read<seq<Delta>>)
    ensures r.Got? ==> p <= r.at && |r.value| == n
    decreases n
  {
    if n == 0 then Got([], p)
    else
      var (gap, p1) :- UeAt(t, p);
      if gap > I32_MAX then Bad
      else
        var step := Saturated(gap + 1);
        var next := Saturated(if negative then poc - step else poc + step);
        var (used, p2) :- BitReadAt(t, p1);
        var (rest, end) :- DeltasAt(t, p2, n - 1, next, negative);
        Got([Delta(next, used)] + rest, end)
  }

  function ExplicitAt(t: seq<bool>, p: nat): (r: Read<ReferenceSet>)
    ensures r.Got? ==> p <= r.at
  {
    var (negative, p1) :- UeAt(t, p);
    var (positive, p2) :- UeAt(t, p1);
    if negative > MAX_REFERENCES_PER_SET || positive > MAX_REFERENCES_PER_SET then Bad
    else
      var (before, p3) :- DeltasAt(t, p2, negative, 0, true);
      var (after, p4) :- DeltasAt(t, p3, positive, 0, false);
      Got(ReferenceSet(before, after), p4)
  }

  // ----- Sets derived from an earlier one -----

  /** For every picture of the earlier set, and for the picture that set belongs to: used, and kept. */
  datatype Flag = Flag(used: bool, keep: bool)

  function FlagsAt(t: seq<bool>, p: nat, n: nat): (r: Read<seq<Flag>>)
    ensures r.Got? ==> p <= r.at && |r.value| == n
    decreases n
  {
    if n == 0 then Got([], p)
    else
      var (used, p1) :- BitReadAt(t, p);
      var (useDelta, p2) :- FlagAt(t, p1, !used);
      var (rest, end) :- FlagsAt(t, p2, n - 1);
      Got([Flag(used, used || useDelta)] + rest, end)
  }

  function Reversed<T>(s: seq<T>): (r: seq<T>)
    ensures |r| == |s| && forall i :: 0 <= i < |s| ==> r[i] == s[|s| - 1 - i]
  {
    if s == [] then [] else [s[|s| - 1]] + Reversed(s[..|s| - 1])
  }

  /** The pictures a derived set may keep: those of the earlier set and that set's own picture, moved. */
  datatype Candidate = Candidate(poc: int, flag: Flag)

  function CandidatesOf(list: seq<Delta>, delta: int, flags: seq<Flag>): (r: seq<Candidate>)
    requires |flags| == |list|
    ensures |r| == |list|
  {
    seq(|list|, i requires 0 <= i < |list| => Candidate(Saturated(list[i].poc + delta), flags[i]))
  }

  /** Every candidate, from the latest picture to the earliest. */
  function Candidates(rps: ReferenceSet, delta: int, flags: seq<Flag>): (r: seq<Candidate>)
    requires |flags| == rps.Len() + 1
    ensures |r| == rps.Len() + 1
  {
    var n := |rps.before|;
    Reversed(CandidatesOf(rps.after, delta, flags[n..n + |rps.after|])) + [Candidate(delta, flags[rps.Len()])]
    + CandidatesOf(rps.before, delta, flags[..n])
  }

  predicate Keeps(c: Candidate, negative: bool) {
    c.flag.keep && (if negative then c.poc < 0 else c.poc > 0)
  }

  function KeptOf(list: seq<Candidate>, negative: bool): seq<Delta> {
    if list == [] then []
    else
      var last := list[|list| - 1];
      KeptOf(list[..|list| - 1], negative) + (if Keeps(last, negative) then [Delta(last.poc, last.flag.used)] else [])
  }

  /** Equations 7-61 and 7-62: candidates before the current picture as listed, those after it in reverse. */
  function Derived(rps: ReferenceSet, delta: int, flags: seq<Flag>): ReferenceSet
    requires |flags| == rps.Len() + 1
  {
    var all := Candidates(rps, delta, flags);
    ReferenceSet(KeptOf(all, true), KeptOf(Reversed(all), false))
  }

  /** Which earlier set a derived one builds on, counting back; a slice header says, a parameter set means the last. */
  function BackAt(t: seq<bool>, p: nat, index: nat, count: nat): (r: Read<nat>)
    ensures r.Got? ==> p <= r.at
  {
    var (back, p1) :- OptUeAt(t, p, index == count);
    Got(back + 1, p1)
  }

  function InterAt(t: seq<bool>, p: nat, index: nat, count: nat, sets: seq<ReferenceSet>): (r: Read<ReferenceSet>)
    ensures r.Got? ==> p <= r.at
  {
    var (back, p1) :- BackAt(t, p, index, count);
    if back > index || index - back >= |sets| then Bad
    else
      var rps := sets[index - back];
      var (sign, p2) :- BitReadAt(t, p1);
      var (size, p3) :- UeAt(t, p2);
      if size > I32_MAX then Bad
      else
        var magnitude := Saturated(size + 1);
        var (flags, p4) :- FlagsAt(t, p3, rps.Len() + 1);
        Got(Derived(rps, if sign then -magnitude else magnitude, flags), p4)
  }

  /** `set_at` */
  function SetAt(t: seq<bool>, p: nat, index: nat, count: nat, sets: seq<ReferenceSet>): (r: Read<ReferenceSet>)
    ensures r.Got? ==> p <= r.at
  {
    var (inter, p1) :- FlagAt(t, p, index != 0);
    if inter then InterAt(t, p1, index, count, sets) else ExplicitAt(t, p1)
  }

  /** All the sets of a parameter set, one after another. */
  function SetsAt(t: seq<bool>, p: nat, count: nat, sets: seq<ReferenceSet>): (r: Read<seq<ReferenceSet>>)
    ensures r.Got? ==> p <= r.at
    decreases count - |sets|
  {
    if |sets| >= count then Got(sets, p)
    else
      var (rps, p1) :- SetAt(t, p, |sets|, count, sets);
      SetsAt(t, p1, count, sets + [rps])
  }

  // ----- The order of the pictures -----

  predicate AtEnd(poc: int) {
    poc == I32_MIN || poc == I32_MAX
  }

  /** Each at least as late as the ones that follow; if `strict`, later, except at the ends of the range. */
  predicate Falls(list: seq<Delta>, strict: bool) {
    forall i, j :: 0 <= i < j < |list| ==>
      list[i].poc >= list[j].poc && (strict && list[i].poc == list[j].poc ==> AtEnd(list[i].poc))
  }

  predicate Rises(list: seq<Delta>, strict: bool) {
    forall i, j :: 0 <= i < j < |list| ==>
      list[i].poc <= list[j].poc && (strict && list[i].poc == list[j].poc ==> AtEnd(list[i].poc))
  }

  /** Only earlier pictures before the current one and only later ones after it, nearest first. */
  predicate Ordered(rps: ReferenceSet, strict: bool) {
    && Falls(rps.before, strict) && Rises(rps.after, strict)
    && (forall i :: 0 <= i < |rps.before| ==> I32_MIN <= rps.before[i].poc < 0)
    && (forall i :: 0 <= i < |rps.after| ==> 0 < rps.after[i].poc <= I32_MAX)
  }

  /** Nothing lies at an end of the range, so nothing saturated there. */
  predicate Calm(rps: ReferenceSet) {
    && (forall i :: 0 <= i < |rps.before| ==> !AtEnd(rps.before[i].poc))
    && (forall i :: 0 <= i < |rps.after| ==> !AtEnd(rps.after[i].poc))
  }

  lemma {:induction false} DeltasAreOrdered(t: seq<bool>, p: nat, n: nat, poc: int, negative: bool)
    requires DeltasAt(t, p, n, poc, negative).Got? && I32_MIN <= poc <= I32_MAX
    requires if negative then poc <= 0 else poc >= 0
    ensures var list := DeltasAt(t, p, n, poc, negative).value;
            if negative then
              && Falls(list, true)
              && forall i :: 0 <= i < n ==> I32_MIN <= list[i].poc < 0 && (list[i].poc < poc || list[i].poc == poc == I32_MIN)
            else
              && Rises(list, true)
              && forall i :: 0 <= i < n ==> 0 < list[i].poc <= I32_MAX && (list[i].poc > poc || list[i].poc == poc == I32_MAX)
    decreases n
  {
    hide UeAt;
    if n > 0 {
      var (gap, p1) := (UeAt(t, p).value, UeAt(t, p).at);
      var step := Saturated(gap + 1);
      var next := Saturated(if negative then poc - step else poc + step);
      DeltasAreOrdered(t, p1 + 1, n - 1, next, negative);
    }
  }

  /** A set written outright has at most 16 pictures on either side, in strict order up to saturation. */
  lemma {:induction false} ExplicitIsOrdered(t: seq<bool>, p: nat)
    requires ExplicitAt(t, p).Got?
    ensures var rps := ExplicitAt(t, p).value;
            Ordered(rps, true) && |rps.before| <= MAX_REFERENCES_PER_SET && |rps.after| <= MAX_REFERENCES_PER_SET
  {
    hide UeAt, DeltasAt, Falls, Rises;
    var (negative, p1) := (UeAt(t, p).value, UeAt(t, p).at);
    var (positive, p2) := (UeAt(t, p1).value, UeAt(t, p1).at);
    DeltasAreOrdered(t, p2, negative, 0, true);
    DeltasAreOrdered(t, DeltasAt(t, p2, negative, 0, true).at, positive, 0, false);
  }

  predicate CandidatesFall(all: seq<Candidate>, strict: bool) {
    forall i, j :: 0 <= i < j < |all| ==> all[i].poc >= all[j].poc && (strict && all[i].poc == all[j].poc ==> AtEnd(all[i].poc))
  }

  /** Moved together, an ordered set and its own picture stay in order. */
  lemma {:induction false} CandidatesAreOrdered(rps: ReferenceSet, delta: int, flags: seq<Flag>, strict: bool)
    requires Ordered(rps, strict) && (strict ==> Calm(rps)) && |flags| == rps.Len() + 1
    requires -I32_MAX <= delta <= I32_MAX
    ensures CandidatesFall(Candidates(rps, delta, flags), strict)
  {
    hide Ordered, Calm, Candidates, PlaceOf;
    var all := Candidates(rps, delta, flags);
    forall i, j | 0 <= i < j < |all|
      ensures all[i].poc >= all[j].poc && (strict && all[i].poc == all[j].poc ==> AtEnd(all[i].poc))
    {
      CandidateAt(rps, delta, flags, i);
      CandidateAt(rps, delta, flags, j);
      MovedApart(rps, delta, i, j, strict);
    }
  }

  lemma {:induction false} CandidateAt(rps: ReferenceSet, delta: int, flags: seq<Flag>, i: nat)
    requires |flags| == rps.Len() + 1 && -I32_MAX <= delta <= I32_MAX && i <= rps.Len()
    ensures Candidates(rps, delta, flags)[i].poc == Saturated(PlaceOf(rps, i) + delta)
  {
    hide Reversed;
  }

  /** Where candidate `i` was before moving, 0 being the earlier set's own picture. */
  function PlaceOf(rps: ReferenceSet, i: nat): int
    requires i <= rps.Len()
  {
    var a := |rps.after|;
    if i < a then rps.after[a - 1 - i].poc else if i == a then 0 else rps.before[i - a - 1].poc
  }

  lemma {:induction false} MovedApart(rps: ReferenceSet, delta: int, i: nat, j: nat, strict: bool)
    requires Ordered(rps, strict) && (strict ==> Calm(rps)) && -I32_MAX <= delta <= I32_MAX && i < j <= rps.Len()
    ensures var x, y := Saturated(PlaceOf(rps, i) + delta), Saturated(PlaceOf(rps, j) + delta);
            x >= y && (strict && x == y ==> AtEnd(x))
    ensures Saturated(PlaceOf(rps, |rps.after|) + delta) == delta
  {
    hide AtEnd;
    var a := |rps.after|;
    if j < a {
      assert rps.after[a - 1 - j].poc <= rps.after[a - 1 - i].poc;
    }
    assert PlaceOf(rps, i) >= PlaceOf(rps, j);
    assert strict ==> PlaceOf(rps, i) > PlaceOf(rps, j) by {
      if strict {
        Apart(rps, i, j);
      }
    }
    Clamping(PlaceOf(rps, i) + delta, PlaceOf(rps, j) + delta);
  }

  lemma {:induction false} Apart(rps: ReferenceSet, i: nat, j: nat)
    requires Ordered(rps, true) && Calm(rps) && i < j <= rps.Len()
    ensures PlaceOf(rps, i) > PlaceOf(rps, j)
  {
    var a := |rps.after|;
    if j < a {
      assert rps.after[a - 1 - j].poc <= rps.after[a - 1 - i].poc;
    } else if i > a {
      assert rps.before[i - a - 1].poc >= rps.before[j - a - 1].poc;
    }
  }

  lemma {:induction false} Clamping(x: int, y: int)
    requires x >= y
    ensures Saturated(x) >= Saturated(y)
    ensures x > y && Saturated(x) == Saturated(y) ==> AtEnd(Saturated(x))
  {
  }

  /** `d` is one of the candidates kept on this side. */
  predicate Comes(all: seq<Candidate>, negative: bool, d: Delta) {
    exists i :: 0 <= i < |all| && Keeps(all[i], negative) && d == Delta(all[i].poc, all[i].flag.used)
  }

  /** Exactly the candidates flagged to be kept, on their side of the current picture. */
  lemma {:induction false} KeptComes(all: seq<Candidate>, negative: bool)
    ensures |KeptOf(all, negative)| <= |all|
    ensures forall d :: d in KeptOf(all, negative) <==> Comes(all, negative, d)
  {
    if all != [] {
      var n := |all| - 1;
      KeptComes(all[..n], negative);
      forall d ensures d in KeptOf(all, negative) <==> Comes(all, negative, d) {
        if Comes(all[..n], negative, d) {
          var i :| 0 <= i < n && Keeps(all[..n][i], negative) && d == Delta(all[..n][i].poc, all[..n][i].flag.used);
          assert Keeps(all[i], negative);
        }
        if Comes(all, negative, d) {
          var i :| 0 <= i < |all| && Keeps(all[i], negative) && d == Delta(all[i].poc, all[i].flag.used);
          assert i < n ==> Keeps(all[..n][i], negative) && Comes(all[..n], negative, d);
        }
      }
    }
  }

  lemma {:induction false} KeptFalls(all: seq<Candidate>, strict: bool)
    requires CandidatesFall(all, strict)
    ensures Falls(KeptOf(all, true), strict)
  {
    hide AtEnd;
    if all != [] {
      var n := |all| - 1;
      KeptFalls(all[..n], strict);
      KeptComes(all[..n], true);
      var before := KeptOf(all[..n], true);
      forall k | 0 <= k < |before|
        ensures before[k].poc >= all[n].poc && (strict && before[k].poc == all[n].poc ==> AtEnd(before[k].poc))
      {
        assert Comes(all[..n], true, before[k]);
      }
    }
  }

  predicate CandidatesRise(all: seq<Candidate>, strict: bool) {
    forall i, j :: 0 <= i < j < |all| ==> all[i].poc <= all[j].poc && (strict && all[i].poc == all[j].poc ==> AtEnd(all[i].poc))
  }

  lemma {:induction false} ReversedRises(all: seq<Candidate>, strict: bool)
    requires CandidatesFall(all, strict)
    ensures CandidatesRise(Reversed(all), strict)
  {
    hide AtEnd;
    var n, back := |all|, Reversed(all);
    forall i, j | 0 <= i < j < n
      ensures back[i].poc <= back[j].poc && (strict && back[i].poc == back[j].poc ==> AtEnd(back[i].poc))
    {
      assert all[n - 1 - j].poc >= all[n - 1 - i].poc;
    }
  }

  lemma {:induction false} KeptRises(all: seq<Candidate>, strict: bool)
    requires CandidatesRise(all, strict)
    ensures Rises(KeptOf(all, false), strict)
  {
    hide AtEnd;
    if all != [] {
      var n := |all| - 1;
      KeptRises(all[..n], strict);
      KeptComes(all[..n], false);
      var before := KeptOf(all[..n], false);
      forall k | 0 <= k < |before|
        ensures before[k].poc <= all[n].poc && (strict && before[k].poc == all[n].poc ==> AtEnd(before[k].poc))
      {
        assert Comes(all[..n], false, before[k]);
      }
    }
  }

  lemma {:induction false} KeptFront(x: Candidate, rest: seq<Candidate>, negative: bool)
    ensures |KeptOf([x] + rest, negative)| == (if Keeps(x, negative) then 1 else 0) + |KeptOf(rest, negative)|
  {
    if rest == [] {
      assert [x] + rest == [x] && [x][..0] == [] && KeptOf([], negative) == [];
    } else {
      var n := |rest| - 1;
      KeptFront(x, rest[..n], negative);
      assert ([x] + rest)[..n + 1] == [x] + rest[..n];
    }
  }

  lemma {:induction false} KeptEitherWay(all: seq<Candidate>)
    ensures |KeptOf(Reversed(all), false)| == |KeptOf(all, false)|
    ensures |KeptOf(all, true)| + |KeptOf(all, false)| <= |all|
  {
    if all != [] {
      var n := |all| - 1;
      KeptEitherWay(all[..n]);
      KeptFront(all[n], Reversed(all[..n]), false);
    }
  }

  /** A derived set has one picture more than the earlier one at most, in order, and strictly so unless something saturates. */
  lemma {:induction false} DerivedIsOrdered(rps: ReferenceSet, delta: int, flags: seq<Flag>, strict: bool)
    requires Ordered(rps, strict) && (strict ==> Calm(rps)) && |flags| == rps.Len() + 1 && -I32_MAX <= delta <= I32_MAX
    ensures Ordered(Derived(rps, delta, flags), strict)
    ensures Derived(rps, delta, flags).Len() <= rps.Len() + 1
  {
    hide Candidates, Falls, Rises, Reversed, CandidatesFall, CandidatesRise, Calm, PlaceOf, KeptOf;
    var all := Candidates(rps, delta, flags);
    CandidatesAreOrdered(rps, delta, flags, strict);
    KeptFalls(all, strict);
    ReversedRises(all, strict);
    KeptRises(Reversed(all), strict);
    KeptEitherWay(all);
    KeptComes(all, true);
    KeptComes(Reversed(all), false);
    var d := Derived(rps, delta, flags);
    forall i | 0 <= i < |d.before| ensures I32_MIN <= d.before[i].poc < 0 {
      assert Comes(all, true, d.before[i]);
      CandidateRange(rps, delta, flags);
    }
    forall i | 0 <= i < |d.after| ensures 0 < d.after[i].poc <= I32_MAX {
      assert Comes(Reversed(all), false, d.after[i]);
      CandidateRange(rps, delta, flags);
    }
  }

  lemma {:induction false} CandidateRange(rps: ReferenceSet, delta: int, flags: seq<Flag>)
    requires |flags| == rps.Len() + 1 && -I32_MAX <= delta <= I32_MAX
    ensures forall i :: 0 <= i <= rps.Len() ==> I32_MIN <= Candidates(rps, delta, flags)[i].poc <= I32_MAX
  {
    hide Candidates;
    forall i | 0 <= i <= rps.Len() ensures I32_MIN <= Candidates(rps, delta, flags)[i].poc <= I32_MAX {
      CandidateAt(rps, delta, flags, i);
    }
  }

  /** What a derived set holds: exactly the pictures flagged to be kept, each where its moved order count puts it. */
  lemma {:induction false} DerivedHolds(rps: ReferenceSet, delta: int, flags: seq<Flag>, d: Delta)
    requires |flags| == rps.Len() + 1 && -I32_MAX <= delta <= I32_MAX
    ensures d in Derived(rps, delta, flags).before <==>
            d.poc < 0 && exists i :: 0 <= i <= rps.Len() && FlagOf(rps, flags, i) == Flag(d.used, true) &&
                                     d.poc == Saturated(PlaceOf(rps, i) + delta)
    ensures d in Derived(rps, delta, flags).after <==>
            d.poc > 0 && exists i :: 0 <= i <= rps.Len() && FlagOf(rps, flags, i) == Flag(d.used, true) &&
                                     d.poc == Saturated(PlaceOf(rps, i) + delta)
  {
    hide KeptOf, Reversed, Candidates, PlaceOf, FlagOf;
    var all := Candidates(rps, delta, flags);
    KeptComes(all, true);
    KeptComes(Reversed(all), false);
    forall i | 0 <= i <= rps.Len()
      ensures all[i] == Candidate(Saturated(PlaceOf(rps, i) + delta), FlagOf(rps, flags, i))
      ensures Reversed(all)[|all| - 1 - i] == all[i]
    {
      CandidateAt(rps, delta, flags, i);
      CandidateFlag(rps, delta, flags, i);
    }
  }

  /** The flag of candidate `i`. */
  function FlagOf(rps: ReferenceSet, flags: seq<Flag>, i: nat): Flag
    requires |flags| == rps.Len() + 1 && i <= rps.Len()
  {
    var a, b := |rps.after|, |rps.before|;
    if i < a then flags[b + (a - 1 - i)] else if i == a then flags[a + b] else flags[i - a - 1]
  }

  lemma {:induction false} CandidateFlag(rps: ReferenceSet, delta: int, flags: seq<Flag>, i: nat)
    requires |flags| == rps.Len() + 1 && i <= rps.Len()
    ensures Candidates(rps, delta, flags)[i].flag == FlagOf(rps, flags, i)
  {
    hide Reversed;
  }

  // ----- How many pictures may be used -----

  function Trues(s: seq<bool>): nat {
    if s == [] then 0 else Trues(s[..|s| - 1]) + (if s[|s| - 1] then 1 else 0)
  }

  lemma {:induction false} TruesAre(s: seq<bool>)
    ensures Trues(s) == |set i | 0 <= i < |s| && s[i]|
  {
    if s != [] {
      var n := |s| - 1;
      TruesAre(s[..n]);
      var before := set i | 0 <= i < n && s[..n][i];
      assert (set i | 0 <= i < |s| && s[i]) == if s[n] then before + {n} else before;
    }
  }

  lemma {:induction false} TruesAppend(a: seq<bool>, b: seq<bool>)
    ensures Trues(a + b) == Trues(a) + Trues(b)
  {
    if b == [] {
      assert a + b == a;
    } else {
      var n := |b| - 1;
      TruesAppend(a, b[..n]);
      assert (a + b)[..|a + b| - 1] == a + b[..n];
    }
  }

  lemma {:induction false} TruesReversed(s: seq<bool>)
    ensures Trues(Reversed(s)) == Trues(s)
  {
    if s != [] {
      var n := |s| - 1;
      TruesReversed(s[..n]);
      TruesAppend([s[n]], Reversed(s[..n]));
      assert Trues([s[n]]) == if s[n] then 1 else 0;
    }
  }

  /** The pictures of a list flagged as used. */
  lemma {:induction false} UsedIs(list: seq<Delta>)
    ensures UsedIn(list) == |set i | 0 <= i < |list| && list[i].used|
  {
    if list != [] {
      var n := |list| - 1;
      UsedIs(list[..n]);
      var before := set i | 0 <= i < n && list[..n][i].used;
      assert (set i | 0 <= i < |list| && list[i].used) == if list[n].used then before + {n} else before;
    }
  }

  /** Which candidates are used in a derived set: those flagged, unless moved onto the current picture. */
  function Uses(all: seq<Candidate>, side: int): (r: seq<bool>)
    ensures |r| == |all|
  {
    seq(|all|, i requires 0 <= i < |all| => all[i].flag.used && (if side < 0 then all[i].poc < 0 else if side > 0 then all[i].poc > 0 else all[i].poc != 0))
  }

  lemma {:induction false} KeptUses(all: seq<Candidate>, negative: bool)
    requires forall i :: 0 <= i < |all| && all[i].flag.used ==> all[i].flag.keep
    ensures UsedIn(KeptOf(all, negative)) == Trues(Uses(all, if negative then -1 else 1))
  {
    if all != [] {
      var n, side := |all| - 1, if negative then -1 else 1;
      KeptUses(all[..n], negative);
      assert Uses(all, side)[..n] == Uses(all[..n], side);
      var kept := KeptOf(all[..n], negative);
      if Keeps(all[n], negative) {
        assert (kept + [Delta(all[n].poc, all[n].flag.used)])[..|kept|] == kept;
      } else {
        assert kept + [] == kept;
      }
    }
  }

  lemma {:induction false} UsesSplit(all: seq<Candidate>)
    ensures Trues(Uses(all, -1)) + Trues(Uses(all, 1)) == Trues(Uses(all, 0))
  {
    if all != [] {
      var n := |all| - 1;
      UsesSplit(all[..n]);
      assert Uses(all, -1)[..n] == Uses(all[..n], -1) && Uses(all, 1)[..n] == Uses(all[..n], 1) && Uses(all, 0)[..n] == Uses(all[..n], 0);
    }
  }

  /** Where the picture of flag `j` was before moving: the earlier set's pictures as listed, then its own. */
  function Place(rps: ReferenceSet, j: nat): int
    requires j <= rps.Len()
  {
    var n := |rps.before|;
    if j < n then rps.before[j].poc else if j < rps.Len() then rps.after[j - n].poc else 0
  }

  /** A derived set may use exactly the pictures flagged as used that do not land on the current one. */
  lemma {:induction false} DerivedUsed(rps: ReferenceSet, delta: int, flags: seq<Flag>)
    requires |flags| == rps.Len() + 1 && -I32_MAX <= delta <= I32_MAX
    requires forall i :: 0 <= i < |flags| && flags[i].used ==> flags[i].keep
    ensures Derived(rps, delta, flags).Used() == |set j | 0 <= j <= rps.Len() && flags[j].used && Place(rps, j) + delta != 0|
  {
    hide KeptOf, Candidates, Uses, UsedIn, Trues, Reversed, Place;
    var all := Candidates(rps, delta, flags);
    CandidateFlags(rps, delta, flags);
    KeptUses(all, true);
    KeptUses(Reversed(all), false);
    UsesReversed(all, 1);
    UsesSplit(all);
    UsesInOrder(rps, delta, flags);
  }

  lemma {:induction false} CandidateFlags(rps: ReferenceSet, delta: int, flags: seq<Flag>)
    requires |flags| == rps.Len() + 1 && forall i :: 0 <= i < |flags| && flags[i].used ==> flags[i].keep
    ensures forall i :: 0 <= i <= rps.Len() && Candidates(rps, delta, flags)[i].flag.used ==> Candidates(rps, delta, flags)[i].flag.keep
    ensures var back := Reversed(Candidates(rps, delta, flags));
            forall i :: 0 <= i <= rps.Len() && back[i].flag.used ==> back[i].flag.keep
  {
    hide Candidates;
    forall i | 0 <= i <= rps.Len()
      ensures Candidates(rps, delta, flags)[i].flag.used ==> Candidates(rps, delta, flags)[i].flag.keep
    {
      CandidateFlag(rps, delta, flags, i);
    }
  }

  lemma {:induction false} UsesReversed(all: seq<Candidate>, side: int)
    ensures Trues(Uses(Reversed(all), side)) == Trues(Uses(all, side))
  {
    hide Trues;
    assert Uses(Reversed(all), side) == Reversed(Uses(all, side));
    TruesReversed(Uses(all, side));
  }

  /** Counted in the order of the candidates or in that of the flags, it is the same. */
  lemma {:induction false} UsesInOrder(rps: ReferenceSet, delta: int, flags: seq<Flag>)
    requires |flags| == rps.Len() + 1 && -I32_MAX <= delta <= I32_MAX
    ensures Trues(Uses(Candidates(rps, delta, flags), 0)) == |set j | 0 <= j <= rps.Len() && flags[j].used && Place(rps, j) + delta != 0|
  {
    hide Trues, Reversed;
    var n := |rps.before|;
    var b, a := CandidatesOf(rps.before, delta, flags[..n]), CandidatesOf(rps.after, delta, flags[n..n + |rps.after|]);
    var own := [Candidate(delta, flags[rps.Len()])];
    var listed := Uses(b, 0) + Uses(a, 0) + Uses(own, 0);
    assert Uses(Candidates(rps, delta, flags), 0) == Uses(Reversed(a), 0) + Uses(own, 0) + Uses(b, 0);
    TruesAppend(Uses(Reversed(a), 0) + Uses(own, 0), Uses(b, 0));
    TruesAppend(Uses(Reversed(a), 0), Uses(own, 0));
    UsesReversed(a, 0);
    TruesAppend(Uses(b, 0) + Uses(a, 0), Uses(own, 0));
    TruesAppend(Uses(b, 0), Uses(a, 0));
    TruesAre(listed);
    assert (set j | 0 <= j < |listed| && listed[j]) == (set j | 0 <= j <= rps.Len() && flags[j].used && Place(rps, j) + delta != 0);
  }

  // ----- Sets of a parameter set -----

  /** Set `k` has at most 32 + k pictures, all of them in order. */
  predicate SetsOk(sets: seq<ReferenceSet>) {
    forall k :: 0 <= k < |sets| ==> Ordered(sets[k], false) && sets[k].Len() <= 2 * MAX_REFERENCES_PER_SET + k
  }

  /** Strict order of every set whose own and earlier pictures never saturate. */
  predicate SetsStrict(sets: seq<ReferenceSet>) {
    forall k :: 0 <= k < |sets| && (forall j :: 0 <= j < k ==> Calm(sets[j])) ==> Ordered(sets[k], true)
  }

  /** One more set, read after those before it, in a parameter set or in a slice header. */
  lemma {:induction false} SetIsOrdered(t: seq<bool>, p: nat, index: nat, count: nat, sets: seq<ReferenceSet>)
    requires SetAt(t, p, index, count, sets).Got? && SetsOk(sets) && SetsStrict(sets) && index == |sets| <= count
    ensures var rps := SetAt(t, p, index, count, sets).value;
            && Ordered(rps, false) && rps.Len() <= 2 * MAX_REFERENCES_PER_SET + index
            && ((forall j :: 0 <= j < index ==> Calm(sets[j])) ==> Ordered(rps, true))
  {
    hide ExplicitAt, InterAt, Ordered, Calm, SetsOk, SetsStrict;
    var (inter, p1) := (FlagAt(t, p, index != 0).value, FlagAt(t, p, index != 0).at);
    if inter {
      InterIsOrdered(t, p1, index, count, sets);
    } else {
      ExplicitIsOrdered(t, p1);
      Loosen(ExplicitAt(t, p1).value);
    }
  }

  lemma {:induction false} Loosen(rps: ReferenceSet)
    requires Ordered(rps, true)
    ensures Ordered(rps, false)
  {
  }

  lemma {:induction false} InterIsOrdered(t: seq<bool>, p: nat, index: nat, count: nat, sets: seq<ReferenceSet>)
    requires InterAt(t, p, index, count, sets).Got? && SetsOk(sets) && SetsStrict(sets) && index == |sets|
    ensures var rps := InterAt(t, p, index, count, sets).value;
            && Ordered(rps, false) && rps.Len() <= 2 * MAX_REFERENCES_PER_SET + index
            && ((forall j :: 0 <= j < index ==> Calm(sets[j])) ==> Ordered(rps, true))
  {
    hide InterAt, Ordered, Calm, Derived;
    var j, delta, flags := InterIsDerived(t, p, index, count, sets);
    DerivedIsOrdered(sets[j], delta, flags, false);
    if forall j :: 0 <= j < index ==> Calm(sets[j]) {
      DerivedIsOrdered(sets[j], delta, flags, true);
    }
  }

  lemma {:induction false} InterIsDerived(t: seq<bool>, p: nat, index: nat, count: nat, sets: seq<ReferenceSet>)
    returns (j: nat, delta: int, flags: seq<Flag>)
    requires InterAt(t, p, index, count, sets).Got?
    ensures j < index && j < |sets| && |flags| == sets[j].Len() + 1 && -I32_MAX <= delta <= I32_MAX
    ensures InterAt(t, p, index, count, sets).value == Derived(sets[j], delta, flags)
  {
    hide UeAt, BitReadAt, FlagsAt, Derived;
    var (back, p1) := (BackAt(t, p, index, count).value, BackAt(t, p, index, count).at);
    j := index - back;
    var (sign, p2) := (BitReadAt(t, p1).value, BitReadAt(t, p1).at);
    var (size, p3) := (UeAt(t, p2).value, UeAt(t, p2).at);
    var magnitude := Saturated(size + 1);
    delta := if sign then -magnitude else magnitude;
    flags := FlagsAt(t, p3, sets[j].Len() + 1).value;
  }

  /** Every set of a parsed parameter set is in order, and not too large. */
  lemma {:induction false} SetsAreOrdered(t: seq<bool>, p: nat, count: nat, sets: seq<ReferenceSet>)
    requires SetsAt(t, p, count, sets).Got? && SetsOk(sets) && SetsStrict(sets) && |sets| <= count
    ensures SetsOk(SetsAt(t, p, count, sets).value) && SetsStrict(SetsAt(t, p, count, sets).value)
    ensures |SetsAt(t, p, count, sets).value| == count
    decreases count - |sets|
  {
    hide SetAt, Ordered, Calm;
    if |sets| < count {
      SetIsOrdered(t, p, |sets|, count, sets);
      var rps := SetAt(t, p, |sets|, count, sets);
      SetsGrow(sets, rps.value);
      SetsAreOrdered(t, rps.at, count, sets + [rps.value]);
    }
  }

  lemma {:induction false} SetsGrow(sets: seq<ReferenceSet>, next: ReferenceSet)
    requires SetsOk(sets) && SetsStrict(sets) && Ordered(next, false) && next.Len() <= 2 * MAX_REFERENCES_PER_SET + |sets|
    requires (forall j :: 0 <= j < |sets| ==> Calm(sets[j])) ==> Ordered(next, true)
    ensures SetsOk(sets + [next]) && SetsStrict(sets + [next])
  {
    hide Ordered, Calm;
    var all := sets + [next];
    forall k | 0 <= k < |all| && (forall j :: 0 <= j < k ==> Calm(all[j])) ensures Ordered(all[k], true) {
      forall j | 0 <= j < k ensures Calm(sets[j]) {
        assert all[j] == sets[j];
      }
      if k < |sets| {
        assert Ordered(sets[k], true);
      }
    }
  }

  // ----- The source's reader -----

  /** A run read so far and what is left of it make up the whole run. */
  ghost predicate Continues<T>(whole: Read<seq<T>>, done: seq<T>, rest: Read<seq<T>>) {
    if rest.Bad? then whole.Bad? else whole == Got(done + rest.value, rest.at)
  }

  lemma {:induction false} ContinueWith<T>(whole: Read<seq<T>>, done: seq<T>, x: T, rest: Read<seq<T>>)
    requires Continues(whole, done, if rest.Bad? then Bad else Got([x] + rest.value, rest.at))
    ensures Continues(whole, done + [x], rest)
  {
    if rest.Got? {
      assert done + ([x] + rest.value) == (done + [x]) + rest.value;
    }
  }

  method ReadDeltas(r: BitReader, n: nat, negative: bool) returns (res: Result<seq<Delta>>)
    requires r.Valid()
    modifies r
    ensures r.Valid() && r.Follows(res, DeltasAt(r.tape, old(r.bit), n, 0, negative))
  {
    hide UeAt, BitsOf, Saturated, Continues;
    var list: seq<Delta>, poc: int := [], 0;
    ghost var whole := DeltasAt(r.tape, r.bit, n, 0, negative);
    StartOf(whole);
    for i := 0 to n
      invariant r.Valid() && Continues(whole, list, DeltasAt(r.tape, r.bit, n - i, poc, negative))
    {
      EndsLater(whole, list, DeltasAt(r.tape, r.bit, n - i, poc, negative));
      var gap :- r.Ue();
      if gap > I32_MAX {
        return Err;
      }
      var step := Saturated(gap + 1);
      ghost var next := Saturated(if negative then poc - step else poc + step);
      poc := if negative then Saturated(poc - step) else Saturated(poc + step);
      var used :- r.Bit();
      ContinueWith(whole, list, Delta(next, used), DeltasAt(r.tape, r.bit, n - i - 1, next, negative));
      list := list + [Delta(poc, used)];
    }
    Finished(whole, list, DeltasAt(r.tape, r.bit, 0, poc, negative));
    return Ok(list);
  }

  lemma {:induction false} StartOf<T>(whole: Read<seq<T>>)
    ensures Continues(whole, [], whole)
  {
    if whole.Got? {
      assert [] + whole.value == whole.value;
    }
  }

  lemma {:induction false} EndsLater<T>(whole: Read<seq<T>>, done: seq<T>, rest: Read<seq<T>>)
    requires Continues(whole, done, rest)
    ensures whole.Got? == rest.Got? && (whole.Got? ==> whole.at == rest.at)
  {
  }

  lemma {:induction false} Finished<T>(whole: Read<seq<T>>, done: seq<T>, rest: Read<seq<T>>)
    requires Continues(whole, done, rest) && rest.Got? && rest.value == []
    ensures whole == Got(done, rest.at)
  {
    assert done + [] == done;
  }

  method ReadFlags(r: BitReader, n: nat) returns (res: Result<seq<Flag>>)
    requires r.Valid()
    modifies r
    ensures r.Valid() && r.Follows(res, FlagsAt(r.tape, old(r.bit), n))
  {
    hide BitsOf, Continues;
    var list: seq<Flag> := [];
    ghost var whole := FlagsAt(r.tape, r.bit, n);
    StartOf(whole);
    for i := 0 to n
      invariant r.Valid() && Continues(whole, list, FlagsAt(r.tape, r.bit, n - i))
    {
      EndsLater(whole, list, FlagsAt(r.tape, r.bit, n - i));
      var used :- r.Bit();
      var keep := used;
      if !used {
        keep :- r.Bit();
      }
      ContinueWith(whole, list, Flag(used, keep), FlagsAt(r.tape, r.bit, n - i - 1));
      list := list + [Flag(used, keep)];
    }
    Finished(whole, list, FlagsAt(r.tape, r.bit, 0));
    return Ok(list);
  }

  lemma {:induction false} KeptStep(all: seq<Candidate>, negative: bool, i: nat)
    requires i < |all|
    ensures KeptOf(all[..i + 1], negative)
            == KeptOf(all[..i], negative) + (if Keeps(all[i], negative) then [Delta(all[i].poc, all[i].flag.used)] else [])
  {
    assert all[..i + 1][..i] == all[..i];
  }

  /** The loops of `set_at` that derive a set. */
  method Derive(rps: ReferenceSet, delta: int, flags: seq<Flag>) returns (d: ReferenceSet)
    requires |flags| == rps.Len() + 1
    ensures d == Derived(rps, delta, flags)
  {
    var before := DeriveBefore(rps, delta, flags);
    var after := DeriveAfter(rps, delta, flags);
    return ReferenceSet(before, after);
  }

  method DeriveBefore(rps: ReferenceSet, delta: int, flags: seq<Flag>) returns (before: seq<Delta>)
    requires |flags| == rps.Len() + 1
    ensures before == KeptOf(Candidates(rps, delta, flags), true)
  {
    hide KeptOf;
    var a, n := |rps.after|, |rps.before|;
    ghost var all := Candidates(rps, delta, flags);
    before := [];
    KeptNone(all);
    for offset := a downto 0
      invariant before == KeptOf(all[..a - offset], true)
    {
      KeptStep(all, true, a - 1 - offset);
      var moved := Saturated(rps.after[offset].poc + delta);
      if moved < 0 && flags[n + offset].keep {
        before := before + [Delta(moved, flags[n + offset].used)];
      }
    }
    KeptStep(all, true, a);
    if delta < 0 && flags[rps.Len()].keep {
      before := before + [Delta(delta, flags[rps.Len()].used)];
    }
    for offset := 0 to n
      invariant before == KeptOf(all[..a + 1 + offset], true)
    {
      KeptStep(all, true, a + 1 + offset);
      var moved := Saturated(rps.before[offset].poc + delta);
      if moved < 0 && flags[offset].keep {
        before := before + [Delta(moved, flags[offset].used)];
      }
    }
    assert all[..a + 1 + n] == all;
  }

  lemma {:induction false} KeptNone(all: seq<Candidate>)
    ensures KeptOf(all[..0], true) == [] && KeptOf(all[..0], false) == []
  {
  }

  method DeriveAfter(rps: ReferenceSet, delta: int, flags: seq<Flag>) returns (after: seq<Delta>)
    requires |flags| == rps.Len() + 1
    ensures after == KeptOf(Reversed(Candidates(rps, delta, flags)), false)
  {
    hide KeptOf;
    var a, n := |rps.after|, |rps.before|;
    ghost var all := Reversed(Candidates(rps, delta, flags));
    after := [];
    KeptNone(all);
    for offset := n downto 0
      invariant after == KeptOf(all[..n - offset], false)
    {
      KeptStep(all, false, n - 1 - offset);
      var moved := Saturated(rps.before[offset].poc + delta);
      if moved > 0 && flags[offset].keep {
        after := after + [Delta(moved, flags[offset].used)];
      }
    }
    KeptStep(all, false, n);
    if delta > 0 && flags[rps.Len()].keep {
      after := after + [Delta(delta, flags[rps.Len()].used)];
    }
    for offset := 0 to a
      invariant after == KeptOf(all[..n + 1 + offset], false)
    {
      KeptStep(all, false, n + 1 + offset);
      var moved := Saturated(rps.after[offset].poc + delta);
      if moved > 0 && flags[n + offset].keep {
        after := after + [Delta(moved, flags[n + offset].used)];
      }
    }
    assert all[..n + 1 + a] == all;
  }

  /** `set_at` */
  method ReadSet(r: BitReader, index: nat, count: nat, sets: seq<ReferenceSet>) returns (res: Result<ReferenceSet>)
    requires r.Valid()
    modifies r
    ensures r.Valid() && r.Follows(res, SetAt(r.tape, old(r.bit), index, count, sets))
  {
    hide UeAt, BitsOf, DeltasAt, FlagsAt, Derived, Saturated;
    var inter := false;
    if index != 0 {
      inter :- r.Bit();
    }
    if !inter {
      var negative :- r.Ue();
      var positive :- r.Ue();
      if negative > MAX_REFERENCES_PER_SET || positive > MAX_REFERENCES_PER_SET {
        return Err;
      }
      var before :- ReadDeltas(r, negative, true);
      var after :- ReadDeltas(r, positive, false);
      return Ok(ReferenceSet(before, after));
    }
    res := ReadInter(r, index, count, sets);
  }

  method ReadInter(r: BitReader, index: nat, count: nat, sets: seq<ReferenceSet>) returns (res: Result<ReferenceSet>)
    requires r.Valid()
    modifies r
    ensures r.Valid() && r.Follows(res, InterAt(r.tape, old(r.bit), index, count, sets))
  {
    hide UeAt, BitsOf, FlagsAt, Derived, Saturated;
    var back := 1;
    if index == count {
      var code :- r.Ue();
      back := code + 1;
    }
    if back > index || index - back >= |sets| {
      return Err;
    }
    var from := sets[index - back];
    var sign :- r.Bit();
    var size :- r.Ue();
    if size > I32_MAX {
      return Err;
    }
    var magnitude := Saturated(size + 1);
    var flags :- ReadFlags(r, from.Len() + 1);
    var derived := Derive(from, if sign then -magnitude else magnitude, flags);
    return Ok(derived);
  }

  /** The loop of `parse_sps` over its sets. */
  method ReadSets(r: BitReader, count: nat) returns (res: Result<seq<ReferenceSet>>)
    requires r.Valid()
    modifies r
    ensures r.Valid() && r.Follows(res, SetsAt(r.tape, old(r.bit), count, []))
    ensures res.Ok? ==> |res.value| == count && SetsOk(res.value) && SetsStrict(res.value)
  {
    hide BitsOf, SetAt, SetsOk, SetsStrict;
    var sets: seq<ReferenceSet> := [];
    ghost var whole := SetsAt(r.tape, r.bit, count, []);
    for index := 0 to count
      invariant r.Valid() && |sets| == index && whole == SetsAt(r.tape, r.bit, count, sets)
    {
      var rps :- ReadSet(r, index, count, sets);
      sets := sets + [rps];
    }
    NoSets();
    SetsAreOrdered(r.tape, old(r.bit), count, []);
    return Ok(sets);
  }

  lemma {:induction false} NoSets()
    ensures SetsOk([]) && SetsStrict([])
  {
  }
}
