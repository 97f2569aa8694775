/**
 H.265 slice segment headers as values with the code they are written as (section 7.3.6.1 of
 ITU-T H.265), and that the parser reads back whatever is written and stops at its end.
 */
module HevcPrinter {
  import opened Common
  import opened Bits
  import opened Syntax
  import opened ReferenceSets
  import opened Hevc

  // ----- What is written is read -----

  lemma {:induction false} SkipOn(t: seq<bool>, p: nat, n: nat, v: seq<bool>)
    requires |v| == n && On(t, p, v)
    ensures SkipAt(t, p, n) == Got(v, p + n)
  {
    SkipExact(t, p, n, v);
  }

  lemma {:induction false} BitOn(t: seq<bool>, p: nat, v: bool)
    requires On(t, p, [v])
    ensures BitReadAt(t, p) == Got(v, p + 1)
  {
    BitExact(t, p, v);
  }

  lemma {:induction false} BitsOn(t: seq<bool>, p: nat, count: nat, v: nat)
    requires count <= 32 && v < Pow2(count) && On(t, p, Binary(v, count))
    ensures BitsAt(t, p, count) == Got(v, p + count)
  {
    BitsExact(t, p, count, v);
  }

  lemma {:induction false} UeOn(t: seq<bool>, p: nat, v: nat)
    requires v <= UE_MAX && On(t, p, UeCode(v))
    ensures UeAt(t, p) == Got(v, p + |UeCode(v)|)
  {
    hide UeAt, UeCode;
    UeExact(t, p, v);
  }

  lemma {:induction false} SeOn(t: seq<bool>, p: nat, v: int)
    requires -SE_MAX <= v <= SE_MAX && On(t, p, SeCode(v))
    ensures SeAt(t, p) == Got(v, p + |SeCode(v)|)
  {
    hide SeAt, SeCode;
    SeExact(t, p, v);
  }

  lemma {:induction false} FlagOn(t: seq<bool>, p: nat, present: bool, v: bool)
    requires (present || !v) && On(t, p, FlagCode(present, v))
    ensures FlagAt(t, p, present) == Got(v, p + |FlagCode(present, v)|)
  {
    FlagExact(t, p, present, v);
  }

  lemma {:induction false} OptUeOn(t: seq<bool>, p: nat, present: bool, v: nat)
    requires OptUeOk(present, v) && On(t, p, OptUeCode(present, v))
    ensures OptUeAt(t, p, present) == Got(v, p + |OptUeCode(present, v)|)
  {
    hide OptUeAt, OptUeCode;
    OptUeExact(t, p, present, v);
  }

  lemma {:induction false} OptSeOn(t: seq<bool>, p: nat, present: bool, v: int)
    requires OptSeOk(present, v) && On(t, p, OptSeCode(present, v))
    ensures OptSeAt(t, p, present) == Got(v, p + |OptSeCode(present, v)|)
  {
    hide OptSeAt, OptSeCode;
    OptSeExact(t, p, present, v);
  }

  lemma {:induction false} SesOn(t: seq<bool>, p: nat, n: nat, v: seq<int>)
    requires SesOk(v, n) && On(t, p, SesCode(v))
    ensures SesAt(t, p, n) == Got(v, p + |SesCode(v)|)
  {
    hide SesAt, SesCode;
    SesExact(t, p, n, v);
  }

  lemma {:induction false} SkipsOn(t: seq<bool>, p: nat, count: nat, width: nat, v: seq<bool>)
    requires |v| == count * width && On(t, p, v)
    ensures SkipsAt(t, p, count, width) == Got((), p + |v|)
    decreases count
  {
    hide On;
    if count > 0 {
      assert count * width == width + (count - 1) * width;
      assert v == v[..width] + v[width..];
      OnSplit(t, p, v[..width], v[width..]);
      SkipOn(t, p, width, v[..width]);
      SkipsOn(t, p + width, count - 1, width, v[width..]);
    }
  }

  // ----- Reference picture sets -----

  datatype Gap = Gap(gap: nat, used: bool)

  function GapsCode(v: seq<Gap>): seq<bool> {
    if v == [] then [] else UeCode(v[0].gap) + ([v[0].used] + GapsCode(v[1..]))
  }

  predicate GapsOk(v: seq<Gap>) {
    |v| <= MAX_REFERENCES_PER_SET && forall i :: 0 <= i < |v| ==> v[i].gap <= I32_MAX
  }

  /** The pictures a list of gaps names, counted away from `poc`. */
  function DeltasOf(v: seq<Gap>, poc: int, negative: bool): seq<Delta> {
    if v == [] then []
    else
      var step := Saturated(v[0].gap + 1);
      var next := Saturated(if negative then poc - step else poc + step);
      [Delta(next, v[0].used)] + DeltasOf(v[1..], next, negative)
  }

  lemma {:induction false} GapsWritten(t: seq<bool>, p: nat, v: seq<Gap>, poc: int, negative: bool)
    requires GapsOk(v) && On(t, p, GapsCode(v))
    ensures DeltasAt(t, p, |v|, poc, negative) == Got(DeltasOf(v, poc, negative), p + |GapsCode(v)|)
    decreases |v|
  {
    hide On, UeAt, UeCode, BitReadAt, Saturated, DeltasAt;
    if v == [] {
      NoDeltas(t, p, poc, negative);
    } else {
      var p1 := p + |UeCode(v[0].gap)|;
      OnSplit(t, p, UeCode(v[0].gap), [v[0].used] + GapsCode(v[1..]));
      OnSplit(t, p1, [v[0].used], GapsCode(v[1..]));
      UeOn(t, p, v[0].gap);
      BitOn(t, p1, v[0].used);
      var step := Saturated(v[0].gap + 1);
      var next := Saturated(if negative then poc - step else poc + step);
      GapsWritten(t, p1 + 1, v[1..], next, negative);
      OneDelta(t, p, |v|, poc, negative, v[0], p1);
    }
  }

  lemma {:induction false} NoDeltas(t: seq<bool>, p: nat, poc: int, negative: bool)
    ensures DeltasAt(t, p, 0, poc, negative) == Got([], p)
  {
  }

  lemma {:induction false} OneDelta(t: seq<bool>, p: nat, n: nat, poc: int, negative: bool, v: Gap, p1: nat)
    requires n > 0 && UeAt(t, p) == Got(v.gap, p1) && BitReadAt(t, p1) == Got(v.used, p1 + 1) && v.gap <= I32_MAX
    ensures var step := Saturated(v.gap + 1);
            var next := Saturated(if negative then poc - step else poc + step);
            var rest := DeltasAt(t, p1 + 1, n - 1, next, negative);
            DeltasAt(t, p, n, poc, negative) == if rest.Bad? then Bad else Got([Delta(next, v.used)] + rest.value, rest.at)
  {
    hide UeAt, BitReadAt, Saturated;
  }

  datatype FlagSyntax = FlagSyntax(used: bool, useDelta: bool)

  function FlagsCode(v: seq<FlagSyntax>): seq<bool> {
    if v == [] then [] else [v[0].used] + (FlagCode(!v[0].used, v[0].useDelta) + FlagsCode(v[1..]))
  }

  predicate FlagsOk(v: seq<FlagSyntax>, n: nat) {
    |v| == n && forall i :: 0 <= i < n && v[i].used ==> !v[i].useDelta
  }

  function FlagsOf(v: seq<FlagSyntax>): (r: seq<Flag>)
    ensures |r| == |v|
  {
    if v == [] then [] else [Flag(v[0].used, v[0].used || v[0].useDelta)] + FlagsOf(v[1..])
  }

  lemma {:induction false} FlagsWritten(t: seq<bool>, p: nat, v: seq<FlagSyntax>)
    requires FlagsOk(v, |v|) && On(t, p, FlagsCode(v))
    ensures FlagsAt(t, p, |v|) == Got(FlagsOf(v), p + |FlagsCode(v)|)
    decreases |v|
  {
    hide On, BitReadAt, FlagAt, FlagCode;
    if v != [] {
      var second := FlagCode(!v[0].used, v[0].useDelta);
      OnSplit(t, p, [v[0].used], second + FlagsCode(v[1..]));
      OnSplit(t, p + 1, second, FlagsCode(v[1..]));
      BitOn(t, p, v[0].used);
      FlagOn(t, p + 1, !v[0].used, v[0].useDelta);
      FlagsWritten(t, p + 1 + |second|, v[1..]);
    }
  }

  /** A set as it is written: outright, or by how far back the set it builds on is, a signed step, and flags. */
  datatype SetSyntax =
    | Explicit(before: seq<Gap>, after: seq<Gap>)
    | Inter(back: nat, negative: bool, size: nat, flags: seq<FlagSyntax>)

  predicate SetOk(v: SetSyntax, index: nat, count: nat, sets: seq<ReferenceSet>) {
    match v
    case Explicit(before, after) => GapsOk(before) && GapsOk(after)
    case Inter(back, _, size, flags) =>
      && back < index && index - back - 1 < |sets| && OptUeOk(index == count, back)
      && size <= I32_MAX && FlagsOk(flags, sets[index - back - 1].Len() + 1)
  }

  function SetCode(v: SetSyntax, index: nat, count: nat): seq<bool> {
    FlagCode(index != 0, v.Inter?) +
    match v
    case Explicit(before, after) => UeCode(|before|) + (UeCode(|after|) + (GapsCode(before) + GapsCode(after)))
    case Inter(back, negative, size, flags) => OptUeCode(index == count, back) + ([negative] + (UeCode(size) + FlagsCode(flags)))
  }

  function SetOf(v: SetSyntax, index: nat, count: nat, sets: seq<ReferenceSet>): ReferenceSet
    requires SetOk(v, index, count, sets)
  {
    match v
    case Explicit(before, after) => ReferenceSet(DeltasOf(before, 0, true), DeltasOf(after, 0, false))
    case Inter(back, negative, size, flags) =>
      Derived(sets[index - back - 1], if negative then -Saturated(size + 1) else Saturated(size + 1), FlagsOf(flags))
  }

  lemma {:induction false} SetWritten(t: seq<bool>, p: nat, v: SetSyntax, index: nat, count: nat, sets: seq<ReferenceSet>)
    requires SetOk(v, index, count, sets) && On(t, p, SetCode(v, index, count))
    ensures SetAt(t, p, index, count, sets) == Got(SetOf(v, index, count, sets), p + |SetCode(v, index, count)|)
  {
    hide On, FlagAt, FlagCode, ExplicitAt, InterAt, UeCode, GapsCode, FlagsCode, OptUeCode, Derived, DeltasOf, FlagsOf, GapsOk, FlagsOk;
    var inter := FlagCode(index != 0, v.Inter?);
    match v
    case Explicit(before, after) =>
      OnSplit(t, p, inter, UeCode(|before|) + (UeCode(|after|) + (GapsCode(before) + GapsCode(after))));
      FlagOn(t, p, index != 0, false);
      ExplicitWritten(t, p + |inter|, before, after);
    case Inter(back, negative, size, flags) =>
      OnSplit(t, p, inter, OptUeCode(index == count, back) + ([negative] + (UeCode(size) + FlagsCode(flags))));
      FlagOn(t, p, index != 0, true);
      InterWritten(t, p + |inter|, v, index, count, sets);
  }

  lemma {:induction false} ExplicitWritten(t: seq<bool>, p: nat, before: seq<Gap>, after: seq<Gap>)
    requires GapsOk(before) && GapsOk(after)
    requires On(t, p, UeCode(|before|) + (UeCode(|after|) + (GapsCode(before) + GapsCode(after))))
    ensures ExplicitAt(t, p) == Got(ReferenceSet(DeltasOf(before, 0, true), DeltasOf(after, 0, false)),
                                    p + |UeCode(|before|) + (UeCode(|after|) + (GapsCode(before) + GapsCode(after)))|)
  {
    hide On, UeAt, UeCode, GapsCode, DeltasAt, DeltasOf;
    var c1, c2, c3, c4 := UeCode(|before|), UeCode(|after|), GapsCode(before), GapsCode(after);
    OnSplit(t, p, c1, c2 + (c3 + c4));
    OnSplit(t, p + |c1|, c2, c3 + c4);
    OnSplit(t, p + |c1| + |c2|, c3, c4);
    UeOn(t, p, |before|);
    UeOn(t, p + |c1|, |after|);
    GapsWritten(t, p + |c1| + |c2|, before, 0, true);
    GapsWritten(t, p + |c1| + |c2| + |c3|, after, 0, false);
  }

  lemma {:induction false} InterWritten(t: seq<bool>, p: nat, v: SetSyntax, index: nat, count: nat, sets: seq<ReferenceSet>)
    requires v.Inter? && SetOk(v, index, count, sets)
    requires On(t, p, OptUeCode(index == count, v.back) + ([v.negative] + (UeCode(v.size) + FlagsCode(v.flags))))
    ensures InterAt(t, p, index, count, sets) ==
            Got(SetOf(v, index, count, sets),
                p + |OptUeCode(index == count, v.back) + ([v.negative] + (UeCode(v.size) + FlagsCode(v.flags)))|)
  {
    hide On, UeAt, UeCode, OptUeAt, OptUeCode, OptUeOk, FlagsAt, FlagsCode, FlagsOf, Derived, BitReadAt, Saturated;
    var c1, c3, c4 := OptUeCode(index == count, v.back), UeCode(v.size), FlagsCode(v.flags);
    OnSplit(t, p, c1, [v.negative] + (c3 + c4));
    OnSplit(t, p + |c1|, [v.negative], c3 + c4);
    OnSplit(t, p + |c1| + 1, c3, c4);
    OptUeOn(t, p, index == count, v.back);
    BitOn(t, p + |c1|, v.negative);
    UeOn(t, p + |c1| + 1, v.size);
    FlagsWritten(t, p + |c1| + 1 + |c3|, v.flags);
  }

  // ----- How many pictures of a set the current one may use, as written -----

  /** Where flag `j` of a derived set puts its picture: those of the earlier set as listed, then that set's own. */
  function Lands(rps: ReferenceSet, step: int, j: nat): int {
    var n := |rps.before|;
    (if j < n then rps.before[j].poc else if j - n < |rps.after| then rps.after[j - n].poc else 0) + step
  }

  /** The written `used` flags; a picture moved onto the current one is dropped. */
  function WrittenUsed(v: SetSyntax, index: nat, count: nat, sets: seq<ReferenceSet>): nat
    requires SetOk(v, index, count, sets)
  {
    match v
    case Explicit(before, after) =>
      |set i | 0 <= i < |before| && before[i].used| + |set i | 0 <= i < |after| && after[i].used|
    case Inter(back, negative, size, flags) =>
      var step := Min(size + 1, 0x7FFF_FFFF);
      |set j | 0 <= j < |flags| && flags[j].used && Lands(sets[index - back - 1], if negative then -step else step, j) != 0|
  }

  /** The flags a set was left with. */
  function ListedUsed(rps: ReferenceSet): nat {
    |set i | 0 <= i < |rps.before| && rps.before[i].used| + |set i | 0 <= i < |rps.after| && rps.after[i].used|
  }

  lemma {:induction false} GapsUsed(v: seq<Gap>, poc: int, negative: bool)
    ensures |DeltasOf(v, poc, negative)| == |v|
    ensures forall i :: 0 <= i < |v| ==> DeltasOf(v, poc, negative)[i].used == v[i].used
    decreases |v|
  {
    hide Saturated;
    if v != [] {
      var step := Saturated(v[0].gap + 1);
      GapsUsed(v[1..], Saturated(if negative then poc - step else poc + step), negative);
    }
  }

  lemma {:induction false} FlagsUsed(v: seq<FlagSyntax>)
    ensures forall i :: 0 <= i < |v| ==> FlagsOf(v)[i] == Flag(v[i].used, v[i].used || v[i].useDelta)
  {
    if v != [] {
      FlagsUsed(v[1..]);
    }
  }

  /** What a set keeps of the written flags is what `Used` counts. */
  lemma {:induction false} UsedAsWritten(v: SetSyntax, index: nat, count: nat, sets: seq<ReferenceSet>)
    requires SetOk(v, index, count, sets)
    ensures SetOf(v, index, count, sets).Used() == WrittenUsed(v, index, count, sets)
  {
    hide Derived, Saturated, DeltasOf, UsedIn, Lands, GapsOk, FlagsOk;
    match v
    case Explicit(before, after) =>
      GapsUsed(before, 0, true);
      GapsUsed(after, 0, false);
      UsedIs(DeltasOf(before, 0, true));
      UsedIs(DeltasOf(after, 0, false));
      assert (set i | 0 <= i < |before| && before[i].used)
          == (set i | 0 <= i < |DeltasOf(before, 0, true)| && DeltasOf(before, 0, true)[i].used);
      assert (set i | 0 <= i < |after| && after[i].used)
          == (set i | 0 <= i < |DeltasOf(after, 0, false)| && DeltasOf(after, 0, false)[i].used);
    case Inter(back, negative, size, flags) =>
      InterUsed(sets[index - back - 1], negative, size, flags);
  }

  lemma {:induction false} InterUsed(rps: ReferenceSet, negative: bool, size: nat, flags: seq<FlagSyntax>)
    requires size <= I32_MAX && FlagsOk(flags, rps.Len() + 1)
    ensures var step := Min(size + 1, 0x7FFF_FFFF);
            Derived(rps, if negative then -Saturated(size + 1) else Saturated(size + 1), FlagsOf(flags)).Used()
            == |set j | 0 <= j < |flags| && flags[j].used && Lands(rps, if negative then -step else step, j) != 0|
  {
    hide Derived, Lands, UsedIn, Place;
    var step := Min(size + 1, 0x7FFF_FFFF);
    var delta := if negative then -step else step;
    FlagsUsed(flags);
    DerivedUsed(rps, delta, FlagsOf(flags));
    forall j | 0 <= j < |flags| ensures Lands(rps, delta, j) == Place(rps, j) + delta {
      LandsAt(rps, delta, j);
    }
    assert (set j | 0 <= j < |flags| && flags[j].used && Lands(rps, delta, j) != 0)
        == (set j | 0 <= j <= rps.Len() && FlagsOf(flags)[j].used && Place(rps, j) + delta != 0);
  }

  lemma {:induction false} LandsAt(rps: ReferenceSet, delta: int, j: nat)
    requires j <= rps.Len()
    ensures Lands(rps, delta, j) == Place(rps, j) + delta
  {
  }

  // ----- The pictures a slice may refer to -----

  /** Parameter sets as the parser leaves them: at most 64 sets and 32 long-term pictures. */
  predicate SpsOk(sps: Sps) {
    |sps.referenceSets| <= 64 && |sps.longTermUsed| <= MAX_LONG_TERM_PICTURES
  }

  /** A choice among `n` things: no bits for the only one. */
  function ChoiceWidth(n: nat): nat {
    if n > 1 then CeilLog2(n) else 0
  }

  function ChoiceCode(n: nat, which: nat): seq<bool> {
    Binary(which, ChoiceWidth(n))
  }

  /** The bits of a choice can say any of the `n`, and a few more when `n` is no power of two. */
  lemma {:induction false} ChoiceFits(n: nat)
    requires n <= 64
    ensures ChoiceWidth(n) <= 32 && n <= Pow2(ChoiceWidth(n))
  {
    hide CeilLog2, Pow2;
    if n > 1 {
      CeilLog2Is(n);
      if CeilLog2(n) > 7 {
        Pow2Monotone(8, CeilLog2(n));
        assert Pow2(8) == 0x100 by {
          Pow2Eight();
        }
      }
    } else {
      assert Pow2(0) == 1 by {
        Pow2Zero();
      }
    }
  }

  lemma {:induction false} Pow2Zero()
    ensures Pow2(0) == 1
  {
  }

  lemma {:induction false} ChoiceOn(t: seq<bool>, p: nat, n: nat, which: nat)
    requires n <= 64 && which < Pow2(ChoiceWidth(n)) && On(t, p, ChoiceCode(n, which))
    ensures BitsAt(t, p, ChoiceWidth(n)) == Got(which, p + |ChoiceCode(n, which)|)
  {
    hide CeilLog2, On, Pow2, Binary, BitsAt;
    ChoiceFits(n);
    BitsOn(t, p, ChoiceWidth(n), which);
  }

  lemma {:induction false} Pow2Eight()
    ensures Pow2(8) == 0x100
  {
    assert Pow2(4) == 0x10;
  }

  datatype CurrentSyntax = Listed(index: nat) | Own(syntax: SetSyntax)

  predicate CurrentOk(sps: Sps, v: CurrentSyntax) {
    var count := |sps.referenceSets|;
    match v
    case Listed(index) => index < count
    case Own(syntax) => SetOk(syntax, count, count, sps.referenceSets)
  }

  function CurrentCode(sps: Sps, v: CurrentSyntax): seq<bool> {
    var count := |sps.referenceSets|;
    [v.Listed?] + match v case Listed(index) => ChoiceCode(count, index) case Own(syntax) => SetCode(syntax, count, count)
  }

  function CurrentOf(sps: Sps, v: CurrentSyntax): ReferenceSet
    requires CurrentOk(sps, v)
  {
    var count := |sps.referenceSets|;
    match v
    case Listed(index) => sps.referenceSets[index]
    case Own(syntax) => SetOf(syntax, count, count, sps.referenceSets)
  }

  /** How many of the set's pictures the slice may use, counted on what is written. */
  function CurrentUsed(sps: Sps, v: CurrentSyntax): nat
    requires CurrentOk(sps, v)
  {
    var count := |sps.referenceSets|;
    match v
    case Listed(index) => ListedUsed(sps.referenceSets[index])
    case Own(syntax) => WrittenUsed(syntax, count, count, sps.referenceSets)
  }

  lemma {:induction false} CurrentUses(sps: Sps, v: CurrentSyntax)
    requires CurrentOk(sps, v)
    ensures CurrentOf(sps, v).Used() == CurrentUsed(sps, v)
  {
    hide SetOk, SetOf, WrittenUsed, UsedIn;
    var count := |sps.referenceSets|;
    match v
    case Listed(index) =>
      UsedIs(sps.referenceSets[index].before);
      UsedIs(sps.referenceSets[index].after);
    case Own(syntax) => UsedAsWritten(syntax, count, count, sps.referenceSets);
  }

  lemma {:induction false} CurrentWritten(t: seq<bool>, p: nat, sps: Sps, v: CurrentSyntax)
    requires SpsOk(sps) && CurrentOk(sps, v) && On(t, p, CurrentCode(sps, v))
    ensures CurrentSetAt(t, p, sps) == Got(CurrentOf(sps, v), p + |CurrentCode(sps, v)|)
  {
    hide On, BitReadAt, BitsAt, CeilLog2, SetAt, SetCode, SetOf, SetOk, ChoiceCode, Pow2;
    var count := |sps.referenceSets|;
    var rest := match v case Listed(index) => ChoiceCode(count, index) case Own(syntax) => SetCode(syntax, count, count);
    OnSplit(t, p, [v.Listed?], rest);
    BitOn(t, p, v.Listed?);
    match v
    case Listed(index) =>
      ChoiceFits(count);
      ChoiceOn(t, p + 1, count, index);
    case Own(syntax) => SetWritten(t, p + 1, syntax, count, count, sps.referenceSets);
  }

  datatype LongTermSyntax = LongTermSyntax(which: nat, pocLsb: seq<bool>, used: bool, hasMsb: bool, msb: nat)

  /** The parser takes a choice of none of the listed pictures for a picture that is not used. */
  predicate LongTermOk(sps: Sps, listed: bool, v: LongTermSyntax) {
    && (if listed then v.which < Pow2(ChoiceWidth(|sps.longTermUsed|)) else |v.pocLsb| == sps.log2MaxPocLsb)
    && OptUeOk(v.hasMsb, v.msb)
  }

  function LongTermFront(sps: Sps, listed: bool, v: LongTermSyntax): seq<bool> {
    if listed then ChoiceCode(|sps.longTermUsed|, v.which) else v.pocLsb + [v.used]
  }

  function LongTermUsed(sps: Sps, listed: bool, v: LongTermSyntax): bool {
    if listed then v.which < |sps.longTermUsed| && sps.longTermUsed[v.which] else v.used
  }

  lemma {:induction false} LongTermFrontWritten(t: seq<bool>, p: nat, sps: Sps, listed: bool, v: LongTermSyntax)
    requires SpsOk(sps) && LongTermOk(sps, listed, v) && On(t, p, LongTermFront(sps, listed, v))
    ensures LongTermOneAt(t, p, sps, listed) == Got(LongTermUsed(sps, listed, v), p + |LongTermFront(sps, listed, v)|)
  {
    hide On, BitsAt, SkipAt, BitReadAt, CeilLog2, ChoiceCode, Pow2;
    if listed {
      ChoiceOn(t, p, |sps.longTermUsed|, v.which);
    } else {
      OnSplit(t, p, v.pocLsb, [v.used]);
      SkipOn(t, p, sps.log2MaxPocLsb, v.pocLsb);
      BitOn(t, p + |v.pocLsb|, v.used);
    }
  }

  /** The entries from `index` on; the first `fromSps` are chosen from the parameter set's. */
  function LongTermCode(sps: Sps, v: seq<LongTermSyntax>, index: nat, fromSps: nat): seq<bool>
    decreases |v| - index
  {
    if index >= |v| then []
    else
      LongTermFront(sps, index < fromSps, v[index])
      + ([v[index].hasMsb] + (OptUeCode(v[index].hasMsb, v[index].msb) + LongTermCode(sps, v, index + 1, fromSps)))
  }

  function UsedFrom(sps: Sps, v: seq<LongTermSyntax>, index: nat, fromSps: nat): nat
    decreases |v| - index
  {
    if index >= |v| then 0
    else UsedFrom(sps, v, index + 1, fromSps) + (if LongTermUsed(sps, index < fromSps, v[index]) then 1 else 0)
  }

  predicate LongTermsFit(sps: Sps, v: seq<LongTermSyntax>, fromSps: nat) {
    forall i :: 0 <= i < |v| ==> LongTermOk(sps, i < fromSps, v[i])
  }

  lemma {:induction false} LongTermWritten(t: seq<bool>, p: nat, sps: Sps, v: seq<LongTermSyntax>, index: nat, fromSps: nat)
    requires SpsOk(sps) && LongTermsFit(sps, v, fromSps) && index <= |v| && On(t, p, LongTermCode(sps, v, index, fromSps))
    ensures LongTermAt(t, p, sps, index, |v|, fromSps)
            == Got(UsedFrom(sps, v, index, fromSps), p + |LongTermCode(sps, v, index, fromSps)|)
    decreases |v| - index
  {
    hide On, LongTermOneAt, LongTermFront, LongTermUsed, BitReadAt, OptUeAt, OptUeCode, OptUeOk;
    if index < |v| {
      var x := v[index];
      var c1, c3 := LongTermFront(sps, index < fromSps, x), OptUeCode(x.hasMsb, x.msb);
      OnSplit(t, p, c1, [x.hasMsb] + (c3 + LongTermCode(sps, v, index + 1, fromSps)));
      OnSplit(t, p + |c1|, [x.hasMsb], c3 + LongTermCode(sps, v, index + 1, fromSps));
      OnSplit(t, p + |c1| + 1, c3, LongTermCode(sps, v, index + 1, fromSps));
      LongTermFrontWritten(t, p, sps, index < fromSps, x);
      BitOn(t, p + |c1|, x.hasMsb);
      OptUeOn(t, p + |c1| + 1, x.hasMsb, x.msb);
      LongTermWritten(t, p + |c1| + 1 + |c3|, sps, v, index + 1, fromSps);
    }
  }

  datatype LongTermsSyntax = LongTermsSyntax(fromSps: nat, entries: seq<LongTermSyntax>)

  predicate LongTermsOk(sps: Sps, v: LongTermsSyntax) {
    if !sps.longTermPresent then v == LongTermsSyntax(0, [])
    else
      && v.fromSps <= |v.entries| <= MAX_LONG_TERM_PICTURES && LongTermsFit(sps, v.entries, v.fromSps)
      && OptUeOk(sps.longTermUsed != [], v.fromSps)
  }

  function LongTermsCode(sps: Sps, v: LongTermsSyntax): seq<bool> {
    if !sps.longTermPresent then []
    else
      OptUeCode(sps.longTermUsed != [], v.fromSps)
      + (UeCode(|v.entries| - (if v.fromSps <= |v.entries| then v.fromSps else 0)) + LongTermCode(sps, v.entries, 0, v.fromSps))
  }

  lemma {:induction false} LongTermsWritten(t: seq<bool>, p: nat, sps: Sps, v: LongTermsSyntax)
    requires SpsOk(sps) && LongTermsOk(sps, v) && On(t, p, LongTermsCode(sps, v))
    ensures LongTermsAt(t, p, sps) == Got(UsedFrom(sps, v.entries, 0, v.fromSps), p + |LongTermsCode(sps, v)|)
  {
    hide On, UeAt, UeCode, OptUeAt, OptUeCode, OptUeOk, LongTermAt, LongTermCode, LongTermsFit;
    if sps.longTermPresent {
      var c1, c2 := OptUeCode(sps.longTermUsed != [], v.fromSps), UeCode(|v.entries| - v.fromSps);
      OnSplit(t, p, c1, c2 + LongTermCode(sps, v.entries, 0, v.fromSps));
      OnSplit(t, p + |c1|, c2, LongTermCode(sps, v.entries, 0, v.fromSps));
      OptUeOn(t, p, sps.longTermUsed != [], v.fromSps);
      UeOn(t, p + |c1|, |v.entries| - v.fromSps);
      LongTermWritten(t, p + |c1| + |c2|, sps, v.entries, 0, v.fromSps);
    }
  }

  datatype PicturesSyntax = PicturesSyntax(pocLsb: seq<bool>, current: CurrentSyntax, longTerms: LongTermsSyntax, temporalMvp: bool)

  predicate PicturesOk(sps: Sps, v: PicturesSyntax) {
    && |v.pocLsb| == sps.log2MaxPocLsb && CurrentOk(sps, v.current) && LongTermsOk(sps, v.longTerms)
    && (v.temporalMvp ==> sps.temporalMvp)
  }

  function PicturesCode(sps: Sps, v: PicturesSyntax): seq<bool> {
    v.pocLsb + (CurrentCode(sps, v.current) + (LongTermsCode(sps, v.longTerms) + FlagCode(sps.temporalMvp, v.temporalMvp)))
  }

  function PicturesOf(sps: Sps, v: PicturesSyntax): Pictures
    requires PicturesOk(sps, v)
  {
    Pictures(CurrentUsed(sps, v.current) + UsedFrom(sps, v.longTerms.entries, 0, v.longTerms.fromSps), v.temporalMvp)
  }

  lemma {:induction false} PicturesWritten(t: seq<bool>, p: nat, sps: Sps, v: PicturesSyntax)
    requires SpsOk(sps) && PicturesOk(sps, v) && On(t, p, PicturesCode(sps, v))
    ensures PicturesAt(t, p, sps, false) == Got(PicturesOf(sps, v), p + |PicturesCode(sps, v)|)
  {
    hide On, SkipAt, CurrentSetAt, CurrentCode, CurrentOf, CurrentUsed, CurrentOk, LongTermsAt, LongTermsCode, LongTermsOk, FlagAt, FlagCode, UsedFrom;
    var c2, c3, c4 := CurrentCode(sps, v.current), LongTermsCode(sps, v.longTerms), FlagCode(sps.temporalMvp, v.temporalMvp);
    var p1 := p + |v.pocLsb|;
    OnSplit(t, p, v.pocLsb, c2 + (c3 + c4));
    OnSplit(t, p1, c2, c3 + c4);
    OnSplit(t, p1 + |c2|, c3, c4);
    SkipOn(t, p, sps.log2MaxPocLsb, v.pocLsb);
    CurrentWritten(t, p1, sps, v.current);
    CurrentUses(sps, v.current);
    LongTermsWritten(t, p1 + |c2|, sps, v.longTerms);
    FlagOn(t, p1 + |c2| + |c3|, sps.temporalMvp, v.temporalMvp);
  }

  // ----- Prediction -----

  datatype CountsSyntax = Defaults | Override(l0: nat, l1: nat)

  predicate CountsOk(b: bool, v: CountsSyntax) {
    v.Override? ==> 1 <= v.l0 <= 16 && (if b then 1 <= v.l1 <= 16 else v.l1 == 0)
  }

  function CountsCode(b: bool, v: CountsSyntax): seq<bool> {
    match v
    case Defaults => [false]
    case Override(l0, l1) => [true] + (UeCode(Max(l0, 1) - 1) + (if b then UeCode(Max(l1, 1) - 1) else []))
  }

  function CountsOf(pps: Pps, b: bool, v: CountsSyntax): Counts {
    match v
    case Defaults => Counts(pps.numRefIdxL0Default, pps.numRefIdxL1Default)
    case Override(l0, l1) => Counts(l0, if b then l1 else pps.numRefIdxL1Default)
  }

  lemma {:induction false} CountsWritten(t: seq<bool>, p: nat, pps: Pps, b: bool, v: CountsSyntax)
    requires CountsOk(b, v) && On(t, p, CountsCode(b, v))
    ensures CountsAt(t, p, pps, b) == Got(CountsOf(pps, b, v), p + |CountsCode(b, v)|)
  {
    hide On, UeAt, UeCode, BitReadAt;
    match v
    case Defaults => BitOn(t, p, false);
    case Override(l0, l1) =>
      var c2, c3 := UeCode(l0 - 1), if b then UeCode(l1 - 1) else [];
      OnSplit(t, p, [true], c2 + c3);
      OnSplit(t, p + 1, c2, c3);
      BitOn(t, p, true);
      UeOn(t, p + 1, l0 - 1);
      if b {
        UeOn(t, p + 1 + |c2|, l1 - 1);
      }
  }

  /** A list's changed order: an entry for every active reference. */
  predicate ListOk(present: bool, active: nat, width: nat, v: Option<seq<bool>>) {
    v.Some? ==> present && |v.value| == active * width
  }

  function ListCode(present: bool, v: Option<seq<bool>>): seq<bool> {
    FlagCode(present, v.Some?) + (if v.Some? then v.value else [])
  }

  lemma {:induction false} ListWritten(t: seq<bool>, p: nat, present: bool, active: nat, width: nat, v: Option<seq<bool>>)
    requires ListOk(present, active, width, v) && On(t, p, ListCode(present, v))
    ensures ListAt(t, p, present, active, width) == Got((), p + |ListCode(present, v)|)
  {
    hide On, FlagAt, FlagCode;
    var flag := FlagCode(present, v.Some?);
    OnSplit(t, p, flag, if v.Some? then v.value else []);
    FlagOn(t, p, present, v.Some?);
    if v.Some? {
      SkipsOn(t, p + |flag|, active, width, v.value);
    }
  }

  datatype WeightSyntax = WeightSyntax(luma: seq<int>, chroma: seq<int>)

  /** One list's weights: which references have any, and theirs. */
  datatype ListWeightsSyntax = ListWeightsSyntax(lumaFlags: seq<bool>, chromaFlags: seq<bool>, weights: seq<WeightSyntax>)

  predicate WeightOk(luma: bool, chroma: bool, v: WeightSyntax) {
    SesOk(v.luma, if luma then 2 else 0) && SesOk(v.chroma, if chroma then 4 else 0)
  }

  predicate ListWeightsOk(chroma: bool, count: nat, v: ListWeightsSyntax) {
    && |v.lumaFlags| == count && |v.chromaFlags| == (if chroma then count else 0) && |v.weights| == count
    && forall i :: 0 <= i < count ==> WeightOk(v.lumaFlags[i], chroma && v.chromaFlags[i], v.weights[i])
  }

  function WeightsCode(v: seq<WeightSyntax>, i: nat): seq<bool>
    decreases |v| - i
  {
    if i >= |v| then [] else SesCode(v[i].luma) + (SesCode(v[i].chroma) + WeightsCode(v, i + 1))
  }

  function ListWeightsCode(v: ListWeightsSyntax): seq<bool> {
    v.lumaFlags + (v.chromaFlags + WeightsCode(v.weights, 0))
  }

  lemma {:induction false} WeightsWritten(t: seq<bool>, p: nat, chroma: bool, v: ListWeightsSyntax, i: nat)
    requires ListWeightsOk(chroma, |v.lumaFlags|, v) && i <= |v.lumaFlags| && On(t, p, WeightsCode(v.weights, i))
    ensures WeightsFromAt(t, p, v.lumaFlags, v.chromaFlags, i) == Got((), p + |WeightsCode(v.weights, i)|)
    decreases |v.lumaFlags| - i
  {
    hide On, SesAt, SesCode, SesOk;
    if i < |v.lumaFlags| {
      var c1, c2 := SesCode(v.weights[i].luma), SesCode(v.weights[i].chroma);
      assert WeightOk(v.lumaFlags[i], chroma && v.chromaFlags[i], v.weights[i]);
      OnSplit(t, p, c1, c2 + WeightsCode(v.weights, i + 1));
      OnSplit(t, p + |c1|, c2, WeightsCode(v.weights, i + 1));
      SesOn(t, p, if v.lumaFlags[i] then 2 else 0, v.weights[i].luma);
      SesOn(t, p + |c1|, if chroma && v.chromaFlags[i] then 4 else 0, v.weights[i].chroma);
      WeightsWritten(t, p + |c1| + |c2|, chroma, v, i + 1);
    }
  }

  lemma {:induction false} ListWeightsWritten(t: seq<bool>, p: nat, chroma: bool, count: nat, v: ListWeightsSyntax)
    requires ListWeightsOk(chroma, count, v) && On(t, p, ListWeightsCode(v))
    ensures ListWeightsAt(t, p, chroma, count) == Got((), p + |ListWeightsCode(v)|)
  {
    hide On, SkipAt, WeightsFromAt, WeightsCode;
    var p1 := p + |v.lumaFlags|;
    OnSplit(t, p, v.lumaFlags, v.chromaFlags + WeightsCode(v.weights, 0));
    OnSplit(t, p1, v.chromaFlags, WeightsCode(v.weights, 0));
    SkipOn(t, p, count, v.lumaFlags);
    SkipOn(t, p1, if chroma then count else 0, v.chromaFlags);
    WeightsWritten(t, p1 + |v.chromaFlags|, chroma, v, 0);
  }

  datatype TableSyntax = TableSyntax(lumaDenom: nat, chromaDenom: int, list0: ListWeightsSyntax, list1: ListWeightsSyntax)

  predicate TableOk(chroma: bool, l0: nat, l1: nat, v: TableSyntax) {
    && v.lumaDenom <= UE_MAX && OptSeOk(chroma, v.chromaDenom)
    && ListWeightsOk(chroma, l0, v.list0) && ListWeightsOk(chroma, l1, v.list1)
  }

  function TableCode(chroma: bool, v: TableSyntax): seq<bool> {
    UeCode(v.lumaDenom) + (OptSeCode(chroma, v.chromaDenom) + (ListWeightsCode(v.list0) + ListWeightsCode(v.list1)))
  }

  lemma {:induction false} TableWritten(t: seq<bool>, p: nat, chroma: bool, l0: nat, l1: nat, v: TableSyntax)
    requires TableOk(chroma, l0, l1, v) && On(t, p, TableCode(chroma, v))
    ensures WeightTableAt(t, p, chroma, l0, l1) == Got((), p + |TableCode(chroma, v)|)
  {
    hide On, UeAt, UeCode, OptSeAt, OptSeCode, OptSeOk, ListWeightsAt, ListWeightsCode, ListWeightsOk;
    var c1, c2, c3 := UeCode(v.lumaDenom), OptSeCode(chroma, v.chromaDenom), ListWeightsCode(v.list0);
    OnSplit(t, p, c1, c2 + (c3 + ListWeightsCode(v.list1)));
    OnSplit(t, p + |c1|, c2, c3 + ListWeightsCode(v.list1));
    OnSplit(t, p + |c1| + |c2|, c3, ListWeightsCode(v.list1));
    UeOn(t, p, v.lumaDenom);
    OptSeOn(t, p + |c1|, chroma, v.chromaDenom);
    ListWeightsWritten(t, p + |c1| + |c2|, chroma, l0, v.list0);
    ListWeightsWritten(t, p + |c1| + |c2| + |c3|, chroma, l1, v.list1);
  }

  datatype CollocatedSyntax = CollocatedSyntax(fromL0: bool, index: nat)

  /** Whether the collocated picture's list has others to choose from. */
  predicate HasIndex(b: bool, counts: Counts, v: CollocatedSyntax) {
    if v.fromL0 || !b then counts.l0 > 1 else counts.l1 > 1
  }

  predicate CollocatedOk(present: bool, b: bool, counts: Counts, v: CollocatedSyntax) {
    if !present then v == CollocatedSyntax(false, 0)
    else (v.fromL0 ==> b) && OptUeOk(HasIndex(b, counts, v), v.index)
  }

  function CollocatedCode(present: bool, b: bool, counts: Counts, v: CollocatedSyntax): seq<bool> {
    if !present then [] else FlagCode(b, v.fromL0) + OptUeCode(HasIndex(b, counts, v), v.index)
  }

  lemma {:induction false} CollocatedWritten(t: seq<bool>, p: nat, present: bool, b: bool, counts: Counts, v: CollocatedSyntax)
    requires CollocatedOk(present, b, counts, v) && On(t, p, CollocatedCode(present, b, counts, v))
    ensures CollocatedAt(t, p, present, b, counts) == Got((), p + |CollocatedCode(present, b, counts, v)|)
  {
    hide On, FlagAt, FlagCode, OptUeAt, OptUeCode, OptUeOk;
    if present {
      var c1 := FlagCode(b, v.fromL0);
      OnSplit(t, p, c1, OptUeCode(HasIndex(b, counts, v), v.index));
      FlagOn(t, p, b, v.fromL0);
      OptUeOn(t, p + |c1|, HasIndex(b, counts, v), v.index);
    }
  }

  datatype PredictionSyntax = PredictionSyntax(
    counts: CountsSyntax, list0: Option<seq<bool>>, list1: Option<seq<bool>>, mvdL1Zero: seq<bool>, cabacInit: seq<bool>,
    collocated: CollocatedSyntax, table: Option<TableSyntax>, mergeCandidates: nat)

  predicate HasTable(pps: Pps, b: bool) {
    (pps.weightedPred && !b) || (pps.weightedBipred && b)
  }

  predicate MergeOk(sps: Sps, pps: Pps, b: bool, counts: Counts, v: PredictionSyntax) {
    && v.mergeCandidates <= UE_MAX && (v.table.Some? <==> HasTable(pps, b))
    && (v.table.Some? ==> TableOk(sps.chromaArrayType != 0, counts.l0, if b then counts.l1 else 0, v.table.value))
  }

  function MergeCode(sps: Sps, v: PredictionSyntax): seq<bool> {
    (if v.table.Some? then TableCode(sps.chromaArrayType != 0, v.table.value) else []) + UeCode(v.mergeCandidates)
  }

  lemma {:induction false} MergeWritten(t: seq<bool>, p: nat, sps: Sps, pps: Pps, b: bool, counts: Counts, v: PredictionSyntax)
    requires MergeOk(sps, pps, b, counts, v) && On(t, p, MergeCode(sps, v))
    ensures MergeAt(t, p, sps, pps, b, counts) == Got((), p + |MergeCode(sps, v)|)
  {
    hide On, UeAt, UeCode, WeightTableAt, TableCode, TableOk;
    var c1 := if v.table.Some? then TableCode(sps.chromaArrayType != 0, v.table.value) else [];
    OnSplit(t, p, c1, UeCode(v.mergeCandidates));
    if v.table.Some? {
      TableWritten(t, p, sps.chromaArrayType != 0, counts.l0, if b then counts.l1 else 0, v.table.value);
    }
    UeOn(t, p + |c1|, v.mergeCandidates);
  }

  predicate ListsOk(pps: Pps, b: bool, total: nat, counts: Counts, v: PredictionSyntax) {
    var present := pps.listsModificationPresent && total > 1;
    ListOk(present, counts.l0, CeilLog2(total), v.list0) && ListOk(present && b, counts.l1, CeilLog2(total), v.list1)
  }

  function ListsCode(pps: Pps, b: bool, total: nat, v: PredictionSyntax): seq<bool> {
    var present := pps.listsModificationPresent && total > 1;
    ListCode(present, v.list0) + ListCode(present && b, v.list1)
  }

  lemma {:induction false} ListsWritten(t: seq<bool>, p: nat, pps: Pps, b: bool, total: nat, counts: Counts, v: PredictionSyntax)
    requires ListsOk(pps, b, total, counts, v) && On(t, p, ListsCode(pps, b, total, v))
    ensures ListsAt(t, p, pps, b, total, counts) == Got((), p + |ListsCode(pps, b, total, v)|)
  {
    hide On, ListAt, ListCode, ListOk, CeilLog2;
    var present := pps.listsModificationPresent && total > 1;
    OnSplit(t, p, ListCode(present, v.list0), ListCode(present && b, v.list1));
    ListWritten(t, p, present, counts.l0, CeilLog2(total), v.list0);
    ListWritten(t, p + |ListCode(present, v.list0)|, present && b, counts.l1, CeilLog2(total), v.list1);
  }

  predicate PredictionOk(sps: Sps, pps: Pps, b: bool, pictures: Pictures, v: PredictionSyntax) {
    var counts := CountsOf(pps, b, v.counts);
    && CountsOk(b, v.counts) && ListsOk(pps, b, pictures.total, counts, v)
    && |v.mvdL1Zero| == (if b then 1 else 0) && |v.cabacInit| == (if pps.cabacInitPresent then 1 else 0)
    && CollocatedOk(pictures.temporalMvp, b, counts, v.collocated) && MergeOk(sps, pps, b, counts, v)
  }

  function PredictionCode(sps: Sps, pps: Pps, b: bool, pictures: Pictures, v: PredictionSyntax): seq<bool> {
    CountsCode(b, v.counts)
    + (ListsCode(pps, b, pictures.total, v)
       + (v.mvdL1Zero + (v.cabacInit + (CollocatedCode(pictures.temporalMvp, b, CountsOf(pps, b, v.counts), v.collocated)
                                        + MergeCode(sps, v)))))
  }

  lemma {:induction false} PredictionWritten(t: seq<bool>, p: nat, sps: Sps, pps: Pps, b: bool, pictures: Pictures, v: PredictionSyntax)
    requires PredictionOk(sps, pps, b, pictures, v) && On(t, p, PredictionCode(sps, pps, b, pictures, v))
    ensures PredictionAt(t, p, sps, pps, b, pictures) == Got((), p + |PredictionCode(sps, pps, b, pictures, v)|)
  {
    hide On, SkipAt, CountsAt, CountsCode, CountsOk, CountsOf, ListsAt, ListsCode, ListsOk, CollocatedAt, CollocatedCode, CollocatedOk,
      MergeAt, MergeCode, MergeOk;
    var counts := CountsOf(pps, b, v.counts);
    var c1, c2 := CountsCode(b, v.counts), ListsCode(pps, b, pictures.total, v);
    var c5, c6 := CollocatedCode(pictures.temporalMvp, b, counts, v.collocated), MergeCode(sps, v);
    var p1 := p + |c1|;
    var p2 := p1 + |c2|;
    var p3 := p2 + |v.mvdL1Zero|;
    var p4 := p3 + |v.cabacInit|;
    OnSplit(t, p, c1, c2 + (v.mvdL1Zero + (v.cabacInit + (c5 + c6))));
    OnSplit(t, p1, c2, v.mvdL1Zero + (v.cabacInit + (c5 + c6)));
    OnSplit(t, p2, v.mvdL1Zero, v.cabacInit + (c5 + c6));
    OnSplit(t, p3, v.cabacInit, c5 + c6);
    OnSplit(t, p4, c5, c6);
    CountsWritten(t, p, pps, b, v.counts);
    ListsWritten(t, p1, pps, b, pictures.total, counts, v);
    SkipOn(t, p2, if b then 1 else 0, v.mvdL1Zero);
    SkipOn(t, p3, if pps.cabacInitPresent then 1 else 0, v.cabacInit);
    CollocatedWritten(t, p4, pictures.temporalMvp, b, counts, v.collocated);
    MergeWritten(t, p4 + |c5|, sps, pps, b, counts, v);
  }

  // ----- The other fields -----

  datatype EndSyntax = EndSyntax(
    qpDelta: int, chromaQp: seq<int>, cuChromaQp: seq<bool>, override: bool, disable: bool, offsets: seq<int>, acrossSlices: seq<bool>)

  predicate Disabled(pps: Pps, v: EndSyntax) {
    if v.override then v.disable else pps.deblockingDisabled
  }

  predicate FiltersOk(pps: Pps, sao: bool, v: EndSyntax) {
    && (v.override ==> pps.deblockingOverrideEnabled) && (v.disable ==> v.override)
    && SesOk(v.offsets, if v.override && !Disabled(pps, v) then 2 else 0)
    && |v.acrossSlices| == (if pps.loopFilterAcrossSlices && (sao || !Disabled(pps, v)) then 1 else 0)
  }

  function FiltersCode(pps: Pps, v: EndSyntax): seq<bool> {
    FlagCode(pps.deblockingOverrideEnabled, v.override) + (FlagCode(v.override, v.disable) + (SesCode(v.offsets) + v.acrossSlices))
  }

  lemma {:induction false} FiltersWritten(t: seq<bool>, p: nat, pps: Pps, sao: bool, v: EndSyntax)
    requires FiltersOk(pps, sao, v) && On(t, p, FiltersCode(pps, v))
    ensures FiltersAt(t, p, pps, sao) == Got((), p + |FiltersCode(pps, v)|)
  {
    hide On, FlagAt, FlagCode, SesAt, SesCode, SesOk, SkipAt;
    var c1, c2, c3 := FlagCode(pps.deblockingOverrideEnabled, v.override), FlagCode(v.override, v.disable), SesCode(v.offsets);
    var p2 := p + |c1| + |c2|;
    OnSplit(t, p, c1, c2 + (c3 + v.acrossSlices));
    OnSplit(t, p + |c1|, c2, c3 + v.acrossSlices);
    OnSplit(t, p2, c3, v.acrossSlices);
    FlagOn(t, p, pps.deblockingOverrideEnabled, v.override);
    FlagOn(t, p + |c1|, v.override, v.disable);
    SesOn(t, p2, if v.override && !Disabled(pps, v) then 2 else 0, v.offsets);
    SkipOn(t, p2 + |c3|, if pps.loopFilterAcrossSlices && (sao || !Disabled(pps, v)) then 1 else 0, v.acrossSlices);
  }

  predicate EndOk(pps: Pps, sao: bool, v: EndSyntax) {
    && -SE_MAX <= v.qpDelta <= SE_MAX && SesOk(v.chromaQp, if pps.sliceChromaQpOffsetsPresent then 2 else 0)
    && |v.cuChromaQp| == (if pps.chromaQpOffsetListEnabled then 1 else 0) && FiltersOk(pps, sao, v)
  }

  function EndCode(pps: Pps, v: EndSyntax): seq<bool> {
    SeCode(v.qpDelta) + (SesCode(v.chromaQp) + (v.cuChromaQp + FiltersCode(pps, v)))
  }

  lemma {:induction false} EndWritten(t: seq<bool>, p: nat, pps: Pps, sao: bool, v: EndSyntax)
    requires EndOk(pps, sao, v) && On(t, p, EndCode(pps, v))
    ensures EndAt(t, p, pps, sao) == Got((), p + |EndCode(pps, v)|)
  {
    hide On, SeAt, SeCode, SesAt, SesCode, SesOk, SkipAt, FiltersAt, FiltersCode, FiltersOk;
    var c1, c2 := SeCode(v.qpDelta), SesCode(v.chromaQp);
    var p2 := p + |c1| + |c2|;
    OnSplit(t, p, c1, c2 + (v.cuChromaQp + FiltersCode(pps, v)));
    OnSplit(t, p + |c1|, c2, v.cuChromaQp + FiltersCode(pps, v));
    OnSplit(t, p2, v.cuChromaQp, FiltersCode(pps, v));
    SeOn(t, p, v.qpDelta);
    SesOn(t, p + |c1|, if pps.sliceChromaQpOffsetsPresent then 2 else 0, v.chromaQp);
    SkipOn(t, p2, if pps.chromaQpOffsetListEnabled then 1 else 0, v.cuChromaQp);
    FiltersWritten(t, p2 + |v.cuChromaQp|, pps, sao, v);
  }

  datatype SliceSyntax = SliceSyntax(
    extra: seq<bool>, sliceType: nat, output: seq<bool>, colourPlane: seq<bool>, pictures: Option<PicturesSyntax>,
    saoLuma: bool, saoChroma: bool, prediction: Option<PredictionSyntax>, end: EndSyntax)

  predicate SliceTypeOk(sps: Sps, pps: Pps, v: SliceSyntax) {
    && |v.extra| == pps.extraSliceHeaderBits && v.sliceType <= 2 && |v.output| == (if pps.outputFlagPresent then 1 else 0)
    && |v.colourPlane| == (if sps.separateColourPlane then 2 else 0)
  }

  function SliceTypeCode(v: SliceSyntax): seq<bool> {
    v.extra + (UeCode(v.sliceType) + (v.output + v.colourPlane))
  }

  lemma {:induction false} SliceTypeWritten(t: seq<bool>, p: nat, sps: Sps, pps: Pps, v: SliceSyntax)
    requires SliceTypeOk(sps, pps, v) && On(t, p, SliceTypeCode(v))
    ensures SliceTypeAt(t, p, sps, pps) == Got(v.sliceType, p + |SliceTypeCode(v)|)
  {
    hide On, SkipAt, UeAt, UeCode;
    var p1 := p + |v.extra|;
    var p2 := p1 + |UeCode(v.sliceType)|;
    OnSplit(t, p, v.extra, UeCode(v.sliceType) + (v.output + v.colourPlane));
    OnSplit(t, p1, UeCode(v.sliceType), v.output + v.colourPlane);
    OnSplit(t, p2, v.output, v.colourPlane);
    SkipOn(t, p, pps.extraSliceHeaderBits, v.extra);
    UeOn(t, p1, v.sliceType);
    SkipOn(t, p2, if pps.outputFlagPresent then 1 else 0, v.output);
    SkipOn(t, p2 + |v.output|, if sps.separateColourPlane then 2 else 0, v.colourPlane);
  }

  predicate SaoOk(sps: Sps, v: SliceSyntax) {
    (v.saoLuma ==> sps.sampleAdaptiveOffset) && (v.saoChroma ==> sps.sampleAdaptiveOffset && sps.chromaArrayType != 0)
  }

  function SaoCode(sps: Sps, v: SliceSyntax): seq<bool> {
    FlagCode(sps.sampleAdaptiveOffset, v.saoLuma) + FlagCode(sps.sampleAdaptiveOffset && sps.chromaArrayType != 0, v.saoChroma)
  }

  lemma {:induction false} SaoWritten(t: seq<bool>, p: nat, sps: Sps, v: SliceSyntax)
    requires SaoOk(sps, v) && On(t, p, SaoCode(sps, v))
    ensures SaoAt(t, p, sps) == Got(v.saoLuma || v.saoChroma, p + |SaoCode(sps, v)|)
  {
    hide On, FlagAt, FlagCode;
    var c1 := FlagCode(sps.sampleAdaptiveOffset, v.saoLuma);
    OnSplit(t, p, c1, FlagCode(sps.sampleAdaptiveOffset && sps.chromaArrayType != 0, v.saoChroma));
    FlagOn(t, p, sps.sampleAdaptiveOffset, v.saoLuma);
    FlagOn(t, p + |c1|, sps.sampleAdaptiveOffset && sps.chromaArrayType != 0, v.saoChroma);
  }

  /** What a slice may refer to: nothing for an IDR picture. */
  predicate ReferencesOk(sps: Sps, idr: bool, v: SliceSyntax) {
    (v.pictures.Some? <==> !idr) && (v.pictures.Some? ==> PicturesOk(sps, v.pictures.value))
  }

  function ReferencesOf(sps: Sps, idr: bool, v: SliceSyntax): Pictures
    requires ReferencesOk(sps, idr, v)
  {
    match v.pictures case None => Pictures(0, false) case Some(pictures) => PicturesOf(sps, pictures)
  }

  function ReferencesCode(sps: Sps, v: SliceSyntax): seq<bool> {
    match v.pictures case None => [] case Some(pictures) => PicturesCode(sps, pictures)
  }

  lemma {:induction false} ReferencesWritten(t: seq<bool>, p: nat, sps: Sps, idr: bool, v: SliceSyntax)
    requires SpsOk(sps) && ReferencesOk(sps, idr, v) && On(t, p, ReferencesCode(sps, v))
    ensures PicturesAt(t, p, sps, idr) == Got(ReferencesOf(sps, idr, v), p + |ReferencesCode(sps, v)|)
  {
    hide On, PicturesOk, PicturesCode, PicturesOf;
    if !idr {
      PicturesWritten(t, p, sps, v.pictures.value);
    }
  }

  predicate SliceOk(sps: Sps, pps: Pps, idr: bool, v: SliceSyntax) {
    && SliceTypeOk(sps, pps, v) && ReferencesOk(sps, idr, v) && SaoOk(sps, v) && EndOk(pps, v.saoLuma || v.saoChroma, v.end)
    && (v.prediction.Some? <==> v.sliceType <= 1)
    && (v.prediction.Some? ==> PredictionOk(sps, pps, v.sliceType == 0, ReferencesOf(sps, idr, v), v.prediction.value))
  }

  function SliceCode(sps: Sps, pps: Pps, idr: bool, v: SliceSyntax): seq<bool>
    requires SliceOk(sps, pps, idr, v)
  {
    SliceTypeCode(v)
    + (ReferencesCode(sps, v)
       + (SaoCode(sps, v)
          + ((match v.prediction
              case None => []
              case Some(prediction) => PredictionCode(sps, pps, v.sliceType == 0, ReferencesOf(sps, idr, v), prediction))
             + EndCode(pps, v.end))))
  }

  lemma {:induction false} SliceWritten(t: seq<bool>, p: nat, sps: Sps, pps: Pps, idr: bool, v: SliceSyntax)
    requires SpsOk(sps) && SliceOk(sps, pps, idr, v) && On(t, p, SliceCode(sps, pps, idr, v))
    ensures SliceFieldsAt(t, p, sps, pps, idr) == Got((), p + |SliceCode(sps, pps, idr, v)|)
  {
    hide On, SliceTypeAt, SliceTypeCode, SliceTypeOk, PicturesAt, ReferencesCode, ReferencesOk, ReferencesOf, SaoAt, SaoCode, SaoOk,
      PredictionAt, PredictionCode, PredictionOk, EndAt, EndCode, EndOk, SpsOk;
    var pictures := ReferencesOf(sps, idr, v);
    var c1, c2, c3 := SliceTypeCode(v), ReferencesCode(sps, v), SaoCode(sps, v);
    var c4 := match v.prediction
      case None => []
      case Some(prediction) => PredictionCode(sps, pps, v.sliceType == 0, pictures, prediction);
    var c5 := EndCode(pps, v.end);
    var p1 := p + |c1|;
    var p2 := p1 + |c2|;
    var p3 := p2 + |c3|;
    OnSplit(t, p, c1, c2 + (c3 + (c4 + c5)));
    OnSplit(t, p1, c2, c3 + (c4 + c5));
    OnSplit(t, p2, c3, c4 + c5);
    OnSplit(t, p3, c4, c5);
    SliceTypeWritten(t, p, sps, pps, v);
    ReferencesWritten(t, p1, sps, idr, v);
    SaoWritten(t, p2, sps, v);
    if v.prediction.Some? {
      PredictionWritten(t, p3, sps, pps, v.sliceType == 0, pictures, v.prediction.value);
    }
    EndWritten(t, p3 + |c4|, pps, v.saoLuma || v.saoChroma, v.end);
  }

  // ----- The whole header -----

  datatype StartSyntax = StartSyntax(
    forbiddenZero: seq<bool>, nalType: nat, temporalId: seq<bool>, firstSegment: bool, noOutput: seq<bool>, ppsId: nat)

  predicate StartOk(v: StartSyntax) {
    && |v.forbiddenZero| == 1 && v.nalType < Pow2(6) && IsSliceType(v.nalType) && |v.temporalId| == 3
    && |v.noOutput| == (if 16 <= v.nalType <= 23 then 1 else 0) && v.ppsId <= UE_MAX
  }

  /** In the base layer: its six bits are zero. */
  function StartCode(v: StartSyntax): seq<bool> {
    v.forbiddenZero
    + (Binary(v.nalType, 6) + (Binary(0, 6) + (v.temporalId + ([v.firstSegment] + (v.noOutput + UeCode(v.ppsId))))))
  }

  lemma {:induction false} StartWritten(t: seq<bool>, p: nat, v: StartSyntax)
    requires StartOk(v) && On(t, p, StartCode(v))
    ensures StartAt(t, p) == Got(Start(v.nalType, v.firstSegment, v.ppsId), p + |StartCode(v)|)
  {
    hide On, SkipAt, BitsAt, BitReadAt, UeAt, UeCode, Binary, Pow2;
    var c2, c3, c7 := Binary(v.nalType, 6), Binary(0, 6), UeCode(v.ppsId);
    var rest4 := v.temporalId + ([v.firstSegment] + (v.noOutput + c7));
    OnSplit(t, p, v.forbiddenZero, c2 + (c3 + rest4));
    OnSplit(t, p + 1, c2, c3 + rest4);
    OnSplit(t, p + 7, c3, rest4);
    OnSplit(t, p + 13, v.temporalId, [v.firstSegment] + (v.noOutput + c7));
    OnSplit(t, p + 16, [v.firstSegment], v.noOutput + c7);
    OnSplit(t, p + 17, v.noOutput, c7);
    SkipOn(t, p, 1, v.forbiddenZero);
    BitsOn(t, p + 1, 6, v.nalType);
    BitsOn(t, p + 7, 6, 0);
    SkipOn(t, p + 13, 3, v.temporalId);
    BitOn(t, p + 16, v.firstSegment);
    SkipOn(t, p + 17, if 16 <= v.nalType <= 23 then 1 else 0, v.noOutput);
    UeOn(t, p + 17 + |v.noOutput|, v.ppsId);
  }

  datatype TrailSyntax = TrailSyntax(entryPoints: nat, offsetLength: nat, offsets: seq<bool>, extensionLength: nat, extension: seq<bool>)

  predicate TrailOk(pps: Pps, v: TrailSyntax) {
    && OptUeOk(pps.entryPoints, v.entryPoints) && OptUeOk(v.entryPoints > 0, v.offsetLength) && v.offsetLength <= 31
    && |v.offsets| == v.entryPoints * (v.offsetLength + 1)
    && OptUeOk(pps.headerExtensionPresent, v.extensionLength) && |v.extension| == v.extensionLength * 8
  }

  function EntryPointsCode(pps: Pps, v: TrailSyntax): seq<bool> {
    OptUeCode(pps.entryPoints, v.entryPoints) + (OptUeCode(v.entryPoints > 0, v.offsetLength) + v.offsets)
  }

  function TrailCode(pps: Pps, v: TrailSyntax): seq<bool> {
    EntryPointsCode(pps, v) + (OptUeCode(pps.headerExtensionPresent, v.extensionLength) + v.extension)
  }

  lemma {:induction false} EntryPointsWritten(t: seq<bool>, p: nat, pps: Pps, v: TrailSyntax)
    requires TrailOk(pps, v) && On(t, p, EntryPointsCode(pps, v))
    ensures EntryPointsAt(t, p, pps.entryPoints) == Got((), p + |EntryPointsCode(pps, v)|)
  {
    hide On, UeAt, UeCode;
    var c1, c2 := OptUeCode(pps.entryPoints, v.entryPoints), OptUeCode(v.entryPoints > 0, v.offsetLength);
    OnSplit(t, p, c1, c2 + v.offsets);
    OnSplit(t, p + |c1|, c2, v.offsets);
    OptUeOn(t, p, pps.entryPoints, v.entryPoints);
    if v.entryPoints > 0 {
      UeOn(t, p + |c1|, v.offsetLength);
      SkipsOn(t, p + |c1| + |c2|, v.entryPoints, v.offsetLength + 1, v.offsets);
    }
  }

  lemma {:induction false} TrailWritten(t: seq<bool>, p: nat, pps: Pps, v: TrailSyntax)
    requires TrailOk(pps, v) && On(t, p, TrailCode(pps, v))
    ensures TrailAt(t, p, pps) == Got((), p + |TrailCode(pps, v)|)
  {
    hide On, EntryPointsAt, EntryPointsCode, OptUeAt, OptUeCode, SkipAt;
    var c1, c2 := EntryPointsCode(pps, v), OptUeCode(pps.headerExtensionPresent, v.extensionLength);
    OnSplit(t, p, c1, c2 + v.extension);
    OnSplit(t, p + |c1|, c2, v.extension);
    EntryPointsWritten(t, p, pps, v);
    OptUeOn(t, p + |c1|, pps.headerExtensionPresent, v.extensionLength);
    SkipOn(t, p + |c1| + |c2|, v.extensionLength * 8, v.extension);
  }

  /** A slice segment header; a dependent segment has no slice fields of its own. */
  datatype HeaderSyntax = HeaderSyntax(start: StartSyntax, dependent: bool, address: seq<bool>, slice: Option<SliceSyntax>, trail: TrailSyntax)

  predicate Idr(v: HeaderSyntax) {
    v.start.nalType == 19 || v.start.nalType == 20
  }

  predicate SegmentOk(sps: Sps, pps: Pps, v: HeaderSyntax) {
    && (v.dependent ==> !v.start.firstSegment && pps.dependentSliceSegments)
    && |v.address| == (if v.start.firstSegment then 0 else CeilLog2(sps.picSizeInCtbs))
    && (v.slice.Some? <==> !v.dependent) && (v.slice.Some? ==> SliceOk(sps, pps, Idr(v), v.slice.value))
    && TrailOk(pps, v.trail)
  }

  function SegmentCode(sps: Sps, pps: Pps, v: HeaderSyntax): seq<bool>
    requires SegmentOk(sps, pps, v)
  {
    FlagCode(!v.start.firstSegment && pps.dependentSliceSegments, v.dependent)
    + (v.address + ((match v.slice case None => [] case Some(slice) => SliceCode(sps, pps, Idr(v), slice)) + TrailCode(pps, v.trail)))
  }

  lemma {:induction false} SegmentWritten(t: seq<bool>, p: nat, sps: Sps, pps: Pps, v: HeaderSyntax)
    requires SpsOk(sps) && SegmentOk(sps, pps, v) && On(t, p, SegmentCode(sps, pps, v))
    ensures BodyAt(t, p, sps, pps, Start(v.start.nalType, v.start.firstSegment, v.start.ppsId))
            == Got((), p + |SegmentCode(sps, pps, v)|)
  {
    hide On, FlagAt, FlagCode, SkipAt, SliceFieldsAt, SliceCode, SliceOk, TrailAt, TrailCode, TrailOk, CeilLog2, SpsOk;
    var c1 := FlagCode(!v.start.firstSegment && pps.dependentSliceSegments, v.dependent);
    var c3 := match v.slice case None => [] case Some(slice) => SliceCode(sps, pps, Idr(v), slice);
    var c4 := TrailCode(pps, v.trail);
    var p2 := p + |c1| + |v.address|;
    OnSplit(t, p, c1, v.address + (c3 + c4));
    OnSplit(t, p + |c1|, v.address, c3 + c4);
    OnSplit(t, p2, c3, c4);
    FlagOn(t, p, !v.start.firstSegment && pps.dependentSliceSegments, v.dependent);
    SkipOn(t, p + |c1|, if v.start.firstSegment then 0 else CeilLog2(sps.picSizeInCtbs), v.address);
    if v.slice.Some? {
      SliceWritten(t, p2, sps, pps, Idr(v), v.slice.value);
    }
    TrailWritten(t, p2 + |c3|, pps, v.trail);
  }

  /** A header of section 7.3.6.1 under these parameter sets. */
  predicate HeaderOk(ps: Parameters, v: HeaderSyntax) {
    && StartOk(v.start) && SetsOf(ps, v.start.ppsId).Some?
    && var (sps, pps) := SetsOf(ps, v.start.ppsId).value; SpsOk(sps) && SegmentOk(sps, pps, v)
  }

  function HeaderCode(ps: Parameters, v: HeaderSyntax): seq<bool>
    requires HeaderOk(ps, v)
  {
    var (sps, pps) := SetsOf(ps, v.start.ppsId).value;
    StartCode(v.start) + SegmentCode(sps, pps, v)
  }

  /** Whatever header is written, under any parameter sets and before any bits, the parser stops exactly at its end. */
  lemma {:induction false} HeaderWritten(t: seq<bool>, ps: Parameters, v: HeaderSyntax)
    requires HeaderOk(ps, v) && On(t, 0, HeaderCode(ps, v))
    ensures HeaderAt(t, ps) == Got((), |HeaderCode(ps, v)|)
  {
    hide On, StartAt, StartCode, StartOk, BodyAt, SegmentCode, SegmentOk, SpsOk;
    var (sps, pps) := SetsOf(ps, v.start.ppsId).value;
    OnSplit(t, 0, StartCode(v.start), SegmentCode(sps, pps, v));
    StartWritten(t, 0, v.start);
    SegmentWritten(t, |StartCode(v.start)|, sps, pps, v);
  }
}
