/**
 The other half of reading H.265 slice segment headers: whatever the parser takes for a header is one
 that section 7.3.6.1 of ITU-T H.265 writes, and its clear bytes are that header's.
 */
module HevcExact {
  import opened Common
  import opened Bits
  import opened Syntax
  import opened ReferenceSets
  import opened Hevc
  import opened HevcPrinter

  // ----- What is read was written: single elements -----

  /** `code` lies on the tape from `p` up to `at`. */
  ghost predicate Spans(t: seq<bool>, p: nat, code: seq<bool>, at: nat) {
    On(t, p, code) && at == p + |code| && at <= |t|
  }

  lemma {:induction false} Join(t: seq<bool>, p: nat, a: seq<bool>, m: nat, b: seq<bool>, at: nat)
    requires Spans(t, p, a, m) && Spans(t, m, b, at)
    ensures Spans(t, p, a + b, at)
  {
    hide On;
    OnSplit(t, p, a, b);
  }

  lemma {:induction false} NothingThere(t: seq<bool>, p: nat)
    requires p <= |t|
    ensures Spans(t, p, [], p)
  {
  }

  lemma {:induction false} SkipParsed(t: seq<bool>, p: nat, n: nat)
    requires SkipAt(t, p, n).Got?
    ensures Spans(t, p, SkipAt(t, p, n).value, SkipAt(t, p, n).at)
  {
    SkipExact(t, p, n, SkipAt(t, p, n).value);
  }

  lemma {:induction false} BitParsed(t: seq<bool>, p: nat)
    requires BitReadAt(t, p).Got?
    ensures Spans(t, p, [BitReadAt(t, p).value], BitReadAt(t, p).at)
  {
    BitExact(t, p, BitReadAt(t, p).value);
  }

  lemma {:induction false} BitsParsed(t: seq<bool>, p: nat, count: nat)
    requires count <= 32 && BitsAt(t, p, count).Got?
    ensures BitsAt(t, p, count).value < Pow2(count)
    ensures Spans(t, p, Binary(BitsAt(t, p, count).value, count), BitsAt(t, p, count).at)
  {
    hide BitsAt, Binary, Pow2;
    BitsExact(t, p, count, BitsAt(t, p, count).value);
  }

  lemma {:induction false} UeParsed(t: seq<bool>, p: nat)
    requires UeAt(t, p).Got?
    ensures UeAt(t, p).value <= UE_MAX && Spans(t, p, UeCode(UeAt(t, p).value), UeAt(t, p).at)
  {
    hide UeAt, UeCode;
    UeExact(t, p, UeAt(t, p).value);
  }

  lemma {:induction false} SeParsed(t: seq<bool>, p: nat)
    requires SeAt(t, p).Got?
    ensures -SE_MAX <= SeAt(t, p).value <= SE_MAX && Spans(t, p, SeCode(SeAt(t, p).value), SeAt(t, p).at)
  {
    hide SeAt, SeCode;
    SeExact(t, p, SeAt(t, p).value);
  }

  lemma {:induction false} FlagParsed(t: seq<bool>, p: nat, present: bool)
    requires p <= |t| && FlagAt(t, p, present).Got?
    ensures var r := FlagAt(t, p, present); (r.value ==> present) && Spans(t, p, FlagCode(present, r.value), r.at)
  {
    FlagExact(t, p, present, FlagAt(t, p, present).value);
  }

  lemma {:induction false} OptUeParsed(t: seq<bool>, p: nat, present: bool)
    requires p <= |t| && OptUeAt(t, p, present).Got?
    ensures var r := OptUeAt(t, p, present); OptUeOk(present, r.value) && Spans(t, p, OptUeCode(present, r.value), r.at)
  {
    hide OptUeAt, OptUeCode;
    OptUeExact(t, p, present, OptUeAt(t, p, present).value);
  }

  lemma {:induction false} OptSeParsed(t: seq<bool>, p: nat, present: bool)
    requires p <= |t| && OptSeAt(t, p, present).Got?
    ensures var r := OptSeAt(t, p, present); OptSeOk(present, r.value) && Spans(t, p, OptSeCode(present, r.value), r.at)
  {
    hide OptSeAt, OptSeCode;
    OptSeExact(t, p, present, OptSeAt(t, p, present).value);
  }

  lemma {:induction false} SesParsed(t: seq<bool>, p: nat, n: nat)
    requires p <= |t| && SesAt(t, p, n).Got?
    ensures var r := SesAt(t, p, n); SesOk(r.value, n) && Spans(t, p, SesCode(r.value), r.at)
  {
    hide SesAt, SesCode;
    SesExact(t, p, n, SesAt(t, p, n).value);
  }

  lemma {:induction false} SkipsParsed(t: seq<bool>, p: nat, count: nat, width: nat) returns (v: seq<bool>)
    requires p <= |t| && SkipsAt(t, p, count, width).Got?
    ensures |v| == count * width && Spans(t, p, v, SkipsAt(t, p, count, width).at)
    decreases count
  {
    if count == 0 {
      v := [];
      NothingThere(t, p);
    } else {
      var first := SkipAt(t, p, width);
      SkipParsed(t, p, width);
      var rest := SkipsParsed(t, first.at, count - 1, width);
      v := first.value + rest;
      Join(t, p, first.value, first.at, rest, SkipsAt(t, first.at, count - 1, width).at);
      assert count * width == width + (count - 1) * width;
    }
  }

  // ----- Reference picture sets -----

  lemma {:induction false} GapsParsed(t: seq<bool>, p: nat, n: nat, poc: int, negative: bool) returns (v: seq<Gap>)
    requires p <= |t| && n <= MAX_REFERENCES_PER_SET && DeltasAt(t, p, n, poc, negative).Got?
    ensures |v| == n && GapsOk(v) && Spans(t, p, GapsCode(v), DeltasAt(t, p, n, poc, negative).at)
    decreases n
  {
    hide On, UeAt, UeCode, BitReadAt, Saturated, Spans;
    if n == 0 {
      v := [];
      NothingThere(t, p);
    } else {
      var gap := UeAt(t, p);
      UeParsed(t, p);
      UeInside(t, p);
      var used := BitReadAt(t, gap.at);
      BitParsed(t, gap.at);
      var step := Saturated(gap.value + 1);
      var next := Saturated(if negative then poc - step else poc + step);
      var rest := GapsParsed(t, used.at, n - 1, next, negative);
      var end := DeltasAt(t, used.at, n - 1, next, negative).at;
      v := [Gap(gap.value, used.value)] + rest;
      Join(t, gap.at, [used.value], used.at, GapsCode(rest), end);
      Join(t, p, UeCode(gap.value), gap.at, [used.value] + GapsCode(rest), end);
      assert v[1..] == rest;
    }
  }

  lemma {:induction false} UeInside(t: seq<bool>, p: nat)
    ensures UeAt(t, p).Got? ==> UeAt(t, p).at <= |t|
  {
  }

  lemma {:induction false} FlagsParsed(t: seq<bool>, p: nat, n: nat) returns (v: seq<FlagSyntax>)
    requires p <= |t| && FlagsAt(t, p, n).Got?
    ensures FlagsOk(v, n) && Spans(t, p, FlagsCode(v), FlagsAt(t, p, n).at)
    decreases n
  {
    hide On;
    if n == 0 {
      v := [];
      NothingThere(t, p);
    } else {
      var used := BitReadAt(t, p);
      BitParsed(t, p);
      var second := FlagAt(t, used.at, !used.value);
      FlagParsed(t, used.at, !used.value);
      var rest := FlagsParsed(t, second.at, n - 1);
      var end := FlagsAt(t, second.at, n - 1).at;
      v := [FlagSyntax(used.value, second.value)] + rest;
      var code := FlagCode(!used.value, second.value);
      Join(t, used.at, code, second.at, FlagsCode(rest), end);
      Join(t, p, [used.value], used.at, code + FlagsCode(rest), end);
      assert v[1..] == rest;
    }
  }

  lemma {:induction false} ExplicitParsed(t: seq<bool>, p: nat) returns (v: SetSyntax)
    requires p <= |t| && ExplicitAt(t, p).Got?
    ensures v.Explicit? && GapsOk(v.before) && GapsOk(v.after)
    ensures Spans(t, p, UeCode(|v.before|) + (UeCode(|v.after|) + (GapsCode(v.before) + GapsCode(v.after))), ExplicitAt(t, p).at)
  {
    hide On, UeAt, UeCode, GapsCode, GapsOk, DeltasAt;
    var negative := UeAt(t, p);
    UeParsed(t, p);
    var positive := UeAt(t, negative.at);
    UeParsed(t, negative.at);
    var before := GapsParsed(t, positive.at, negative.value, 0, true);
    var p3 := DeltasAt(t, positive.at, negative.value, 0, true).at;
    var after := GapsParsed(t, p3, positive.value, 0, false);
    var end := DeltasAt(t, p3, positive.value, 0, false).at;
    v := Explicit(before, after);
    Join(t, positive.at, GapsCode(before), p3, GapsCode(after), end);
    Join(t, negative.at, UeCode(positive.value), positive.at, GapsCode(before) + GapsCode(after), end);
    Join(t, p, UeCode(negative.value), negative.at, UeCode(positive.value) + (GapsCode(before) + GapsCode(after)), end);
  }

  lemma {:induction false} InterParsed(t: seq<bool>, p: nat, index: nat, count: nat, sets: seq<ReferenceSet>) returns (v: SetSyntax)
    requires p <= |t| && InterAt(t, p, index, count, sets).Got?
    ensures v.Inter? && SetOk(v, index, count, sets)
    ensures Spans(t, p, OptUeCode(index == count, v.back) + ([v.negative] + (UeCode(v.size) + FlagsCode(v.flags))),
                  InterAt(t, p, index, count, sets).at)
  {
    hide On, UeAt, UeCode, OptUeAt, OptUeCode, OptUeOk, FlagsAt, FlagsCode, FlagsOk, BitReadAt, Saturated, Derived;
    var back := OptUeAt(t, p, index == count);
    OptUeParsed(t, p, index == count);
    var rps := sets[index - back.value - 1];
    var sign := BitReadAt(t, back.at);
    BitParsed(t, back.at);
    var size := UeAt(t, sign.at);
    UeParsed(t, sign.at);
    var flags := FlagsParsed(t, size.at, rps.Len() + 1);
    var end := FlagsAt(t, size.at, rps.Len() + 1).at;
    v := Inter(back.value, sign.value, size.value, flags);
    Join(t, sign.at, UeCode(size.value), size.at, FlagsCode(flags), end);
    Join(t, back.at, [sign.value], sign.at, UeCode(size.value) + FlagsCode(flags), end);
    Join(t, p, OptUeCode(index == count, back.value), back.at, [sign.value] + (UeCode(size.value) + FlagsCode(flags)), end);
  }

  /** Whatever is taken for a reference picture set is one that is written there. */
  lemma {:induction false} SetParsed(t: seq<bool>, p: nat, index: nat, count: nat, sets: seq<ReferenceSet>) returns (v: SetSyntax)
    requires p <= |t| && SetAt(t, p, index, count, sets).Got?
    ensures SetOk(v, index, count, sets) && Spans(t, p, SetCode(v, index, count), SetAt(t, p, index, count, sets).at)
  {
    hide On, FlagAt, FlagCode, ExplicitAt, InterAt, UeCode, GapsCode, FlagsCode, OptUeCode, OptUeOk, GapsOk, FlagsOk;
    var inter := FlagAt(t, p, index != 0);
    FlagParsed(t, p, index != 0);
    var end := SetAt(t, p, index, count, sets).at;
    if inter.value {
      v := InterParsed(t, inter.at, index, count, sets);
      Join(t, p, FlagCode(index != 0, true), inter.at,
           OptUeCode(index == count, v.back) + ([v.negative] + (UeCode(v.size) + FlagsCode(v.flags))), end);
    } else {
      v := ExplicitParsed(t, inter.at);
      Join(t, p, FlagCode(index != 0, false), inter.at,
           UeCode(|v.before|) + (UeCode(|v.after|) + (GapsCode(v.before) + GapsCode(v.after))), end);
    }
  }

  // ----- The pictures a slice may refer to -----

  lemma {:induction false} CurrentParsed(t: seq<bool>, p: nat, sps: Sps) returns (v: CurrentSyntax)
    requires p <= |t| && SpsOk(sps) && CurrentSetAt(t, p, sps).Got?
    ensures CurrentOk(sps, v) && Spans(t, p, CurrentCode(sps, v), CurrentSetAt(t, p, sps).at)
  {
    hide On, BitReadAt, BitsAt, CeilLog2, SetAt, SetCode, SetOk, Binary, Pow2;
    var count := |sps.referenceSets|;
    var listed := BitReadAt(t, p);
    BitParsed(t, p);
    var end := CurrentSetAt(t, p, sps).at;
    if listed.value {
      ChoiceFits(count);
      BitsParsed(t, listed.at, ChoiceWidth(count));
      v := Listed(BitsAt(t, listed.at, ChoiceWidth(count)).value);
      Join(t, p, [true], listed.at, ChoiceCode(count, v.index), end);
    } else {
      var syntax := SetParsed(t, listed.at, count, count, sps.referenceSets);
      v := Own(syntax);
      Join(t, p, [false], listed.at, SetCode(syntax, count, count), end);
    }
  }

  lemma {:induction false} LongTermFrontParsed(t: seq<bool>, p: nat, sps: Sps, listed: bool) returns (v: LongTermSyntax)
    requires SpsOk(sps) && LongTermOneAt(t, p, sps, listed).Got?
    ensures if listed then v.which < Pow2(ChoiceWidth(|sps.longTermUsed|)) else |v.pocLsb| == sps.log2MaxPocLsb
    ensures Spans(t, p, LongTermFront(sps, listed, v), LongTermOneAt(t, p, sps, listed).at)
  {
    hide On, BitsAt, SkipAt, BitReadAt, CeilLog2, Binary, Pow2;
    if listed {
      var n := |sps.longTermUsed|;
      ChoiceFits(n);
      BitsParsed(t, p, ChoiceWidth(n));
      v := LongTermSyntax(BitsAt(t, p, ChoiceWidth(n)).value, [], false, false, 0);
    } else {
      var pocLsb := SkipAt(t, p, sps.log2MaxPocLsb);
      SkipParsed(t, p, sps.log2MaxPocLsb);
      var used := BitReadAt(t, pocLsb.at);
      BitParsed(t, pocLsb.at);
      v := LongTermSyntax(0, pocLsb.value, used.value, false, 0);
      Join(t, p, pocLsb.value, pocLsb.at, [used.value], used.at);
    }
  }

  /** The entries from `|done|` on, added to those before. */
  lemma {:induction false} LongTermParsed(t: seq<bool>, p: nat, sps: Sps, done: seq<LongTermSyntax>, total: nat, fromSps: nat)
    returns (v: seq<LongTermSyntax>)
    requires p <= |t| && SpsOk(sps) && |done| <= total && LongTermsFit(sps, done, fromSps)
    requires LongTermAt(t, p, sps, |done|, total, fromSps).Got?
    ensures |v| == total && done <= v && LongTermsFit(sps, v, fromSps)
    ensures Spans(t, p, LongTermCode(sps, v, |done|, fromSps), LongTermAt(t, p, sps, |done|, total, fromSps).at)
    decreases total - |done|
  {
    hide On, LongTermOneAt, LongTermFront, LongTermOk, BitReadAt, OptUeAt, OptUeCode, OptUeOk, Spans;
    var index := |done|;
    if index == total {
      v := done;
      NothingThere(t, p);
    } else {
      var one := LongTermOneAt(t, p, sps, index < fromSps);
      var msb := BitReadAt(t, one.at);
      var code := OptUeAt(t, msb.at, msb.value);
      var x := LongTermEntryParsed(t, p, sps, index < fromSps);
      v := LongTermParsed(t, code.at, sps, done + [x], total, fromSps);
      var rest := LongTermCode(sps, v, index + 1, fromSps);
      var end := LongTermAt(t, code.at, sps, index + 1, total, fromSps).at;
      assert v[index] == x;
      Join(t, msb.at, OptUeCode(x.hasMsb, x.msb), code.at, rest, end);
      Join(t, one.at, [x.hasMsb], msb.at, OptUeCode(x.hasMsb, x.msb) + rest, end);
      Join(t, p, LongTermFront(sps, index < fromSps, x), one.at, [x.hasMsb] + (OptUeCode(x.hasMsb, x.msb) + rest), end);
    }
  }

  lemma {:induction false} LongTermEntryParsed(t: seq<bool>, p: nat, sps: Sps, listed: bool) returns (x: LongTermSyntax)
    requires p <= |t| && SpsOk(sps) && LongTermOneAt(t, p, sps, listed).Got?
    requires BitReadAt(t, LongTermOneAt(t, p, sps, listed).at).Got?
    requires var msb := BitReadAt(t, LongTermOneAt(t, p, sps, listed).at); OptUeAt(t, msb.at, msb.value).Got?
    ensures LongTermOk(sps, listed, x)
    ensures var one := LongTermOneAt(t, p, sps, listed);
            var msb := BitReadAt(t, one.at);
            var code := OptUeAt(t, msb.at, msb.value);
            && Spans(t, p, LongTermFront(sps, listed, x), one.at) && Spans(t, one.at, [x.hasMsb], msb.at)
            && Spans(t, msb.at, OptUeCode(x.hasMsb, x.msb), code.at) && code.at <= |t|
  {
    hide On, LongTermOneAt, BitReadAt, OptUeAt, OptUeCode, OptUeOk, Binary, CeilLog2, Pow2;
    var one := LongTermOneAt(t, p, sps, listed);
    var front := LongTermFrontParsed(t, p, sps, listed);
    var msb := BitReadAt(t, one.at);
    BitParsed(t, one.at);
    OptUeParsed(t, msb.at, msb.value);
    x := front.(hasMsb := msb.value, msb := OptUeAt(t, msb.at, msb.value).value);
  }

  lemma {:induction false} LongTermsParsed(t: seq<bool>, p: nat, sps: Sps) returns (v: LongTermsSyntax)
    requires p <= |t| && SpsOk(sps) && LongTermsAt(t, p, sps).Got?
    ensures LongTermsOk(sps, v) && Spans(t, p, LongTermsCode(sps, v), LongTermsAt(t, p, sps).at)
  {
    hide On, UeAt, UeCode, OptUeAt, OptUeCode, OptUeOk, LongTermAt, LongTermCode, LongTermOk;
    if !sps.longTermPresent {
      v := LongTermsSyntax(0, []);
      NothingThere(t, p);
    } else {
      var fromSps := OptUeAt(t, p, sps.longTermUsed != []);
      OptUeParsed(t, p, sps.longTermUsed != []);
      var explicit := UeAt(t, fromSps.at);
      UeParsed(t, fromSps.at);
      var total := fromSps.value + explicit.value;
      var entries := LongTermParsed(t, explicit.at, sps, [], total, fromSps.value);
      var end := LongTermAt(t, explicit.at, sps, 0, total, fromSps.value).at;
      v := LongTermsSyntax(fromSps.value, entries);
      var rest := LongTermCode(sps, entries, 0, fromSps.value);
      Join(t, fromSps.at, UeCode(explicit.value), explicit.at, rest, end);
      Join(t, p, OptUeCode(sps.longTermUsed != [], fromSps.value), fromSps.at, UeCode(explicit.value) + rest, end);
    }
  }

  /** With what the pictures amount to, which the prediction fields depend on. */
  lemma {:induction false} PicturesParsed(t: seq<bool>, p: nat, sps: Sps) returns (v: PicturesSyntax)
    requires p <= |t| && SpsOk(sps) && PicturesAt(t, p, sps, false).Got?
    ensures PicturesOk(sps, v) && PicturesOf(sps, v) == PicturesAt(t, p, sps, false).value
    ensures Spans(t, p, PicturesCode(sps, v), PicturesAt(t, p, sps, false).at)
  {
    hide On, SkipAt, CurrentSetAt, CurrentCode, CurrentOk, CurrentOf, CurrentUsed, LongTermsAt, LongTermsCode, LongTermsOk, FlagAt, FlagCode, UsedFrom;
    var pocLsb := SkipAt(t, p, sps.log2MaxPocLsb);
    SkipParsed(t, p, sps.log2MaxPocLsb);
    var p2 := CurrentSetAt(t, pocLsb.at, sps).at;
    var current := CurrentParsed(t, pocLsb.at, sps);
    var p3 := LongTermsAt(t, p2, sps).at;
    var longTerms := LongTermsParsed(t, p2, sps);
    var mvp := FlagAt(t, p3, sps.temporalMvp);
    FlagParsed(t, p3, sps.temporalMvp);
    v := PicturesSyntax(pocLsb.value, current, longTerms, mvp.value);
    var c2, c3, c4 := CurrentCode(sps, current), LongTermsCode(sps, longTerms), FlagCode(sps.temporalMvp, mvp.value);
    Join(t, p2, c3, p3, c4, mvp.at);
    Join(t, pocLsb.at, c2, p2, c3 + c4, mvp.at);
    Join(t, p, pocLsb.value, pocLsb.at, c2 + (c3 + c4), mvp.at);
    PicturesWritten(t, p, sps, v);
  }

  // ----- Prediction -----

  lemma {:induction false} CountsParsed(t: seq<bool>, p: nat, pps: Pps, b: bool) returns (v: CountsSyntax)
    requires p <= |t| && CountsAt(t, p, pps, b).Got?
    ensures CountsOk(b, v) && CountsOf(pps, b, v) == CountsAt(t, p, pps, b).value
    ensures Spans(t, p, CountsCode(b, v), CountsAt(t, p, pps, b).at)
  {
    hide On, UeAt, UeCode, BitReadAt;
    var override := BitReadAt(t, p);
    BitParsed(t, p);
    if !override.value {
      v := Defaults;
    } else {
      var l0 := UeAt(t, override.at);
      UeParsed(t, override.at);
      if !b {
        v := Override(l0.value + 1, 0);
        NothingThere(t, l0.at);
        Join(t, override.at, UeCode(l0.value), l0.at, [], l0.at);
        Join(t, p, [true], override.at, UeCode(l0.value) + [], l0.at);
      } else {
        var l1 := UeAt(t, l0.at);
        UeParsed(t, l0.at);
        v := Override(l0.value + 1, l1.value + 1);
        Join(t, override.at, UeCode(l0.value), l0.at, UeCode(l1.value), l1.at);
        Join(t, p, [true], override.at, UeCode(l0.value) + UeCode(l1.value), l1.at);
      }
    }
  }

  lemma {:induction false} ListParsed(t: seq<bool>, p: nat, present: bool, active: nat, width: nat) returns (v: Option<seq<bool>>)
    requires p <= |t| && ListAt(t, p, present, active, width).Got?
    ensures ListOk(present, active, width, v) && Spans(t, p, ListCode(present, v), ListAt(t, p, present, active, width).at)
  {
    hide On, FlagAt, FlagCode, SkipsAt;
    var flag := FlagAt(t, p, present);
    FlagParsed(t, p, present);
    var bits := SkipsParsed(t, flag.at, if flag.value then active else 0, width);
    v := if flag.value then Some(bits) else None;
    Join(t, p, FlagCode(present, flag.value), flag.at, bits, SkipsAt(t, flag.at, if flag.value then active else 0, width).at);
  }

  lemma {:induction false} ListsParsed(t: seq<bool>, p: nat, pps: Pps, b: bool, total: nat, counts: Counts)
    returns (list0: Option<seq<bool>>, list1: Option<seq<bool>>)
    requires p <= |t| && ListsAt(t, p, pps, b, total, counts).Got?
    ensures var present := pps.listsModificationPresent && total > 1;
            && ListOk(present, counts.l0, CeilLog2(total), list0) && ListOk(present && b, counts.l1, CeilLog2(total), list1)
            && Spans(t, p, ListCode(present, list0) + ListCode(present && b, list1), ListsAt(t, p, pps, b, total, counts).at)
  {
    hide On, ListAt, ListCode, ListOk, CeilLog2;
    var present := pps.listsModificationPresent && total > 1;
    var p1 := ListAt(t, p, present, counts.l0, CeilLog2(total)).at;
    list0 := ListParsed(t, p, present, counts.l0, CeilLog2(total));
    list1 := ListParsed(t, p1, present && b, counts.l1, CeilLog2(total));
    Join(t, p, ListCode(present, list0), p1, ListCode(present && b, list1),
         ListAt(t, p1, present && b, counts.l1, CeilLog2(total)).at);
  }

  predicate WeightsFit(luma: seq<bool>, chroma: seq<bool>, v: seq<WeightSyntax>) {
    |v| <= |luma| && forall i :: 0 <= i < |v| ==> WeightOk(luma[i], i < |chroma| && chroma[i], v[i])
  }

  /** The weights from `|done|` on, added to those before. */
  lemma {:induction false} WeightsParsed(t: seq<bool>, p: nat, luma: seq<bool>, chroma: seq<bool>, done: seq<WeightSyntax>)
    returns (v: seq<WeightSyntax>)
    requires p <= |t| && WeightsFit(luma, chroma, done) && WeightsFromAt(t, p, luma, chroma, |done|).Got?
    ensures |v| == |luma| && done <= v && WeightsFit(luma, chroma, v)
    ensures Spans(t, p, WeightsCode(v, |done|), WeightsFromAt(t, p, luma, chroma, |done|).at)
    decreases |luma| - |done|
  {
    hide On, SesAt, SesCode, SesOk, Spans;
    var i := |done|;
    if i == |luma| {
      v := done;
      NothingThere(t, p);
    } else {
      var n1, n2 := if luma[i] then 2 else 0, if i < |chroma| && chroma[i] then 4 else 0;
      var y := SesAt(t, p, n1);
      WeightPartParsed(t, p, n1);
      var c := SesAt(t, y.at, n2);
      WeightPartParsed(t, y.at, n2);
      v := WeightsParsed(t, c.at, luma, chroma, done + [WeightSyntax(y.value, c.value)]);
      var end := WeightsFromAt(t, c.at, luma, chroma, i + 1).at;
      assert v[i] == WeightSyntax(y.value, c.value);
      Join(t, y.at, SesCode(c.value), c.at, WeightsCode(v, i + 1), end);
      Join(t, p, SesCode(y.value), y.at, SesCode(c.value) + WeightsCode(v, i + 1), end);
    }
  }

  lemma {:induction false} WeightPartParsed(t: seq<bool>, p: nat, n: nat)
    requires p <= |t| && SesAt(t, p, n).Got?
    ensures var r := SesAt(t, p, n); SesOk(r.value, n) && Spans(t, p, SesCode(r.value), r.at) && r.at <= |t|
  {
    hide On, SesAt, SesCode, SesOk;
    SesParsed(t, p, n);
  }

  lemma {:induction false} ListWeightsParsed(t: seq<bool>, p: nat, chroma: bool, count: nat) returns (v: ListWeightsSyntax)
    requires p <= |t| && ListWeightsAt(t, p, chroma, count).Got?
    ensures ListWeightsOk(chroma, count, v) && Spans(t, p, ListWeightsCode(v), ListWeightsAt(t, p, chroma, count).at)
  {
    hide On, SkipAt, WeightsFromAt, WeightsCode, WeightOk;
    var luma := SkipAt(t, p, count);
    SkipParsed(t, p, count);
    var flags := SkipAt(t, luma.at, if chroma then count else 0);
    SkipParsed(t, luma.at, if chroma then count else 0);
    var weights := WeightsParsed(t, flags.at, luma.value, flags.value, []);
    var end := WeightsFromAt(t, flags.at, luma.value, flags.value, 0).at;
    v := ListWeightsSyntax(luma.value, flags.value, weights);
    Join(t, luma.at, flags.value, flags.at, WeightsCode(weights, 0), end);
    Join(t, p, luma.value, luma.at, flags.value + WeightsCode(weights, 0), end);
  }

  lemma {:induction false} TableParsed(t: seq<bool>, p: nat, chroma: bool, l0: nat, l1: nat) returns (v: TableSyntax)
    requires p <= |t| && WeightTableAt(t, p, chroma, l0, l1).Got?
    ensures TableOk(chroma, l0, l1, v) && Spans(t, p, TableCode(chroma, v), WeightTableAt(t, p, chroma, l0, l1).at)
  {
    hide On, UeAt, UeCode, OptSeAt, OptSeCode, OptSeOk, ListWeightsAt, ListWeightsCode, ListWeightsOk;
    var luma := UeAt(t, p);
    UeParsed(t, p);
    var delta := OptSeAt(t, luma.at, chroma);
    OptSeParsed(t, luma.at, chroma);
    var list0 := ListWeightsParsed(t, delta.at, chroma, l0);
    var p3 := ListWeightsAt(t, delta.at, chroma, l0).at;
    var list1 := ListWeightsParsed(t, p3, chroma, l1);
    var end := ListWeightsAt(t, p3, chroma, l1).at;
    v := TableSyntax(luma.value, delta.value, list0, list1);
    var c3, c4 := ListWeightsCode(list0), ListWeightsCode(list1);
    Join(t, delta.at, c3, p3, c4, end);
    Join(t, luma.at, OptSeCode(chroma, delta.value), delta.at, c3 + c4, end);
    Join(t, p, UeCode(luma.value), luma.at, OptSeCode(chroma, delta.value) + (c3 + c4), end);
  }

  lemma {:induction false} CollocatedParsed(t: seq<bool>, p: nat, present: bool, b: bool, counts: Counts) returns (v: CollocatedSyntax)
    requires p <= |t| && CollocatedAt(t, p, present, b, counts).Got?
    ensures CollocatedOk(present, b, counts, v)
    ensures Spans(t, p, CollocatedCode(present, b, counts, v), CollocatedAt(t, p, present, b, counts).at)
  {
    hide On, FlagAt, FlagCode, OptUeAt, OptUeCode, OptUeOk;
    if !present {
      v := CollocatedSyntax(false, 0);
      NothingThere(t, p);
    } else {
      var bit := FlagAt(t, p, b);
      FlagParsed(t, p, b);
      var has := HasIndex(b, counts, CollocatedSyntax(bit.value, 0));
      var index := OptUeAt(t, bit.at, has);
      OptUeParsed(t, bit.at, has);
      v := CollocatedSyntax(bit.value, index.value);
      Join(t, p, FlagCode(b, bit.value), bit.at, OptUeCode(has, index.value), index.at);
    }
  }

  lemma {:induction false} MergeParsed(t: seq<bool>, p: nat, sps: Sps, pps: Pps, b: bool, counts: Counts)
    returns (table: Option<TableSyntax>, merge: nat)
    requires p <= |t| && MergeAt(t, p, sps, pps, b, counts).Got?
    ensures merge <= UE_MAX && (table.Some? <==> HasTable(pps, b))
    ensures table.Some? ==> TableOk(sps.chromaArrayType != 0, counts.l0, if b then counts.l1 else 0, table.value)
    ensures Spans(t, p, (if table.Some? then TableCode(sps.chromaArrayType != 0, table.value) else []) + UeCode(merge),
                  MergeAt(t, p, sps, pps, b, counts).at)
  {
    hide On, UeAt, UeCode, WeightTableAt, TableCode, TableOk;
    var chroma, l1 := sps.chromaArrayType != 0, if b then counts.l1 else 0;
    var p1 := p;
    table := None;
    if HasTable(pps, b) {
      var syntax := TableParsed(t, p, chroma, counts.l0, l1);
      table := Some(syntax);
      p1 := WeightTableAt(t, p, chroma, counts.l0, l1).at;
    } else {
      NothingThere(t, p);
    }
    UeParsed(t, p1);
    merge := UeAt(t, p1).value;
    Join(t, p, if table.Some? then TableCode(chroma, table.value) else [], p1, UeCode(merge), UeAt(t, p1).at);
  }

  lemma {:induction false} PredictionParsed(t: seq<bool>, p: nat, sps: Sps, pps: Pps, b: bool, pictures: Pictures)
    returns (v: PredictionSyntax)
    requires p <= |t| && PredictionAt(t, p, sps, pps, b, pictures).Got?
    ensures PredictionOk(sps, pps, b, pictures, v)
    ensures Spans(t, p, PredictionCode(sps, pps, b, pictures, v), PredictionAt(t, p, sps, pps, b, pictures).at)
  {
    hide On, SkipAt, CountsAt, CountsCode, CountsOk, CountsOf, ListsAt, ListCode, ListOk, CollocatedAt, CollocatedCode, CollocatedOk,
      MergeAt, TableCode, TableOk, UeCode, CeilLog2;
    var counts, p1 := CountsAt(t, p, pps, b).value, CountsAt(t, p, pps, b).at;
    var countsSyntax := CountsParsed(t, p, pps, b);
    var p2 := ListsAt(t, p1, pps, b, pictures.total, counts).at;
    var list0, list1 := ListsParsed(t, p1, pps, b, pictures.total, counts);
    var mvd := SkipAt(t, p2, if b then 1 else 0);
    SkipParsed(t, p2, if b then 1 else 0);
    var cabac := SkipAt(t, mvd.at, if pps.cabacInitPresent then 1 else 0);
    SkipParsed(t, mvd.at, if pps.cabacInitPresent then 1 else 0);
    var p5 := CollocatedAt(t, cabac.at, pictures.temporalMvp, b, counts).at;
    var collocated := CollocatedParsed(t, cabac.at, pictures.temporalMvp, b, counts);
    var end := MergeAt(t, p5, sps, pps, b, counts).at;
    var table, merge := MergeParsed(t, p5, sps, pps, b, counts);
    v := PredictionSyntax(countsSyntax, list0, list1, mvd.value, cabac.value, collocated, table, merge);
    var c2, c5, c6 := ListsCode(pps, b, pictures.total, v), CollocatedCode(pictures.temporalMvp, b, counts, collocated), MergeCode(sps, v);
    Join(t, cabac.at, c5, p5, c6, end);
    Join(t, mvd.at, cabac.value, cabac.at, c5 + c6, end);
    Join(t, p2, mvd.value, mvd.at, cabac.value + (c5 + c6), end);
    Join(t, p1, c2, p2, mvd.value + (cabac.value + (c5 + c6)), end);
    Join(t, p, CountsCode(b, countsSyntax), p1, c2 + (mvd.value + (cabac.value + (c5 + c6))), end);
  }

  // ----- The other fields -----

  lemma {:induction false} EndParsed(t: seq<bool>, p: nat, pps: Pps, sao: bool) returns (v: EndSyntax)
    requires p <= |t| && EndAt(t, p, pps, sao).Got?
    ensures EndOk(pps, sao, v) && Spans(t, p, EndCode(pps, v), EndAt(t, p, pps, sao).at)
  {
    hide On, SeAt, SeCode, SesAt, SesCode, SesOk, SkipAt, FiltersAt, FiltersCode, FiltersOk;
    var qpDelta := SeAt(t, p);
    SeParsed(t, p);
    var chromaQp := SesAt(t, qpDelta.at, if pps.sliceChromaQpOffsetsPresent then 2 else 0);
    SesParsed(t, qpDelta.at, if pps.sliceChromaQpOffsetsPresent then 2 else 0);
    var cu := SkipAt(t, chromaQp.at, if pps.chromaQpOffsetListEnabled then 1 else 0);
    SkipParsed(t, chromaQp.at, if pps.chromaQpOffsetListEnabled then 1 else 0);
    var end := FiltersAt(t, cu.at, pps, sao).at;
    var filters := FiltersParsed(t, cu.at, pps, sao);
    v := filters.(qpDelta := qpDelta.value, chromaQp := chromaQp.value, cuChromaQp := cu.value);
    SameFilters(pps, sao, filters, v);
    Join(t, chromaQp.at, cu.value, cu.at, FiltersCode(pps, v), end);
    Join(t, qpDelta.at, SesCode(chromaQp.value), chromaQp.at, cu.value + FiltersCode(pps, v), end);
    Join(t, p, SeCode(qpDelta.value), qpDelta.at, SesCode(chromaQp.value) + (cu.value + FiltersCode(pps, v)), end);
  }

  lemma {:induction false} SameFilters(pps: Pps, sao: bool, a: EndSyntax, b: EndSyntax)
    requires a.override == b.override && a.disable == b.disable && a.offsets == b.offsets && a.acrossSlices == b.acrossSlices
    ensures FiltersOk(pps, sao, a) == FiltersOk(pps, sao, b) && FiltersCode(pps, a) == FiltersCode(pps, b)
  {
  }

  lemma {:induction false} FiltersParsed(t: seq<bool>, p: nat, pps: Pps, sao: bool) returns (v: EndSyntax)
    requires p <= |t| && FiltersAt(t, p, pps, sao).Got?
    ensures FiltersOk(pps, sao, v) && Spans(t, p, FiltersCode(pps, v), FiltersAt(t, p, pps, sao).at)
  {
    hide On, FlagAt, FlagCode, SesAt, SesCode, SesOk, SkipAt;
    var override := FlagAt(t, p, pps.deblockingOverrideEnabled);
    FlagParsed(t, p, pps.deblockingOverrideEnabled);
    var bit := FlagAt(t, override.at, override.value);
    FlagParsed(t, override.at, override.value);
    var disabled := if override.value then bit.value else pps.deblockingDisabled;
    var offsets := SesAt(t, bit.at, if override.value && !disabled then 2 else 0);
    SesParsed(t, bit.at, if override.value && !disabled then 2 else 0);
    var across := SkipAt(t, offsets.at, if pps.loopFilterAcrossSlices && (sao || !disabled) then 1 else 0);
    SkipParsed(t, offsets.at, if pps.loopFilterAcrossSlices && (sao || !disabled) then 1 else 0);
    v := EndSyntax(0, [], [], override.value, bit.value, offsets.value, across.value);
    var c2, c3 := FlagCode(override.value, bit.value), SesCode(offsets.value);
    Join(t, bit.at, c3, offsets.at, across.value, across.at);
    Join(t, override.at, c2, bit.at, c3 + across.value, across.at);
    Join(t, p, FlagCode(pps.deblockingOverrideEnabled, override.value), override.at, c2 + (c3 + across.value), across.at);
  }

  lemma {:induction false} SliceTypeParsed(t: seq<bool>, p: nat, sps: Sps, pps: Pps) returns (v: SliceSyntax)
    requires p <= |t| && SliceTypeAt(t, p, sps, pps).Got?
    ensures SliceTypeOk(sps, pps, v) && v.sliceType == SliceTypeAt(t, p, sps, pps).value
    ensures Spans(t, p, SliceTypeCode(v), SliceTypeAt(t, p, sps, pps).at)
  {
    hide On, SkipAt, UeAt, UeCode;
    var extra := SkipAt(t, p, pps.extraSliceHeaderBits);
    SkipParsed(t, p, pps.extraSliceHeaderBits);
    var sliceType := UeAt(t, extra.at);
    UeParsed(t, extra.at);
    var output := SkipAt(t, sliceType.at, if pps.outputFlagPresent then 1 else 0);
    SkipParsed(t, sliceType.at, if pps.outputFlagPresent then 1 else 0);
    var plane := SkipAt(t, output.at, if sps.separateColourPlane then 2 else 0);
    SkipParsed(t, output.at, if sps.separateColourPlane then 2 else 0);
    v := SliceSyntax(extra.value, sliceType.value, output.value, plane.value, None, false, false, None,
                     EndSyntax(0, [], [], false, false, [], []));
    Join(t, sliceType.at, output.value, output.at, plane.value, plane.at);
    Join(t, extra.at, UeCode(sliceType.value), sliceType.at, output.value + plane.value, plane.at);
    Join(t, p, extra.value, extra.at, UeCode(sliceType.value) + (output.value + plane.value), plane.at);
  }

  lemma {:induction false} SaoParsed(t: seq<bool>, p: nat, sps: Sps) returns (luma: bool, chroma: bool)
    requires p <= |t| && SaoAt(t, p, sps).Got?
    ensures (luma ==> sps.sampleAdaptiveOffset) && (chroma ==> sps.sampleAdaptiveOffset && sps.chromaArrayType != 0)
    ensures (luma || chroma) == SaoAt(t, p, sps).value
    ensures Spans(t, p, FlagCode(sps.sampleAdaptiveOffset, luma)
                        + FlagCode(sps.sampleAdaptiveOffset && sps.chromaArrayType != 0, chroma), SaoAt(t, p, sps).at)
  {
    hide On, FlagAt, FlagCode;
    var first := FlagAt(t, p, sps.sampleAdaptiveOffset);
    FlagParsed(t, p, sps.sampleAdaptiveOffset);
    var present := sps.sampleAdaptiveOffset && sps.chromaArrayType != 0;
    var second := FlagAt(t, first.at, present);
    FlagParsed(t, first.at, present);
    luma, chroma := first.value, second.value;
    Join(t, p, FlagCode(sps.sampleAdaptiveOffset, luma), first.at, FlagCode(present, chroma), second.at);
  }

  lemma {:induction false} ReferencesParsed(t: seq<bool>, p: nat, sps: Sps, idr: bool) returns (v: Option<PicturesSyntax>)
    requires p <= |t| && SpsOk(sps) && PicturesAt(t, p, sps, idr).Got?
    ensures (v.Some? <==> !idr) && (v.Some? ==> PicturesOk(sps, v.value))
    ensures PicturesAt(t, p, sps, idr).value == match v case None => Pictures(0, false) case Some(x) => PicturesOf(sps, x)
    ensures Spans(t, p, match v case None => [] case Some(x) => PicturesCode(sps, x), PicturesAt(t, p, sps, idr).at)
  {
    hide On, PicturesOk, PicturesCode, PicturesOf;
    if idr {
      v := None;
      NothingThere(t, p);
    } else {
      var x := PicturesParsed(t, p, sps);
      v := Some(x);
    }
  }

  /** Whatever is taken for the fields of an independent segment is written there. */
  lemma {:induction false} SliceParsed(t: seq<bool>, p: nat, sps: Sps, pps: Pps, idr: bool) returns (v: SliceSyntax)
    requires p <= |t| && SpsOk(sps) && SliceFieldsAt(t, p, sps, pps, idr).Got?
    ensures SliceOk(sps, pps, idr, v) && Spans(t, p, SliceCode(sps, pps, idr, v), SliceFieldsAt(t, p, sps, pps, idr).at)
  {
    hide On, SliceTypeAt, PicturesAt, PicturesOk, PicturesCode, PicturesOf, SaoAt, PredictionAt, PredictionCode, PredictionOk,
      EndAt, EndCode, EndOk, SpsOk, UeCode, FlagCode;
    var start := SliceTypeParsed(t, p, sps, pps);
    var p1 := SliceTypeAt(t, p, sps, pps).at;
    var references := ReferencesParsed(t, p1, sps, idr);
    var pictures, p2 := PicturesAt(t, p1, sps, idr).value, PicturesAt(t, p1, sps, idr).at;
    var luma, chroma := SaoParsed(t, p2, sps);
    var p3 := SaoAt(t, p2, sps).at;
    var prediction: Option<PredictionSyntax>, p4 := None, p3;
    if start.sliceType <= 1 {
      var x := PredictionParsed(t, p3, sps, pps, start.sliceType == 0, pictures);
      prediction, p4 := Some(x), PredictionAt(t, p3, sps, pps, start.sliceType == 0, pictures).at;
    } else {
      NothingThere(t, p3);
    }
    var finish := EndParsed(t, p4, pps, luma || chroma);
    var end := EndAt(t, p4, pps, luma || chroma).at;
    v := start.(pictures := references, saoLuma := luma, saoChroma := chroma, prediction := prediction, end := finish);
    var c4 := match prediction case None => [] case Some(x) => PredictionCode(sps, pps, start.sliceType == 0, pictures, x);
    var c3, c5 := SaoCode(sps, v), EndCode(pps, finish);
    Join(t, p3, c4, p4, c5, end);
    Join(t, p2, c3, p3, c4 + c5, end);
    Join(t, p1, ReferencesCode(sps, v), p2, c3 + (c4 + c5), end);
    Join(t, p, SliceTypeCode(v), p1, ReferencesCode(sps, v) + (c3 + (c4 + c5)), end);
  }

  // ----- The whole header -----

  lemma {:induction false} StartParsed(t: seq<bool>) returns (v: StartSyntax)
    requires StartAt(t, 0).Got?
    ensures StartOk(v) && StartAt(t, 0).value == Start(v.nalType, v.firstSegment, v.ppsId)
    ensures Spans(t, 0, StartCode(v), StartAt(t, 0).at)
  {
    hide On, SkipAt, BitsAt, BitReadAt, UeAt, UeCode, Binary, Pow2;
    var forbidden := SkipAt(t, 0, 1);
    SkipParsed(t, 0, 1);
    var nalType := BitsAt(t, forbidden.at, 6);
    BitsParsed(t, forbidden.at, 6);
    BitsParsed(t, nalType.at, 6);
    var p3 := BitsAt(t, nalType.at, 6).at;
    var temporal := SkipAt(t, p3, 3);
    SkipParsed(t, p3, 3);
    var first := BitReadAt(t, temporal.at);
    BitParsed(t, temporal.at);
    var noOutput := SkipAt(t, first.at, if 16 <= nalType.value <= 23 then 1 else 0);
    SkipParsed(t, first.at, if 16 <= nalType.value <= 23 then 1 else 0);
    var ppsId := UeAt(t, noOutput.at);
    UeParsed(t, noOutput.at);
    v := StartSyntax(forbidden.value, nalType.value, temporal.value, first.value, noOutput.value, ppsId.value);
    var c7, end := UeCode(ppsId.value), ppsId.at;
    Join(t, first.at, noOutput.value, noOutput.at, c7, end);
    Join(t, temporal.at, [first.value], first.at, noOutput.value + c7, end);
    Join(t, p3, temporal.value, temporal.at, [first.value] + (noOutput.value + c7), end);
    var c4 := temporal.value + ([first.value] + (noOutput.value + c7));
    Join(t, nalType.at, Binary(0, 6), p3, c4, end);
    Join(t, forbidden.at, Binary(nalType.value, 6), nalType.at, Binary(0, 6) + c4, end);
    Join(t, 0, forbidden.value, forbidden.at, Binary(nalType.value, 6) + (Binary(0, 6) + c4), end);
  }

  lemma {:induction false} EntryPointsParsed(t: seq<bool>, p: nat, present: bool)
    returns (count: nat, offsetLength: nat, offsets: seq<bool>)
    requires p <= |t| && EntryPointsAt(t, p, present).Got?
    ensures OptUeOk(present, count) && OptUeOk(count > 0, offsetLength) && offsetLength <= 31
    ensures |offsets| == count * (offsetLength + 1)
    ensures Spans(t, p, OptUeCode(present, count) + (OptUeCode(count > 0, offsetLength) + offsets), EntryPointsAt(t, p, present).at)
  {
    hide On, OptUeAt, UeAt, UeCode, SkipsAt;
    var n := OptUeAt(t, p, present);
    OptUeParsed(t, p, present);
    count := n.value;
    if count == 0 {
      offsetLength, offsets := 0, [];
      NothingThere(t, n.at);
      Join(t, p, OptUeCode(present, count), n.at, [], n.at);
      assert OptUeCode(count > 0, offsetLength) + offsets == [];
    } else {
      var width := UeAt(t, n.at);
      UeParsed(t, n.at);
      offsetLength := width.value;
      offsets := SkipsParsed(t, width.at, count, offsetLength + 1);
      var end := SkipsAt(t, width.at, count, offsetLength + 1).at;
      Join(t, n.at, UeCode(offsetLength), width.at, offsets, end);
      Join(t, p, OptUeCode(present, count), n.at, UeCode(offsetLength) + offsets, end);
    }
  }

  lemma {:induction false} TrailParsed(t: seq<bool>, p: nat, pps: Pps) returns (v: TrailSyntax)
    requires p <= |t| && TrailAt(t, p, pps).Got?
    ensures TrailOk(pps, v) && Spans(t, p, TrailCode(pps, v), TrailAt(t, p, pps).at)
  {
    hide On, EntryPointsAt, OptUeAt, OptUeCode, OptUeOk, SkipAt;
    var count, offsetLength, offsets := EntryPointsParsed(t, p, pps.entryPoints);
    var p1 := EntryPointsAt(t, p, pps.entryPoints).at;
    var length := OptUeAt(t, p1, pps.headerExtensionPresent);
    OptUeParsed(t, p1, pps.headerExtensionPresent);
    var extension := SkipAt(t, length.at, length.value * 8);
    SkipParsed(t, length.at, length.value * 8);
    v := TrailSyntax(count, offsetLength, offsets, length.value, extension.value);
    var c2 := OptUeCode(pps.headerExtensionPresent, length.value);
    Join(t, p1, c2, length.at, extension.value, extension.at);
    Join(t, p, EntryPointsCode(pps, v), p1, c2 + extension.value, extension.at);
  }

  lemma {:induction false} SegmentParsed(t: seq<bool>, p: nat, sps: Sps, pps: Pps, start: StartSyntax) returns (v: HeaderSyntax)
    requires p <= |t| && SpsOk(sps)
    requires BodyAt(t, p, sps, pps, Start(start.nalType, start.firstSegment, start.ppsId)).Got?
    ensures v.start == start && SegmentOk(sps, pps, v)
    ensures Spans(t, p, SegmentCode(sps, pps, v),
                  BodyAt(t, p, sps, pps, Start(start.nalType, start.firstSegment, start.ppsId)).at)
  {
    hide On, FlagAt, FlagCode, SkipAt, SliceFieldsAt, SliceCode, SliceOk, TrailAt, TrailCode, TrailOk, CeilLog2, SpsOk;
    var first, idr := start.firstSegment, start.nalType == 19 || start.nalType == 20;
    var has, width := !first && pps.dependentSliceSegments, if first then 0 else CeilLog2(sps.picSizeInCtbs);
    var dependent := FlagAt(t, p, has);
    FlagParsed(t, p, has);
    var address := SkipAt(t, dependent.at, width);
    SkipParsed(t, dependent.at, width);
    var slice: Option<SliceSyntax>, p2 := None, address.at;
    if dependent.value {
      NothingThere(t, p2);
    } else {
      var x := SliceParsed(t, address.at, sps, pps, idr);
      slice, p2 := Some(x), SliceFieldsAt(t, address.at, sps, pps, idr).at;
    }
    var trail := TrailParsed(t, p2, pps);
    var end := TrailAt(t, p2, pps).at;
    v := HeaderSyntax(start, dependent.value, address.value, slice, trail);
    var c3 := match slice case None => [] case Some(x) => SliceCode(sps, pps, idr, x);
    Join(t, address.at, c3, p2, TrailCode(pps, trail), end);
    Join(t, dependent.at, address.value, address.at, c3 + TrailCode(pps, trail), end);
    Join(t, p, FlagCode(has, dependent.value), dependent.at, address.value + (c3 + TrailCode(pps, trail)), end);
  }

  /** Parameter sets as the source's parser leaves them. */
  predicate SetsOk(ps: Parameters) {
    forall id :: id in ps.sps ==> SpsOk(ps.sps[id])
  }

  lemma {:induction false} HeaderParsed(t: seq<bool>, ps: Parameters) returns (v: HeaderSyntax)
    requires SetsOk(ps) && HeaderAt(t, ps).Got?
    ensures HeaderOk(ps, v) && On(t, 0, HeaderCode(ps, v)) && HeaderAt(t, ps).at == |HeaderCode(ps, v)|
  {
    hide On, StartAt, StartCode, StartOk, BodyAt, SegmentCode, SegmentOk, SpsOk;
    var start := StartParsed(t);
    var p1 := StartAt(t, 0).at;
    var (sps, pps) := SetsOf(ps, start.ppsId).value;
    v := SegmentParsed(t, p1, sps, pps, start);
    Join(t, 0, StartCode(start), p1, SegmentCode(sps, pps, v), HeaderAt(t, ps).at);
  }

  /** Some header of `length` bits is written at the start of the tape. */
  ghost predicate Starts(t: seq<bool>, ps: Parameters, length: nat) {
    exists v :: HeaderOk(ps, v) && On(t, 0, HeaderCode(ps, v)) && |HeaderCode(ps, v)| == length
  }

  /** The parser finds a header, and where it ends, precisely where one is written; all written there are as long. */
  lemma {:induction false} HeaderExact(t: seq<bool>, ps: Parameters, length: nat)
    requires SetsOk(ps)
    ensures HeaderAt(t, ps) == Got((), length) <==> Starts(t, ps, length)
  {
    hide On, HeaderAt, HeaderOk, HeaderCode, SetsOk;
    if Starts(t, ps, length) {
      var v :| HeaderOk(ps, v) && On(t, 0, HeaderCode(ps, v)) && |HeaderCode(ps, v)| == length;
      HeaderWritten(t, ps, v);
    }
    if HeaderAt(t, ps) == Got((), length) {
      var v := HeaderParsed(t, ps);
    }
  }

  /**
   Clear bytes are found exactly when a header is written at the start of the NAL unit and the first
   64 KiB hold it and its alignment; they are exactly the bytes of both.
   */
  lemma {:induction false} ClearBytesExact(ps: Parameters, nal: seq<byte>)
    requires SetsOk(ps)
    ensures var r, held := ClearBytesOf(ps, nal), 8 * |Front(nal, LARGE_SLICE_HEADER_BYTES).bytes|;
            && (r.Ok? <==> exists length: nat :: Starts(TapeOf(nal), ps, length) && length < held)
            && (r.Ok? ==> r.value <= |nal|)
            && (forall length: nat :: r.Ok? && Starts(TapeOf(nal), ps, length) ==>
                                        |Unescaped(nal[..r.value]).bytes| == length / 8 + 1)
  {
    hide HeaderAt, BitsOf, Starts, Unescaped, SetsOk;
    var header := HeaderAt(TapeOf(nal), ps);
    forall length: nat ensures header == Got((), length) <==> Starts(TapeOf(nal), ps, length) {
      HeaderExact(TapeOf(nal), ps, length);
    }
    FoundWhen(header, nal);
    if ClearBytesOf(ps, nal).Ok? {
      ClearBytesCoverHeader(ps, nal);
      assert header.value == () && header == Got((), header.at);
      assert Starts(TapeOf(nal), ps, header.at);
    }
  }

  lemma {:induction false} FoundWhen(header: Read<()>, nal: seq<byte>)
    ensures var front := Front(nal, LARGE_SLICE_HEADER_BYTES);
            Found(header, front.origin).Ok? <==> header.Got? && header.at < 8 * |front.bytes|
  {
    hide Unescaped;
  }

  /** Of any NAL unit that starts with this header, whatever follows: refused exactly when it runs past the first 64 KiB. */
  lemma {:induction false} ClearBytesOfWritten(ps: Parameters, nal: seq<byte>, v: HeaderSyntax)
    requires HeaderOk(ps, v) && On(TapeOf(nal), 0, HeaderCode(ps, v))
    ensures var r, end := ClearBytesOf(ps, nal), |HeaderCode(ps, v)|;
            && (r.Ok? <==> end < 8 * |Front(nal, LARGE_SLICE_HEADER_BYTES).bytes|)
            && (r.Ok? ==> r.value <= |nal| && |Unescaped(nal[..r.value]).bytes| == end / 8 + 1)
  {
    hide HeaderAt, HeaderOk, HeaderCode, TapeOf, On, Unescaped;
    HeaderWritten(TapeOf(nal), ps, v);
    FoundWhen(HeaderAt(TapeOf(nal), ps), nal);
    if ClearBytesOf(ps, nal).Ok? {
      ClearBytesCoverHeader(ps, nal);
    }
  }

  // ----- A header that is too long -----

  const LONG_SPS := Sps(1, false, 1, 4, false, [], false, [], false)
  const LONG_PPS := Pps(0, true, false, 0, false, 1, 1, false, false, false, false, false, false, false, false, true, false)
  const LONG_SETS := Parameters(map[0 := LONG_SPS], map[0 := LONG_PPS])

  /** A dependent segment with 16384 entry points of 32 bits each. */
  function LongHeader(): HeaderSyntax {
    HeaderSyntax(StartSyntax([false], 1, [false, false, true], false, [], 0), true, [], None,
                 TrailSyntax(16384, 31, seq(524288, i => false), 0, []))
  }

  lemma {:induction false} LongHeaderIsHeader()
    ensures HeaderOk(LONG_SETS, LongHeader()) && |HeaderCode(LONG_SETS, LongHeader())| > 8 * LARGE_SLICE_HEADER_BYTES
  {
    hide UeCode, Binary, SliceOk;
    assert Pow2(6) == 64 by {
      assert Pow2(3) == 8;
    }
  }

  function LongCode(): seq<bool> {
    LongHeaderIsHeader();
    HeaderCode(LONG_SETS, LongHeader())
  }

  /** A header the syntax table writes, refused whatever follows it: it does not fit the 64 KiB looked at. */
  lemma {:induction false} SomeHeaderIsTooLong(nal: seq<byte>)
    requires On(TapeOf(nal), 0, LongCode())
    ensures Starts(TapeOf(nal), LONG_SETS, |LongCode()|) && ClearBytesOf(LONG_SETS, nal).Err?
  {
    hide HeaderOk, HeaderCode, LongHeader, On, TapeOf, Unescaped;
    LongHeaderIsHeader();
    ClearBytesOfWritten(LONG_SETS, nal, LongHeader());
  }
}
