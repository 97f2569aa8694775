/**
 The slice header table of ITU-T H.264, section 7.3.3, with every condition on the flags as the
 parameter sets write them: what a decoder reads when it has nothing but the bits of the sets.
 A track that takes those sets in and then meets such a slice finds its header.
 */
module AvcTables {
  import opened Common
  import opened Bits
  import opened Syntax
  import opened Avc
  import opened AvcSets

  // ----- slice_type (table 7-6) -----

  predicate IsP(raw: nat) { raw == 0 || raw == 5 }
  predicate IsB(raw: nat) { raw == 1 || raw == 6 }
  predicate IsI(raw: nat) { raw == 2 || raw == 7 }
  predicate IsSp(raw: nat) { raw == 3 || raw == 8 }
  predicate IsSi(raw: nat) { raw == 4 || raw == 9 }

  // ----- The parts of the table -----

  function PictureTable(s: SpsSyntax, lead: Lead, v: Picture): seq<bool> {
    v.colourPlane
    + (v.frameNum + (FlagCode(!s.frame.frameMbsOnly, v.fieldPic) + (v.bottomField + OptUeCode(lead.nalType == 5, v.idrPicId))))
  }

  predicate PictureWritten(s: SpsSyntax, lead: Lead, v: Picture) {
    && |v.colourPlane| == (if s.high.separate then 2 else 0) && |v.frameNum| == s.frameNumBits + 4
    && (v.fieldPic ==> !s.frame.frameMbsOnly) && |v.bottomField| == (if v.fieldPic then 1 else 0)
    && OptUeOk(lead.nalType == 5, v.idrPicId)
  }

  function OrderTable(s: SpsSyntax, p: PpsSyntax, fieldPic: bool, v: Order): seq<bool> {
    v.pocLsb + (OptSeCode(s.poc.Lsb? && p.bottomField && !fieldPic, v.deltaBottom)
                + (OptSeCode(s.poc.Cycle? && !s.poc.alwaysZero, v.delta0)
                   + (OptSeCode(s.poc.Cycle? && !s.poc.alwaysZero && p.bottomField && !fieldPic, v.delta1)
                      + OptUeCode(p.weights.redundant, v.redundantPicCnt))))
  }

  predicate OrderWritten(s: SpsSyntax, p: PpsSyntax, fieldPic: bool, v: Order) {
    && |v.pocLsb| == (if s.poc.Lsb? then s.poc.bits + 4 else 0)
    && OptSeOk(s.poc.Lsb? && p.bottomField && !fieldPic, v.deltaBottom)
    && OptSeOk(s.poc.Cycle? && !s.poc.alwaysZero, v.delta0)
    && OptSeOk(s.poc.Cycle? && !s.poc.alwaysZero && p.bottomField && !fieldPic, v.delta1)
    && OptUeOk(p.weights.redundant, v.redundantPicCnt)
  }

  /** Operations and their arguments, up to the one that ends them. */
  function Operations(v: seq<Op>, end: nat): seq<bool> {
    if v == [] then UeCode(end) else (UeCode(v[0].code) + UesCode(v[0].arguments)) + Operations(v[1..], end)
  }

  /** Changes to a reference list: a picture number difference either way, or a long-term picture. */
  predicate ChangesWritten(v: seq<Op>) {
    |v| <= 64 && forall i :: 0 <= i < |v| ==> v[i].code <= 2 && UesOk(v[i].arguments, 1)
  }

  /** Markings: operation 3 has two arguments, operation 5 none, the others one. */
  predicate MarkingsWritten(v: seq<Op>) {
    |v| <= 64
    && forall i :: 0 <= i < |v| ==>
         1 <= v[i].code <= 6 && UesOk(v[i].arguments, if v[i].code == 3 then 2 else if v[i].code == 5 then 0 else 1)
  }

  function ReferencesTable(raw: nat, v: References): seq<bool> {
    v.direct
    + ((FlagCode(IsP(raw) || IsSp(raw) || IsB(raw), v.counts != []) + UesCode(v.counts))
       + ((FlagCode(!IsI(raw) && !IsSi(raw), v.list0.Some?) + (if v.list0.Some? then Operations(v.list0.value, 3) else []))
          + (FlagCode(IsB(raw), v.list1.Some?) + (if v.list1.Some? then Operations(v.list1.value, 3) else []))))
  }

  predicate ReferencesWritten(raw: nat, v: References) {
    && |v.direct| == (if IsB(raw) then 1 else 0)
    && (forall i :: 0 <= i < |v.counts| ==> v.counts[i] <= 31)
    && (v.counts == [] || (|v.counts| == 1 && (IsP(raw) || IsSp(raw))) || (|v.counts| == 2 && IsB(raw)))
    && (v.list0.Some? ==> !IsI(raw) && !IsSi(raw) && ChangesWritten(v.list0.value))
    && (v.list1.Some? ==> IsB(raw) && ChangesWritten(v.list1.value))
  }

  /** Weights are written for P and SP slices under one flag, and for B slices when the other says explicitly. */
  predicate HasWeights(p: PpsSyntax, raw: nat) {
    (p.weights.pred && (IsP(raw) || IsSp(raw))) || (p.weights.bipred == 1 && IsB(raw))
  }

  /** Colour is written unless the planes are separate or there is none. */
  predicate HasChroma(s: SpsSyntax) {
    !s.high.separate && s.high.chromaFormat != 0
  }

  /** One more than the counts that the slice writes or, if it writes none, the picture parameter set. */
  function WeightCount(p: PpsSyntax, raw: nat, counts: seq<nat>): nat {
    (if counts == [] then p.l0 else counts[0]) + 1 + if !IsB(raw) then 0 else (if |counts| < 2 then p.l1 else counts[1]) + 1
  }

  function WeightsTable(s: SpsSyntax, p: PpsSyntax, raw: nat, v: Weights): seq<bool> {
    OptUeCode(HasWeights(p, raw), v.lumaDenom)
    + (OptUeCode(HasWeights(p, raw) && HasChroma(s), v.chromaDenom) + EntriesCode(HasChroma(s), v.entries))
  }

  predicate WeightsWritten(s: SpsSyntax, p: PpsSyntax, raw: nat, counts: seq<nat>, v: Weights) {
    && OptUeOk(HasWeights(p, raw), v.lumaDenom) && OptUeOk(HasWeights(p, raw) && HasChroma(s), v.chromaDenom)
    && EntriesOk(HasChroma(s), if HasWeights(p, raw) then WeightCount(p, raw, counts) else 0, v.entries)
  }

  function EndTable(p: PpsSyntax, lead: Lead, v: Body): seq<bool> {
    (v.marks.idrFlags + (FlagCode(lead.nalRefIdc != 0 && lead.nalType != 5, v.marks.marking.Some?)
                         + (if v.marks.marking.Some? then Operations(v.marks.marking.value, 0) else [])))
    + ((OptUeCode(p.entropyCoding && !IsI(lead.rawType) && !IsSi(lead.rawType), v.quantisers.cabacInitIdc)
        + (SeCode(v.quantisers.qpDelta)
           + (v.quantisers.spForSwitch + OptSeCode(IsSp(lead.rawType) || IsSi(lead.rawType), v.quantisers.qsDelta))))
       + (OptUeCode(p.weights.deblocking, v.deblocking.disable) + SesCode(v.deblocking.offsets)))
  }

  predicate EndWritten(p: PpsSyntax, lead: Lead, v: Body) {
    && |v.marks.idrFlags| == (if lead.nalRefIdc != 0 && lead.nalType == 5 then 2 else 0)
    && (v.marks.marking.Some? ==> lead.nalRefIdc != 0 && lead.nalType != 5 && MarkingsWritten(v.marks.marking.value))
    && OptUeOk(p.entropyCoding && !IsI(lead.rawType) && !IsSi(lead.rawType), v.quantisers.cabacInitIdc)
    && -SE_MAX <= v.quantisers.qpDelta <= SE_MAX && |v.quantisers.spForSwitch| == (if IsSp(lead.rawType) then 1 else 0)
    && OptSeOk(IsSp(lead.rawType) || IsSi(lead.rawType), v.quantisers.qsDelta)
    && OptUeOk(p.weights.deblocking, v.deblocking.disable)
    && SesOk(v.deblocking.offsets, if p.weights.deblocking && v.deblocking.disable != 1 then 2 else 0)
  }

  // ----- The whole table -----

  function SliceTable(s: SpsSyntax, p: PpsSyntax, v: Header): seq<bool> {
    LeadCode(v.lead)
    + (PictureTable(s, v.lead, v.body.picture)
       + (OrderTable(s, p, v.body.picture.fieldPic, v.body.order)
          + (ReferencesTable(v.lead.rawType, v.body.references)
             + (WeightsTable(s, p, v.lead.rawType, v.body.weights) + EndTable(p, v.lead, v.body)))))
  }

  /** A header that the table writes for a slice that names `p`, which names `s`. */
  predicate SliceWritten(s: SpsSyntax, p: PpsSyntax, v: Header) {
    && LeadOk(v.lead) && v.lead.ppsId == p.id && p.spsId == s.id
    && PictureWritten(s, v.lead, v.body.picture) && OrderWritten(s, p, v.body.picture.fieldPic, v.body.order)
    && ReferencesWritten(v.lead.rawType, v.body.references)
    && WeightsWritten(s, p, v.lead.rawType, v.body.references.counts, v.body.weights) && EndWritten(p, v.lead, v.body)
  }

  /** The parameters of a track that has taken in these sets. */
  predicate TakenIn(ps: Parameters, s: SpsSyntax, p: PpsSyntax) {
    && SpsOk(s) && PpsOk(p) && p.spsId == s.id
    && s.id in ps.sps && ps.sps[s.id] == SpsOf(s) && p.id in ps.pps && ps.pps[p.id] == PpsOf(p)
  }

  lemma {:induction false} SameOperations(kind: OpKind, v: seq<Op>)
    ensures OpsCode(kind, v) == Operations(v, if kind.Modification? then 3 else 0)
  {
    hide UeCode, UesCode;
    if v != [] {
      SameOperations(kind, v[1..]);
    }
  }

  lemma {:induction false} SameOpsOk(v: seq<Op>)
    ensures OpsOk(Modification, MAX_OPERATIONS + 1, v) <==> ChangesWritten(v)
    ensures OpsOk(OpKind.Marking, MAX_OPERATIONS + 1, v) <==> MarkingsWritten(v)
  {
    hide UesOk;
    forall i | 0 <= i < |v|
      ensures OpOk(Modification, v[i]) <==> v[i].code <= 2 && UesOk(v[i].arguments, 1)
      ensures OpOk(OpKind.Marking, v[i])
              <==> 1 <= v[i].code <= 6 && UesOk(v[i].arguments, if v[i].code == 3 then 2 else if v[i].code == 5 then 0 else 1)
    {
    }
  }

  lemma {:induction false} SamePicture(s: SpsSyntax, c: Context, lead: Lead, v: Picture)
    requires c.sps == SpsOf(s) && c.nalType == lead.nalType
    ensures PictureCode(c, v) == PictureTable(s, lead, v) && (PictureOk(c, v) <==> PictureWritten(s, lead, v))
  {
    hide UeCode;
  }

  lemma {:induction false} SameOrder(s: SpsSyntax, p: PpsSyntax, c: Context, fieldPic: bool, v: Order)
    requires c.sps == SpsOf(s) && c.pps == PpsOf(p)
    ensures OrderCode(c, fieldPic, v) == OrderTable(s, p, fieldPic, v) && (OrderOk(c, fieldPic, v) <==> OrderWritten(s, p, fieldPic, v))
  {
    hide UeCode, SeCode;
  }

  lemma {:induction false} SameReferences(c: Context, raw: nat, v: References)
    requires c.sliceType == raw % 5 && raw <= 9
    ensures ReferencesCode(c, v) == ReferencesTable(raw, v) && (ReferencesOk(c, v) <==> ReferencesWritten(raw, v))
  {
    hide UesCode, OpsCode, Operations, OpsOk, ChangesWritten;
    if v.list0.Some? {
      SameOperations(Modification, v.list0.value);
      SameOpsOk(v.list0.value);
    }
    if v.list1.Some? {
      SameOperations(Modification, v.list1.value);
      SameOpsOk(v.list1.value);
    }
  }

  lemma {:induction false} SameWeights(s: SpsSyntax, p: PpsSyntax, c: Context, raw: nat, counts: seq<nat>, v: Weights)
    requires c.sps == SpsOf(s) && c.pps == PpsOf(p) && c.sliceType == raw % 5 && raw <= 9 && PpsOk(p) && CountsOk(c, counts)
    ensures WeightsCode(c, v) == WeightsTable(s, p, raw, v)
    ensures WeightsOk(c, counts, v) <==> WeightsWritten(s, p, raw, counts, v)
  {
    hide UeCode, EntriesCode, EntriesOk, PpsWeightsOk;
    assert ActiveReferences(c, counts) == WeightCount(p, raw, counts);
  }

  lemma {:induction false} SameEnd(p: PpsSyntax, c: Context, lead: Lead, v: Body)
    requires c.pps == PpsOf(p) && c.sliceType == lead.rawType % 5 && lead.rawType <= 9
    requires c.nalType == lead.nalType && c.nalRefIdc == lead.nalRefIdc
    ensures MarksCode(c, v.marks) + (QuantisersCode(c, v.quantisers) + DeblockingCode(c, v.deblocking)) == EndTable(p, lead, v)
    ensures MarksOk(c, v.marks) && QuantisersOk(c, v.quantisers) && DeblockingOk(c, v.deblocking) <==> EndWritten(p, lead, v)
  {
    hide UeCode, SeCode, SesCode, OpsCode, Operations, OpsOk, MarkingsWritten, SesOk;
    if v.marks.marking.Some? {
      SameOperations(OpKind.Marking, v.marks.marking.value);
      SameOpsOk(v.marks.marking.value);
    }
  }

  /** Under the sets a track has taken in, the headers that are read are those the table writes. */
  lemma {:induction false} TableIsHeader(ps: Parameters, s: SpsSyntax, p: PpsSyntax, v: Header)
    requires TakenIn(ps, s, p) && v.lead.ppsId == p.id
    ensures HeaderOk(ps, v) <==> SliceWritten(s, p, v)
    ensures HeaderOk(ps, v) ==> HeaderCode(ps, v) == SliceTable(s, p, v)
  {
    hide LeadCode, PictureCode, PictureOk, PictureTable, PictureWritten, OrderCode, OrderOk, OrderTable, OrderWritten, ReferencesCode,
      ReferencesTable, ReferencesWritten, WeightsCode, WeightsOk, WeightsTable, WeightsWritten, MarksCode, MarksOk,
      QuantisersCode, QuantisersOk, DeblockingCode, DeblockingOk, EndTable, EndWritten, SpsOf, PpsOf, SpsOk, PpsOk, CountsOk;
    var c := Context(SpsOf(s), PpsOf(p), v.lead.nalRefIdc, v.lead.nalType, v.lead.rawType % 5);
    if LeadOk(v.lead) {
      assert ContextOf(ps, SliceOf(v.lead)) == Some(c) by {
        NamesSps(p);
      }
      SamePicture(s, c, v.lead, v.body.picture);
      SameOrder(s, p, c, v.body.picture.fieldPic, v.body.order);
      SameReferences(c, v.lead.rawType, v.body.references);
      SameEnd(p, c, v.lead, v.body);
      if ReferencesOk(c, v.body.references) {
        HasCounts(c, v.body.references);
        SameWeights(s, p, c, v.lead.rawType, v.body.references.counts, v.body.weights);
      }
    }
  }

  lemma {:induction false} HasCounts(c: Context, v: References)
    requires ReferencesOk(c, v)
    ensures CountsOk(c, v.counts)
  {
  }

  lemma {:induction false} NamesSps(p: PpsSyntax)
    ensures PpsOf(p).spsId == p.spsId
  {
  }

  // ----- From the bits of the sets to the slice -----

  /** The profiles whose sequence parameter sets have chroma, depth and scaling fields (section 7.3.2.1.1). */
  lemma {:induction false} HighProfiles(profile: nat)
    ensures profile in HIGH_PROFILES <==>
              || profile == 100 || profile == 110 || profile == 122 || profile == 244 || profile == 44 || profile == 83
              || profile == 86 || profile == 118 || profile == 128 || profile == 138 || profile == 139 || profile == 134
              || profile == 135
  {
  }

  /** After NAL units with these two sets, in this order, both are taken in. */
  lemma {:induction false} SetsTakenIn(ps: Parameters, spsNal: seq<byte>, s: SpsSyntax, ppsNal: seq<byte>, p: PpsSyntax)
    requires spsNal != [] && spsNal[0] % 0x20 == 7 && SpsOk(s) && On(SetTape(spsNal), 0, SpsCode(s))
    requires ppsNal != [] && ppsNal[0] % 0x20 == 8 && PpsOk(p) && On(SetTape(ppsNal), 0, PpsCode(p)) && p.spsId == s.id
    ensures UpdateOf(ps, spsNal).Ok? && UpdateOf(UpdateOf(ps, spsNal).value, ppsNal).Ok?
    ensures TakenIn(UpdateOf(UpdateOf(ps, spsNal).value, ppsNal).value, s, p)
  {
    hide UpdateOf, SpsOk, SpsCode, SpsOf, PpsOk, PpsCode, PpsOf, On, SetTape;
    SpsTakenIn(ps, spsNal, s);
    PpsTakenIn(UpdateOf(ps, spsNal).value, ppsNal, p);
  }

  /**
   A track that takes in a sequence and a picture parameter set finds every slice header that the table
   writes for those sets, with its exact length, if it fits the bytes looked at; and no other under that
   picture parameter set.
   */
  lemma {:induction false} SliceUnderSets(ps: Parameters, spsNal: seq<byte>, s: SpsSyntax, ppsNal: seq<byte>, p: PpsSyntax,
                                          nal: seq<byte>, v: Header)
    requires spsNal != [] && spsNal[0] % 0x20 == 7 && SpsOk(s) && On(SetTape(spsNal), 0, SpsCode(s))
    requires ppsNal != [] && ppsNal[0] % 0x20 == 8 && PpsOk(p) && On(SetTape(ppsNal), 0, PpsCode(p)) && p.spsId == s.id
    requires UpdateOf(ps, spsNal).Ok? && UpdateOf(UpdateOf(ps, spsNal).value, ppsNal).Ok?
    ensures var now := UpdateOf(UpdateOf(ps, spsNal).value, ppsNal).value;
            var found, code := HeaderLength(TapeOf(nal), now), SliceTable(s, p, v);
            && (SliceWritten(s, p, v) && On(BitsOf(Unescaped(nal).bytes), 0, code) ==>
                  found == if |code| <= |TapeOf(nal)| then Ok(|code|) else Err)
            && (found.Ok? ==>
                  exists w :: HeaderOk(now, w) && On(BitsOf(Unescaped(nal).bytes), 0, HeaderCode(now, w)) &&
                              found == Ok(|HeaderCode(now, w)|) &&
                              (w.lead.ppsId == p.id ==> SliceWritten(s, p, w) && HeaderCode(now, w) == SliceTable(s, p, w)))
  {
    hide UpdateOf, SpsOk, SpsCode, PpsOk, PpsCode, On, SetTape, TakenIn, HeaderLength, HeaderOk, HeaderCode, SliceTable, TapeOf, BitsOf,
      Unescaped;
    SetsTakenIn(ps, spsNal, s, ppsNal, p);
    var now := UpdateOf(UpdateOf(ps, spsNal).value, ppsNal).value;
    if SliceWritten(s, p, v) {
      TableIsHeader(now, s, p, v);
      if On(BitsOf(Unescaped(nal).bytes), 0, SliceTable(s, p, v)) {
        HeaderBitsInvertsPrinter(now, nal, v);
      }
    }
    if HeaderLength(TapeOf(nal), now).Ok? {
      HeaderBitsFindsHeader(now, nal);
      var w :| HeaderOk(now, w) && On(BitsOf(Unescaped(nal).bytes), 0, HeaderCode(now, w))
               && HeaderLength(TapeOf(nal), now) == Ok(|HeaderCode(now, w)|);
      if w.lead.ppsId == p.id {
        TableIsHeader(now, s, p, w);
      }
    }
  }
}
