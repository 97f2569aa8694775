/**
 H.264 slice headers (src/cenc/avc.rs; section 7.3.3 of ITU-T H.264): the header as a value, the code
 it is written as, a parser on a tape, and the source's reader, which stops exactly at its end.
 */
module Avc {
  import opened Common
  import opened Bits
  import opened Syntax
  import Subsamples

  const MAX_SLICE_HEADER_BYTES := 4096

  datatype Sps = Sps(
    chromaArrayType: nat, separateColourPlane: bool, log2MaxFrameNum: nat, pocType: nat, log2MaxPocLsb: nat,
    deltaPicOrderAlwaysZero: bool, frameMbsOnly: bool)

  datatype Pps = Pps(
    spsId: nat, entropyCoding: bool, bottomFieldPicOrderInFramePresent: bool, numRefIdxL0Default: nat,
    numRefIdxL1Default: nat, weightedPred: bool, weightedBipredIdc: nat, deblockingFilterControlPresent: bool,
    redundantPicCntPresent: bool)

  datatype Parameters = Parameters(sps: map<nat, Sps>, pps: map<nat, Pps>)

  /** What the rest of a header depends on. */
  datatype Context = Context(sps: Sps, pps: Pps, nalRefIdc: nat, nalType: nat, sliceType: nat) {
    predicate P() { sliceType == 0 }
    predicate B() { sliceType == 1 }
    predicate I() { sliceType == 2 }
    predicate Sp() { sliceType == 3 }
    predicate Si() { sliceType == 4 }
    predicate Idr() { nalType == 5 }
    predicate Chroma() { sps.chromaArrayType != 0 }
    predicate Weighted() { (pps.weightedPred && (P() || Sp())) || (pps.weightedBipredIdc == 1 && B()) }
    predicate Intra() { I() || Si() }
  }

  // ----- The start: NAL header, and the fields that choose the parameter sets -----

  datatype Lead = Lead(forbiddenZero: seq<bool>, nalRefIdc: nat, nalType: nat, firstMb: nat, rawType: nat, ppsId: nat)

  function LeadAt(t: seq<bool>, p: nat): (r: Read<Lead>)
    ensures r.Got? ==> p <= r.at
  {
    var (forbidden, p1) :- SkipAt(t, p, 1);
    var (refIdc, p2) :- BitsAt(t, p1, 2);
    var (nalType, p3) :- BitsAt(t, p2, 5);
    if nalType != 1 && nalType != 5 then Bad
    else
      var (firstMb, p4) :- UeAt(t, p3);
      var (rawType, p5) :- UeAt(t, p4);
      if rawType > 9 then Bad
      else
        var (ppsId, p6) :- UeAt(t, p5);
        Got(Lead(forbidden, refIdc, nalType, firstMb, rawType, ppsId), p6)
  }

  /** What of a lead the rest depends on. */
  datatype Slice = Slice(nalRefIdc: nat, nalType: nat, rawType: nat, ppsId: nat)

  function SliceOf(lead: Lead): Slice {
    Slice(lead.nalRefIdc, lead.nalType, lead.rawType, lead.ppsId)
  }

  function LeadCode(v: Lead): seq<bool> {
    v.forbiddenZero + (Binary(v.nalRefIdc, 2) + (Binary(v.nalType, 5) + (UeCode(v.firstMb) + (UeCode(v.rawType) + UeCode(v.ppsId)))))
  }

  predicate LeadOk(v: Lead) {
    && |v.forbiddenZero| == 1 && v.nalRefIdc < Pow2(2) && v.nalType < Pow2(5) && (v.nalType == 1 || v.nalType == 5)
    && v.firstMb <= UE_MAX && v.rawType <= 9 && v.ppsId <= UE_MAX
  }

  // ----- The picture -----

  datatype Picture = Picture(colourPlane: seq<bool>, frameNum: seq<bool>, fieldPic: bool, bottomField: seq<bool>, idrPicId: nat)

  function PictureAt(t: seq<bool>, p: nat, c: Context): (r: Read<Picture>)
    ensures r.Got? ==> p <= r.at
  {
    var (colourPlane, p1) :- SkipAt(t, p, if c.sps.separateColourPlane then 2 else 0);
    var (frameNum, p2) :- SkipAt(t, p1, c.sps.log2MaxFrameNum);
    var (fieldPic, p3) :- FlagAt(t, p2, !c.sps.frameMbsOnly);
    var (bottomField, p4) :- SkipAt(t, p3, if fieldPic then 1 else 0);
    var (idrPicId, p5) :- OptUeAt(t, p4, c.Idr());
    Got(Picture(colourPlane, frameNum, fieldPic, bottomField, idrPicId), p5)
  }

  function PictureCode(c: Context, v: Picture): seq<bool> {
    v.colourPlane + (v.frameNum + (FlagCode(!c.sps.frameMbsOnly, v.fieldPic) + (v.bottomField + OptUeCode(c.Idr(), v.idrPicId))))
  }

  predicate PictureOk(c: Context, v: Picture) {
    && |v.colourPlane| == (if c.sps.separateColourPlane then 2 else 0) && |v.frameNum| == c.sps.log2MaxFrameNum
    && (v.fieldPic ==> !c.sps.frameMbsOnly) && |v.bottomField| == (if v.fieldPic then 1 else 0)
    && OptUeOk(c.Idr(), v.idrPicId)
  }

  /** Picture order count, and the redundant picture's number. */
  datatype Order = Order(pocLsb: seq<bool>, deltaBottom: int, delta0: int, delta1: int, redundantPicCnt: nat)

  predicate HasBottom(c: Context, fieldPic: bool) {
    c.pps.bottomFieldPicOrderInFramePresent && !fieldPic
  }

  predicate HasDeltas(c: Context) {
    c.sps.pocType == 1 && !c.sps.deltaPicOrderAlwaysZero
  }

  function OrderAt(t: seq<bool>, p: nat, c: Context, fieldPic: bool): (r: Read<Order>)
    ensures r.Got? ==> p <= r.at
  {
    var (pocLsb, p1) :- SkipAt(t, p, if c.sps.pocType == 0 then c.sps.log2MaxPocLsb else 0);
    var (deltaBottom, p2) :- OptSeAt(t, p1, c.sps.pocType == 0 && HasBottom(c, fieldPic));
    var (delta0, p3) :- OptSeAt(t, p2, HasDeltas(c));
    var (delta1, p4) :- OptSeAt(t, p3, HasDeltas(c) && HasBottom(c, fieldPic));
    var (redundant, p5) :- OptUeAt(t, p4, c.pps.redundantPicCntPresent);
    Got(Order(pocLsb, deltaBottom, delta0, delta1, redundant), p5)
  }

  function OrderCode(c: Context, fieldPic: bool, v: Order): seq<bool> {
    v.pocLsb + (OptSeCode(c.sps.pocType == 0 && HasBottom(c, fieldPic), v.deltaBottom)
                + (OptSeCode(HasDeltas(c), v.delta0)
                   + (OptSeCode(HasDeltas(c) && HasBottom(c, fieldPic), v.delta1)
                      + OptUeCode(c.pps.redundantPicCntPresent, v.redundantPicCnt))))
  }

  predicate OrderOk(c: Context, fieldPic: bool, v: Order) {
    && |v.pocLsb| == (if c.sps.pocType == 0 then c.sps.log2MaxPocLsb else 0)
    && OptSeOk(c.sps.pocType == 0 && HasBottom(c, fieldPic), v.deltaBottom)
    && OptSeOk(HasDeltas(c), v.delta0) && OptSeOk(HasDeltas(c) && HasBottom(c, fieldPic), v.delta1)
    && OptUeOk(c.pps.redundantPicCntPresent, v.redundantPicCnt)
  }

  // ----- References -----

  /** Reference counts less one where they override the defaults, and changes to the reference lists. */
  datatype References = References(direct: seq<bool>, counts: seq<nat>, list0: Option<seq<Op>>, list1: Option<seq<Op>>)

  predicate CountsFit(counts: seq<nat>) {
    forall i :: 0 <= i < |counts| ==> counts[i] <= 31
  }

  /** A flag, and the counts that override the defaults if it is set. */
  function CountsAt(t: seq<bool>, p: nat, c: Context): (r: Read<seq<nat>>)
    ensures r.Got? ==> p <= r.at
  {
    var (flag, p1) :- FlagAt(t, p, c.P() || c.Sp() || c.B());
    var (counts, p2) :- UesAt(t, p1, if !flag then 0 else if c.B() then 2 else 1);
    if CountsFit(counts) then Got(counts, p2) else Bad
  }

  function CountsCode(c: Context, v: seq<nat>): seq<bool> {
    FlagCode(c.P() || c.Sp() || c.B(), v != []) + UesCode(v)
  }

  predicate CountsOk(c: Context, v: seq<nat>) {
    CountsFit(v) && (v == [] || ((c.P() || c.Sp() || c.B()) && |v| == if c.B() then 2 else 1))
  }

  const MAX_OPERATIONS: nat := 64

  function FlaggedOpsAt(t: seq<bool>, p: nat, present: bool, kind: OpKind): (r: Read<Option<seq<Op>>>)
    ensures r.Got? ==> p <= r.at
  {
    var (flag, p1) :- FlagAt(t, p, present);
    if !flag then Got(None, p1)
    else
      var (ops, p2) :- OpsAt(t, p1, kind, MAX_OPERATIONS + 1);
      Got(Some(ops), p2)
  }

  function FlaggedOpsCode(present: bool, kind: OpKind, v: Option<seq<Op>>): seq<bool> {
    FlagCode(present, v.Some?) + (if v.Some? then OpsCode(kind, v.value) else [])
  }

  predicate FlaggedOpsOk(present: bool, kind: OpKind, v: Option<seq<Op>>) {
    v.Some? ==> present && OpsOk(kind, MAX_OPERATIONS + 1, v.value)
  }

  function ReferencesAt(t: seq<bool>, p: nat, c: Context): (r: Read<References>)
    ensures r.Got? ==> p <= r.at
  {
    var (direct, p1) :- SkipAt(t, p, if c.B() then 1 else 0);
    var (counts, p2) :- CountsAt(t, p1, c);
    var (list0, p3) :- FlaggedOpsAt(t, p2, !c.Intra(), Modification);
    var (list1, p4) :- FlaggedOpsAt(t, p3, !c.Intra() && c.B(), Modification);
    Got(References(direct, counts, list0, list1), p4)
  }

  function ReferencesCode(c: Context, v: References): seq<bool> {
    v.direct + (CountsCode(c, v.counts) + (FlaggedOpsCode(!c.Intra(), Modification, v.list0)
                                           + FlaggedOpsCode(!c.Intra() && c.B(), Modification, v.list1)))
  }

  predicate ReferencesOk(c: Context, v: References) {
    && |v.direct| == (if c.B() then 1 else 0) && CountsOk(c, v.counts)
    && FlaggedOpsOk(!c.Intra(), Modification, v.list0) && FlaggedOpsOk(!c.Intra() && c.B(), Modification, v.list1)
  }

  /** How many references the weight table covers, in both lists. */
  function ActiveReferences(c: Context, counts: seq<nat>): nat {
    var l0 := if counts != [] then counts[0] + 1 else c.pps.numRefIdxL0Default;
    var l1 := if !c.B() then 0 else if |counts| > 1 then counts[1] + 1 else c.pps.numRefIdxL1Default;
    Min(l0 + l1, U32_MAX)
  }

  // ----- Prediction weights -----

  datatype Weight = Weight(luma: seq<int>, chroma: seq<int>)

  datatype Weights = Weights(lumaDenom: nat, chromaDenom: nat, entries: seq<Weight>)

  function EntriesAt(t: seq<bool>, p: nat, chroma: bool, n: nat): (r: Read<seq<Weight>>)
    ensures r.Got? ==> p <= r.at
    decreases n
  {
    if n == 0 then Got([], p)
    else
      var (luma, p1) :- FlaggedSesAt(t, p, true, 2);
      var (chromaWeights, p2) :- FlaggedSesAt(t, p1, chroma, 4);
      var (rest, end) :- EntriesAt(t, p2, chroma, n - 1);
      Got([Weight(luma, chromaWeights)] + rest, end)
  }

  function EntryCode(chroma: bool, v: Weight): seq<bool> {
    FlaggedSesCode(true, v.luma) + FlaggedSesCode(chroma, v.chroma)
  }

  function EntriesCode(chroma: bool, v: seq<Weight>): seq<bool> {
    if v == [] then [] else EntryCode(chroma, v[0]) + EntriesCode(chroma, v[1..])
  }

  predicate EntryOk(chroma: bool, v: Weight) {
    FlaggedSesOk(true, 2, v.luma) && FlaggedSesOk(chroma, 4, v.chroma)
  }

  predicate EntriesOk(chroma: bool, n: nat, v: seq<Weight>) {
    |v| == n && forall i :: 0 <= i < n ==> EntryOk(chroma, v[i])
  }

  function WeightsAt(t: seq<bool>, p: nat, c: Context, counts: seq<nat>): (r: Read<Weights>)
    ensures r.Got? ==> p <= r.at
  {
    var (lumaDenom, p1) :- OptUeAt(t, p, c.Weighted());
    var (chromaDenom, p2) :- OptUeAt(t, p1, c.Weighted() && c.Chroma());
    var (entries, p3) :- EntriesAt(t, p2, c.Chroma(), if c.Weighted() then ActiveReferences(c, counts) else 0);
    Got(Weights(lumaDenom, chromaDenom, entries), p3)
  }

  function WeightsCode(c: Context, v: Weights): seq<bool> {
    OptUeCode(c.Weighted(), v.lumaDenom) + (OptUeCode(c.Weighted() && c.Chroma(), v.chromaDenom) + EntriesCode(c.Chroma(), v.entries))
  }

  predicate WeightsOk(c: Context, counts: seq<nat>, v: Weights) {
    && OptUeOk(c.Weighted(), v.lumaDenom) && OptUeOk(c.Weighted() && c.Chroma(), v.chromaDenom)
    && EntriesOk(c.Chroma(), if c.Weighted() then ActiveReferences(c, counts) else 0, v.entries)
  }

  // ----- The end -----


  datatype Marks = Marks(idrFlags: seq<bool>, marking: Option<seq<Op>>)

  function MarksAt(t: seq<bool>, p: nat, c: Context): (r: Read<Marks>)
    ensures r.Got? ==> p <= r.at
  {
    var (idrFlags, p1) :- SkipAt(t, p, if c.nalRefIdc != 0 && c.Idr() then 2 else 0);
    var (marking, p2) :- FlaggedOpsAt(t, p1, c.nalRefIdc != 0 && !c.Idr(), OpKind.Marking);
    Got(Marks(idrFlags, marking), p2)
  }

  function MarksCode(c: Context, v: Marks): seq<bool> {
    v.idrFlags + FlaggedOpsCode(c.nalRefIdc != 0 && !c.Idr(), OpKind.Marking, v.marking)
  }

  predicate MarksOk(c: Context, v: Marks) {
    && |v.idrFlags| == (if c.nalRefIdc != 0 && c.Idr() then 2 else 0)
    && FlaggedOpsOk(c.nalRefIdc != 0 && !c.Idr(), OpKind.Marking, v.marking)
  }

  datatype Quantisers = Quantisers(cabacInitIdc: nat, qpDelta: int, spForSwitch: seq<bool>, qsDelta: int)

  function QuantisersAt(t: seq<bool>, p: nat, c: Context): (r: Read<Quantisers>)
    ensures r.Got? ==> p <= r.at
  {
    var (cabac, p1) :- OptUeAt(t, p, c.pps.entropyCoding && !c.Intra());
    var (qpDelta, p2) :- SeAt(t, p1);
    var (spForSwitch, p3) :- SkipAt(t, p2, if c.Sp() then 1 else 0);
    var (qsDelta, p4) :- OptSeAt(t, p3, c.Sp() || c.Si());
    Got(Quantisers(cabac, qpDelta, spForSwitch, qsDelta), p4)
  }

  function QuantisersCode(c: Context, v: Quantisers): seq<bool> {
    OptUeCode(c.pps.entropyCoding && !c.Intra(), v.cabacInitIdc)
    + (SeCode(v.qpDelta) + (v.spForSwitch + OptSeCode(c.Sp() || c.Si(), v.qsDelta)))
  }

  predicate QuantisersOk(c: Context, v: Quantisers) {
    && OptUeOk(c.pps.entropyCoding && !c.Intra(), v.cabacInitIdc) && -SE_MAX <= v.qpDelta <= SE_MAX
    && |v.spForSwitch| == (if c.Sp() then 1 else 0) && OptSeOk(c.Sp() || c.Si(), v.qsDelta)
  }

  datatype Deblocking = Deblocking(disable: nat, offsets: seq<int>)

  function DeblockingAt(t: seq<bool>, p: nat, c: Context): (r: Read<Deblocking>)
    ensures r.Got? ==> p <= r.at
  {
    var present := c.pps.deblockingFilterControlPresent;
    var (disable, p1) :- OptUeAt(t, p, present);
    var (offsets, p2) :- SesAt(t, p1, if present && disable != 1 then 2 else 0);
    Got(Deblocking(disable, offsets), p2)
  }

  function DeblockingCode(c: Context, v: Deblocking): seq<bool> {
    OptUeCode(c.pps.deblockingFilterControlPresent, v.disable) + SesCode(v.offsets)
  }

  predicate DeblockingOk(c: Context, v: Deblocking) {
    && OptUeOk(c.pps.deblockingFilterControlPresent, v.disable)
    && SesOk(v.offsets, if c.pps.deblockingFilterControlPresent && v.disable != 1 then 2 else 0)
  }

  // ----- The whole header -----

  datatype Body = Body(picture: Picture, order: Order, references: References, weights: Weights, marks: Marks,
                       quantisers: Quantisers, deblocking: Deblocking)

  datatype Header = Header(lead: Lead, body: Body)

  function BodyAt(t: seq<bool>, p: nat, c: Context): (r: Read<Body>)
    ensures r.Got? ==> p <= r.at
  {
    var (picture, p1) :- PictureAt(t, p, c);
    var (order, p2) :- OrderAt(t, p1, c, picture.fieldPic);
    var (references, p3) :- ReferencesAt(t, p2, c);
    var (weights, p4) :- WeightsAt(t, p3, c, references.counts);
    var (marks, p5) :- MarksAt(t, p4, c);
    var (quantisers, p6) :- QuantisersAt(t, p5, c);
    var (deblocking, p7) :- DeblockingAt(t, p6, c);
    Got(Body(picture, order, references, weights, marks, quantisers, deblocking), p7)
  }

  function BodyCode(c: Context, v: Body): seq<bool> {
    PictureCode(c, v.picture)
    + (OrderCode(c, v.picture.fieldPic, v.order)
       + (ReferencesCode(c, v.references)
          + (WeightsCode(c, v.weights)
             + (MarksCode(c, v.marks) + (QuantisersCode(c, v.quantisers) + DeblockingCode(c, v.deblocking))))))
  }

  predicate BodyOk(c: Context, v: Body) {
    && PictureOk(c, v.picture) && OrderOk(c, v.picture.fieldPic, v.order) && ReferencesOk(c, v.references)
    && WeightsOk(c, v.references.counts, v.weights) && MarksOk(c, v.marks) && QuantisersOk(c, v.quantisers)
    && DeblockingOk(c, v.deblocking)
  }

  /** The parameter sets a slice names. */
  function ContextOf(ps: Parameters, s: Slice): Option<Context> {
    if s.ppsId !in ps.pps then None
    else
      var pps := ps.pps[s.ppsId];
      if pps.spsId !in ps.sps then None
      else Some(Context(ps.sps[pps.spsId], pps, s.nalRefIdc, s.nalType, s.rawType % 5))
  }

  function HeaderAt(t: seq<bool>, p: nat, ps: Parameters): (r: Read<Header>)
    ensures r.Got? ==> p <= r.at
  {
    var (lead, p1) :- LeadAt(t, p);
    match ContextOf(ps, SliceOf(lead))
    case None => Bad
    case Some(c) =>
      var (body, p2) :- BodyAt(t, p1, c);
      Got(Header(lead, body), p2)
  }

  function HeaderCode(ps: Parameters, v: Header): seq<bool> {
    LeadCode(v.lead) + (match ContextOf(ps, SliceOf(v.lead)) case None => [] case Some(c) => BodyCode(c, v.body))
  }

  /** A header of section 7.3.3 under these parameter sets. */
  predicate HeaderOk(ps: Parameters, v: Header) {
    LeadOk(v.lead) && ContextOf(ps, SliceOf(v.lead)).Some? && BodyOk(ContextOf(ps, SliceOf(v.lead)).value, v.body)
  }

  // ----- Reading is exactly the inverse of writing -----

  lemma {:induction false} LeadExact(t: seq<bool>, p: nat, v: Lead)
    ensures Reads(LeadAt(t, p), t, p, v, LeadOk(v), LeadCode(v))
  {
    hide On, SkipAt, BitsAt, UeAt, UeCode, Binary, Pow2;
    var c2, c3, c4, c5, c6 := Binary(v.nalRefIdc, 2), Binary(v.nalType, 5), UeCode(v.firstMb), UeCode(v.rawType), UeCode(v.ppsId);
    var p1 := p + |v.forbiddenZero|;
    OnSplit(t, p, v.forbiddenZero, c2 + (c3 + (c4 + (c5 + c6))));
    OnSplit(t, p1, c2, c3 + (c4 + (c5 + c6)));
    OnSplit(t, p1 + 2, c3, c4 + (c5 + c6));
    OnSplit(t, p1 + 7, c4, c5 + c6);
    OnSplit(t, p1 + 7 + |c4|, c5, c6);
    SkipExact(t, p, 1, v.forbiddenZero);
    BitsExact(t, p1, 2, v.nalRefIdc);
    BitsExact(t, p1 + 2, 5, v.nalType);
    UeExact(t, p1 + 7, v.firstMb);
    UeExact(t, p1 + 7 + |c4|, v.rawType);
    UeExact(t, p1 + 7 + |c4| + |c5|, v.ppsId);
  }

  lemma {:induction false} PictureExact(t: seq<bool>, p: nat, c: Context, v: Picture)
    ensures Reads(PictureAt(t, p, c), t, p, v, PictureOk(c, v), PictureCode(c, v))
  {
    hide On, SkipAt, FlagAt, FlagCode, OptUeAt, OptUeCode, OptUeOk;
    var c3, c5 := FlagCode(!c.sps.frameMbsOnly, v.fieldPic), OptUeCode(c.Idr(), v.idrPicId);
    var p1 := p + |v.colourPlane|;
    var p2 := p1 + |v.frameNum|;
    var p3 := p2 + |c3|;
    var p4 := p3 + |v.bottomField|;
    OnSplit(t, p, v.colourPlane, v.frameNum + (c3 + (v.bottomField + c5)));
    OnSplit(t, p1, v.frameNum, c3 + (v.bottomField + c5));
    OnSplit(t, p2, c3, v.bottomField + c5);
    OnSplit(t, p3, v.bottomField, c5);
    SkipExact(t, p, if c.sps.separateColourPlane then 2 else 0, v.colourPlane);
    SkipExact(t, p1, c.sps.log2MaxFrameNum, v.frameNum);
    SkipExact(t, p3, if v.fieldPic then 1 else 0, v.bottomField);
    if p2 <= |t| {
      FlagExact(t, p2, !c.sps.frameMbsOnly, v.fieldPic);
    }
    if p4 <= |t| {
      OptUeExact(t, p4, c.Idr(), v.idrPicId);
    }
  }

  lemma {:induction false} OrderExact(t: seq<bool>, p: nat, c: Context, fieldPic: bool, v: Order)
    ensures Reads(OrderAt(t, p, c, fieldPic), t, p, v, OrderOk(c, fieldPic, v), OrderCode(c, fieldPic, v))
  {
    hide On, SkipAt, OptUeAt, OptUeCode, OptUeOk, OptSeAt, OptSeCode, OptSeOk, HasBottom, HasDeltas;
    var h2, h3, h4 := c.sps.pocType == 0 && HasBottom(c, fieldPic), HasDeltas(c), HasDeltas(c) && HasBottom(c, fieldPic);
    var h5 := c.pps.redundantPicCntPresent;
    var c2, c3, c4, c5 := OptSeCode(h2, v.deltaBottom), OptSeCode(h3, v.delta0), OptSeCode(h4, v.delta1), OptUeCode(h5, v.redundantPicCnt);
    var p1 := p + |v.pocLsb|;
    var p2 := p1 + |c2|;
    var p3 := p2 + |c3|;
    var p4 := p3 + |c4|;
    OnSplit(t, p, v.pocLsb, c2 + (c3 + (c4 + c5)));
    OnSplit(t, p1, c2, c3 + (c4 + c5));
    OnSplit(t, p2, c3, c4 + c5);
    OnSplit(t, p3, c4, c5);
    SkipExact(t, p, if c.sps.pocType == 0 then c.sps.log2MaxPocLsb else 0, v.pocLsb);
    if p1 <= |t| {
      OptSeExact(t, p1, h2, v.deltaBottom);
    }
    if p2 <= |t| {
      OptSeExact(t, p2, h3, v.delta0);
    }
    if p3 <= |t| {
      OptSeExact(t, p3, h4, v.delta1);
    }
    if p4 <= |t| {
      OptUeExact(t, p4, h5, v.redundantPicCnt);
    }
  }

  lemma {:induction false} CountsExact(t: seq<bool>, p: nat, c: Context, v: seq<nat>)
    requires p <= |t|
    ensures Reads(CountsAt(t, p, c), t, p, v, CountsOk(c, v), CountsCode(c, v))
  {
    hide On, FlagAt, UesAt, UesCode;
    var present, flag := c.P() || c.Sp() || c.B(), FlagCode(c.P() || c.Sp() || c.B(), v != []);
    FlagExact(t, p, present, v != []);
    FlagExact(t, p, present, v == []);
    OnSplit(t, p, flag, UesCode(v));
    if p + |flag| <= |t| {
      UesExact(t, p + |flag|, if v == [] then 0 else if c.B() then 2 else 1, v);
    }
  }

  lemma {:induction false} FlaggedOpsExact(t: seq<bool>, p: nat, present: bool, kind: OpKind, v: Option<seq<Op>>)
    requires p <= |t|
    ensures Reads(FlaggedOpsAt(t, p, present, kind), t, p, v, FlaggedOpsOk(present, kind, v), FlaggedOpsCode(present, kind, v))
  {
    hide FlagAt, OpsAt, OpsCode, OpsOk;
    var flag := FlagCode(present, v.Some?);
    FlagExact(t, p, present, v.Some?);
    FlagExact(t, p, present, v.None?);
    OnSplit(t, p, flag, if v.Some? then OpsCode(kind, v.value) else []);
    if v.Some? && p + |flag| <= |t| {
      OpsExact(t, p + |flag|, kind, MAX_OPERATIONS + 1, v.value);
    }
  }

  lemma {:induction false} ReferencesExact(t: seq<bool>, p: nat, c: Context, v: References)
    ensures Reads(ReferencesAt(t, p, c), t, p, v, ReferencesOk(c, v), ReferencesCode(c, v))
  {
    hide On, SkipAt, CountsAt, CountsCode, CountsOk, FlaggedOpsAt, FlaggedOpsCode, FlaggedOpsOk;
    var h3, h4 := !c.Intra(), !c.Intra() && c.B();
    var c2, c3, c4 := CountsCode(c, v.counts), FlaggedOpsCode(h3, Modification, v.list0), FlaggedOpsCode(h4, Modification, v.list1);
    var p1 := p + |v.direct|;
    var p2 := p1 + |c2|;
    var p3 := p2 + |c3|;
    OnSplit(t, p, v.direct, c2 + (c3 + c4));
    OnSplit(t, p1, c2, c3 + c4);
    OnSplit(t, p2, c3, c4);
    SkipExact(t, p, if c.B() then 1 else 0, v.direct);
    if p1 <= |t| {
      CountsExact(t, p1, c, v.counts);
    }
    if p2 <= |t| {
      FlaggedOpsExact(t, p2, h3, Modification, v.list0);
    }
    if p3 <= |t| {
      FlaggedOpsExact(t, p3, h4, Modification, v.list1);
    }
  }

  lemma {:induction false} EntriesExact(t: seq<bool>, p: nat, chroma: bool, n: nat, v: seq<Weight>)
    requires p <= |t|
    ensures Reads(EntriesAt(t, p, chroma, n), t, p, v, EntriesOk(chroma, n, v), EntriesCode(chroma, v))
    decreases n
  {
    hide FlaggedSesAt, FlaggedSesCode, FlaggedSesOk;
    if n == 0 || v == [] {
      assert t[p..p] == [];
    } else {
      var first := v[0];
      var luma, weights := FlaggedSesCode(true, first.luma), FlaggedSesCode(chroma, first.chroma);
      FlaggedSesExact(t, p, true, 2, first.luma);
      OnSplit(t, p, luma, weights);
      OnSplit(t, p, luma + weights, EntriesCode(chroma, v[1..]));
      if p + |luma| <= |t| {
        FlaggedSesExact(t, p + |luma|, chroma, 4, first.chroma);
      }
      if p + |luma| + |weights| <= |t| {
        EntriesExact(t, p + |luma| + |weights|, chroma, n - 1, v[1..]);
      }
      Headed(v);
    }
  }

  lemma {:induction false} WeightsExact(t: seq<bool>, p: nat, c: Context, counts: seq<nat>, v: Weights)
    requires p <= |t|
    ensures Reads(WeightsAt(t, p, c, counts), t, p, v, WeightsOk(c, counts, v), WeightsCode(c, v))
  {
    hide On, OptUeAt, OptUeCode, OptUeOk, EntriesAt, EntriesCode, EntriesOk, ActiveReferences;
    var c1, c2 := OptUeCode(c.Weighted(), v.lumaDenom), OptUeCode(c.Weighted() && c.Chroma(), v.chromaDenom);
    var p1 := p + |c1|;
    var p2 := p1 + |c2|;
    OnSplit(t, p, c1, c2 + EntriesCode(c.Chroma(), v.entries));
    OnSplit(t, p1, c2, EntriesCode(c.Chroma(), v.entries));
    OptUeExact(t, p, c.Weighted(), v.lumaDenom);
    if p1 <= |t| {
      OptUeExact(t, p1, c.Weighted() && c.Chroma(), v.chromaDenom);
    }
    if p2 <= |t| {
      EntriesExact(t, p2, c.Chroma(), if c.Weighted() then ActiveReferences(c, counts) else 0, v.entries);
    }
  }

  lemma {:induction false} MarksExact(t: seq<bool>, p: nat, c: Context, v: Marks)
    ensures Reads(MarksAt(t, p, c), t, p, v, MarksOk(c, v), MarksCode(c, v))
  {
    hide On, SkipAt, FlaggedOpsAt, FlaggedOpsCode, FlaggedOpsOk;
    var h2 := c.nalRefIdc != 0 && !c.Idr();
    OnSplit(t, p, v.idrFlags, FlaggedOpsCode(h2, OpKind.Marking, v.marking));
    SkipExact(t, p, if c.nalRefIdc != 0 && c.Idr() then 2 else 0, v.idrFlags);
    if p + |v.idrFlags| <= |t| {
      FlaggedOpsExact(t, p + |v.idrFlags|, h2, OpKind.Marking, v.marking);
    }
  }

  lemma {:induction false} QuantisersExact(t: seq<bool>, p: nat, c: Context, v: Quantisers)
    requires p <= |t|
    ensures Reads(QuantisersAt(t, p, c), t, p, v, QuantisersOk(c, v), QuantisersCode(c, v))
  {
    hide On, SkipAt, SeAt, SeCode, OptUeAt, OptUeCode, OptUeOk, OptSeAt, OptSeCode, OptSeOk;
    var h1, h4 := c.pps.entropyCoding && !c.Intra(), c.Sp() || c.Si();
    var c1, c2, c4 := OptUeCode(h1, v.cabacInitIdc), SeCode(v.qpDelta), OptSeCode(h4, v.qsDelta);
    var p1 := p + |c1|;
    var p2 := p1 + |c2|;
    var p3 := p2 + |v.spForSwitch|;
    OnSplit(t, p, c1, c2 + (v.spForSwitch + c4));
    OnSplit(t, p1, c2, v.spForSwitch + c4);
    OnSplit(t, p2, v.spForSwitch, c4);
    OptUeExact(t, p, h1, v.cabacInitIdc);
    SeExact(t, p1, v.qpDelta);
    SkipExact(t, p2, if c.Sp() then 1 else 0, v.spForSwitch);
    if p3 <= |t| {
      OptSeExact(t, p3, h4, v.qsDelta);
    }
  }

  lemma {:induction false} DeblockingExact(t: seq<bool>, p: nat, c: Context, v: Deblocking)
    requires p <= |t|
    ensures Reads(DeblockingAt(t, p, c), t, p, v, DeblockingOk(c, v), DeblockingCode(c, v))
  {
    hide On, OptUeAt, OptUeCode, OptUeOk, SesAt, SesCode, SesOk;
    var present := c.pps.deblockingFilterControlPresent;
    var c1 := OptUeCode(present, v.disable);
    OnSplit(t, p, c1, SesCode(v.offsets));
    OptUeExact(t, p, present, v.disable);
    if p + |c1| <= |t| {
      SesExact(t, p + |c1|, if present && v.disable != 1 then 2 else 0, v.offsets);
    }
  }

  lemma {:induction false} BodyExact(t: seq<bool>, p: nat, c: Context, v: Body)
    ensures Reads(BodyAt(t, p, c), t, p, v, BodyOk(c, v), BodyCode(c, v))
  {
    hide On, PictureAt, PictureCode, PictureOk, OrderAt, OrderCode, OrderOk, ReferencesAt, ReferencesCode, ReferencesOk, WeightsAt, WeightsCode,
      WeightsOk, MarksAt, MarksCode, MarksOk, QuantisersAt, QuantisersCode, QuantisersOk, DeblockingAt, DeblockingCode, DeblockingOk;
    var c1, c2, c3 := PictureCode(c, v.picture), OrderCode(c, v.picture.fieldPic, v.order), ReferencesCode(c, v.references);
    var c4, c5, c6, c7 := WeightsCode(c, v.weights), MarksCode(c, v.marks), QuantisersCode(c, v.quantisers), DeblockingCode(c, v.deblocking);
    var p1 := p + |c1|;
    var p2 := p1 + |c2|;
    var p3 := p2 + |c3|;
    var p4 := p3 + |c4|;
    var p5 := p4 + |c5|;
    var p6 := p5 + |c6|;
    OnSplit(t, p, c1, c2 + (c3 + (c4 + (c5 + (c6 + c7)))));
    OnSplit(t, p1, c2, c3 + (c4 + (c5 + (c6 + c7))));
    OnSplit(t, p2, c3, c4 + (c5 + (c6 + c7)));
    OnSplit(t, p3, c4, c5 + (c6 + c7));
    OnSplit(t, p4, c5, c6 + c7);
    OnSplit(t, p5, c6, c7);
    PictureExact(t, p, c, v.picture);
    OrderExact(t, p1, c, v.picture.fieldPic, v.order);
    ReferencesExact(t, p2, c, v.references);
    MarksExact(t, p4, c, v.marks);
    if p3 <= |t| {
      WeightsExact(t, p3, c, v.references.counts, v.weights);
    }
    if p5 <= |t| {
      QuantisersExact(t, p5, c, v.quantisers);
    }
    if p6 <= |t| {
      DeblockingExact(t, p6, c, v.deblocking);
    }
  }

  /**
   The parser reads a header exactly where that header is written, under any parameter sets and
   before any bits, and stops precisely at its end.
   */
  lemma {:induction false} HeaderExact(t: seq<bool>, p: nat, ps: Parameters, v: Header)
    ensures Reads(HeaderAt(t, p, ps), t, p, v, HeaderOk(ps, v), HeaderCode(ps, v))
  {
    hide On, LeadAt, LeadCode, LeadOk, BodyAt, BodyCode, BodyOk, ContextOf;
    LeadExact(t, p, v.lead);
    match ContextOf(ps, SliceOf(v.lead))
    case None =>
    case Some(c) =>
      OnSplit(t, p, LeadCode(v.lead), BodyCode(c, v.body));
      BodyExact(t, p + |LeadCode(v.lead)|, c, v.body);
  }

  // ----- The source's reader -----

  method ReadLead(r: BitReader) returns (res: Result<Slice>)
    requires r.Valid()
    modifies r
    ensures r.Valid() && r.Passes(res, LeadAt(r.tape, old(r.bit)))
    ensures res.Ok? ==> res.value == SliceOf(LeadAt(r.tape, old(r.bit)).value)
  {
    hide SkipAt, BitsAt, UeAt, BitsOf;
    var _ :- r.Skip(1);
    var nalRefIdc :- r.Bits(2);
    var nalType :- r.Bits(5);
    if nalType != 1 && nalType != 5 {
      return Err;
    }
    var _ :- r.Ue();
    var rawType :- r.Ue();
    if rawType > 9 {
      return Err;
    }
    var ppsId :- r.Ue();
    return Ok(Slice(nalRefIdc, nalType, rawType, ppsId));
  }

  /** Gives `field_pic_flag`. */
  method ReadPicture(r: BitReader, c: Context) returns (res: Result<bool>)
    requires r.Valid()
    modifies r
    ensures r.Valid() && r.Passes(res, PictureAt(r.tape, old(r.bit), c))
    ensures res.Ok? ==> res.value == PictureAt(r.tape, old(r.bit), c).value.fieldPic
  {
    hide UeAt, BitsOf;
    if c.sps.separateColourPlane {
      var _ :- r.Skip(2);
    }
    var _ :- r.Skip(c.sps.log2MaxFrameNum);
    var fieldPic := false;
    if !c.sps.frameMbsOnly {
      fieldPic :- r.Bit();
      if fieldPic {
        var _ :- r.Skip(1);
      }
    }
    if c.nalType == 5 {
      var _ :- r.Ue();
    }
    return Ok(fieldPic);
  }

  method ReadOrder(r: BitReader, c: Context, fieldPic: bool) returns (res: Result<()>)
    requires r.Valid()
    modifies r
    ensures r.Valid() && r.Passes(res, OrderAt(r.tape, old(r.bit), c, fieldPic))
  {
    hide UeAt, SeAt, BitsOf;
    if c.sps.pocType == 0 {
      var _ :- r.Skip(c.sps.log2MaxPocLsb);
      if c.pps.bottomFieldPicOrderInFramePresent && !fieldPic {
        var _ :- r.Se();
      }
    }
    if c.sps.pocType == 1 && !c.sps.deltaPicOrderAlwaysZero {
      var _ :- r.Se();
      if c.pps.bottomFieldPicOrderInFramePresent && !fieldPic {
        var _ :- r.Se();
      }
    }
    if c.pps.redundantPicCntPresent {
      var _ :- r.Ue();
    }
    return Ok(());
  }

  /** `ref_count`, less one as it is written. */
  method RefCount(r: BitReader) returns (res: Result<nat>)
    requires r.Valid()
    modifies r
    ensures r.Valid()
    ensures var spec := UeAt(r.tape, old(r.bit));
            if spec.Got? && spec.at <= 8 * |r.data| && spec.value <= 31 then res == Ok(spec.value) && r.bit == spec.at else res.Err?
  {
    hide UeAt, BitsOf;
    var count :- r.Ue();
    if count + 1 > 32 {
      return Err;
    }
    return Ok(count);
  }

  lemma {:induction false} OneUe(t: seq<bool>, p: nat)
    ensures UesAt(t, p, 0) == Got([], p)
    ensures UesAt(t, p, 1) == if UeAt(t, p).Bad? then Bad else Got([UeAt(t, p).value], UeAt(t, p).at)
  {
    hide UeAt;
    if UeAt(t, p).Got? {
      assert UesAt(t, UeAt(t, p).at, 0) == Got([], UeAt(t, p).at);
      assert [UeAt(t, p).value] + [] == [UeAt(t, p).value];
    }
  }

  lemma {:induction false} FewUes(t: seq<bool>, p: nat)
    ensures UesAt(t, p, 0) == Got([], p)
    ensures UesAt(t, p, 1) == if UeAt(t, p).Bad? then Bad else Got([UeAt(t, p).value], UeAt(t, p).at)
    ensures UesAt(t, p, 2) ==
            if UeAt(t, p).Bad? || UeAt(t, UeAt(t, p).at).Bad? then Bad
            else Got([UeAt(t, p).value, UeAt(t, UeAt(t, p).at).value], UeAt(t, UeAt(t, p).at).at)
  {
    hide UeAt;
    OneUe(t, p);
    if UeAt(t, p).Got? {
      var (x, at) := (UeAt(t, p).value, UeAt(t, p).at);
      OneUe(t, at);
      if UeAt(t, at).Got? {
        assert [x] + [UeAt(t, at).value] == [x, UeAt(t, at).value];
      }
    }
  }

  lemma {:induction false} FewCounts()
    ensures CountsFit([])
    ensures forall x: nat :: CountsFit([x]) <==> x <= 31
    ensures forall x: nat, y: nat :: CountsFit([x, y]) <==> x <= 31 && y <= 31
  {
    forall x: nat, y: nat ensures CountsFit([x, y]) <==> x <= 31 && y <= 31 {
      assert [x, y][0] == x && [x, y][1] == y;
    }
    forall x: nat ensures CountsFit([x]) <==> x <= 31 {
      assert [x][0] == x;
    }
  }

  /** Gives the overriding counts less one, none when the defaults hold. */
  method ReadCounts(r: BitReader, c: Context) returns (res: Result<seq<nat>>)
    requires r.Valid()
    modifies r
    ensures r.Valid() && r.Follows(res, CountsAt(r.tape, old(r.bit), c))
  {
    hide UeAt, UesAt, BitsOf, CountsFit;
    FewCounts();
    if c.P() || c.Sp() || c.B() {
      var override :- r.Bit();
      FewUes(r.tape, r.bit);
      if override {
        var l0 :- RefCount(r);
        if c.B() {
          var l1 :- RefCount(r);
          return Ok([l0, l1]);
        }
        return Ok([l0]);
      }
    } else {
      FewUes(r.tape, r.bit);
    }
    return Ok([]);
  }

  /** `list_modification` */
  method ListModification(r: BitReader) returns (res: Result<()>)
    requires r.Valid()
    modifies r
    ensures r.Valid() && r.Passes(res, FlaggedOpsAt(r.tape, old(r.bit), true, Modification))
  {
    hide UeAt, UesAt, BitsOf;
    var flag :- r.Bit();
    if !flag {
      return Ok(());
    }
    ghost var whole := OpsAt(r.tape, r.bit, Modification, MAX_OPERATIONS + 1);
    var left: nat := MAX_OPERATIONS + 1;
    while left > 0
      invariant r.Valid() && SameEnd(whole, OpsAt(r.tape, r.bit, Modification, left))
    {
      var op :- r.Ue();
      FewUes(r.tape, r.bit);
      if op <= 2 {
        var _ :- r.Ue();
      } else if op == 3 {
        return Ok(());
      } else {
        return Err;
      }
      left := left - 1;
    }
    return Err;
  }

  /** Gives the overriding counts, as `ReadCounts` does. */
  method ReadReferences(r: BitReader, c: Context) returns (res: Result<seq<nat>>)
    requires r.Valid()
    modifies r
    ensures r.Valid() && r.Passes(res, ReferencesAt(r.tape, old(r.bit), c))
    ensures res.Ok? ==> res.value == ReferencesAt(r.tape, old(r.bit), c).value.counts
  {
    hide CountsAt, FlaggedOpsAt, BitsOf;
    if c.B() {
      var _ :- r.Skip(1);
    }
    var counts :- ReadCounts(r, c);
    NoOps(r.tape, r.bit);
    if !c.Intra() {
      var _ :- ListModification(r);
      NoOps(r.tape, r.bit);
      if c.B() {
        var _ :- ListModification(r);
      }
    }
    return Ok(counts);
  }

  lemma {:induction false} NoOps(t: seq<bool>, p: nat)
    ensures FlaggedOpsAt(t, p, false, Modification) == Got(None, p) && FlaggedOpsAt(t, p, false, OpKind.Marking) == Got(None, p)
  {
  }

  /** A flag, and `count` signed elements if it is set. */
  method FlaggedSes(r: BitReader, count: nat) returns (res: Result<()>)
    requires r.Valid()
    modifies r
    ensures r.Valid() && r.Passes(res, FlaggedSesAt(r.tape, old(r.bit), true, count))
  {
    hide SesAt, BitsOf;
    var flag :- r.Bit();
    NoSes(r.tape, r.bit);
    if flag {
      res := SkipSes(r, count);
      return;
    }
    return Ok(());
  }

  lemma {:induction false} NoSes(t: seq<bool>, p: nat)
    ensures SesAt(t, p, 0) == Got([], p)
    ensures FlaggedSesAt(t, p, false, 4) == Got([], p)
  {
  }

  /** `pred_weight_table` over `count` references. */
  method PredWeightTable(r: BitReader, chroma: bool, count: nat) returns (res: Result<()>)
    requires r.Valid()
    modifies r
    ensures r.Valid()
    ensures var luma := UeAt(r.tape, old(r.bit));
            if luma.Bad? then res.Err?
            else
              var denom := OptUeAt(r.tape, luma.at, chroma);
              if denom.Bad? then res.Err? else r.Passes(res, EntriesAt(r.tape, denom.at, chroma, count))
  {
    hide UeAt, FlaggedSesAt, BitsOf;
    var _ :- r.Ue();
    if chroma {
      var _ :- r.Ue();
    }
    ghost var whole := EntriesAt(r.tape, r.bit, chroma, count);
    for i := 0 to count
      invariant r.Valid() && SameEnd(whole, EntriesAt(r.tape, r.bit, chroma, count - i))
    {
      var _ :- FlaggedSes(r, 2);
      NoSes(r.tape, r.bit);
      if chroma {
        var _ :- FlaggedSes(r, 4);
      }
    }
    return Ok(());
  }

  lemma {:induction false} NoEntries(t: seq<bool>, p: nat, chroma: bool)
    ensures EntriesAt(t, p, chroma, 0) == Got([], p)
  {
  }

  /** The weight table where the header has one, after the counts that apply are known. */
  method ReadWeights(r: BitReader, c: Context, counts: seq<nat>) returns (res: Result<()>)
    requires r.Valid()
    modifies r
    ensures r.Valid() && r.Passes(res, WeightsAt(r.tape, old(r.bit), c, counts))
  {
    hide UeAt, BitsOf, EntriesAt;
    NoEntries(r.tape, r.bit, c.Chroma());
    var l0, l1 := c.pps.numRefIdxL0Default, c.pps.numRefIdxL1Default;
    if |counts| > 0 {
      l0 := counts[0] + 1;
    }
    if |counts| > 1 {
      l1 := counts[1] + 1;
    }
    if (c.pps.weightedPred && (c.P() || c.Sp())) || (c.pps.weightedBipredIdc == 1 && c.B()) {
      res := PredWeightTable(r, c.Chroma(), Min(l0 + (if c.B() then l1 else 0), U32_MAX));
      return;
    }
    return Ok(());
  }

  /** `dec_ref_pic_marking` */
  method DecRefPicMarking(r: BitReader, idr: bool) returns (res: Result<()>)
    requires r.Valid()
    modifies r
    ensures r.Valid()
    ensures idr ==> r.Passes(res, SkipAt(r.tape, old(r.bit), 2))
    ensures !idr ==> r.Passes(res, FlaggedOpsAt(r.tape, old(r.bit), true, OpKind.Marking))
  {
    hide UeAt, UesAt, BitsOf;
    if idr {
      res := r.Skip(2);
      return;
    }
    var flag :- r.Bit();
    if !flag {
      return Ok(());
    }
    ghost var whole := OpsAt(r.tape, r.bit, OpKind.Marking, MAX_OPERATIONS + 1);
    var left: nat := MAX_OPERATIONS + 1;
    while left > 0
      invariant r.Valid() && SameEnd(whole, OpsAt(r.tape, r.bit, OpKind.Marking, left))
    {
      var op :- r.Ue();
      FewUes(r.tape, r.bit);
      if op == 0 {
        return Ok(());
      } else if op == 1 || op == 2 || op == 4 || op == 6 {
        var _ :- r.Ue();
      } else if op == 3 {
        var _ :- r.Ue();
        var _ :- r.Ue();
      } else if op != 5 {
        return Err;
      }
      left := left - 1;
    }
    return Err;
  }

  method ReadMarks(r: BitReader, c: Context) returns (res: Result<()>)
    requires r.Valid()
    modifies r
    ensures r.Valid() && r.Passes(res, MarksAt(r.tape, old(r.bit), c))
  {
    hide FlaggedOpsAt, BitsOf;
    NoOps(r.tape, r.bit);
    if c.nalRefIdc != 0 {
      res := DecRefPicMarking(r, c.nalType == 5);
      NoOps(r.tape, r.bit);
      return;
    }
    return Ok(());
  }

  method ReadQuantisers(r: BitReader, c: Context) returns (res: Result<()>)
    requires r.Valid()
    modifies r
    ensures r.Valid() && r.Passes(res, QuantisersAt(r.tape, old(r.bit), c))
  {
    hide UeAt, SeAt, BitsOf;
    if c.pps.entropyCoding && !c.I() && !c.Si() {
      var _ :- r.Ue();
    }
    var _ :- r.Se();
    if c.Sp() || c.Si() {
      if c.Sp() {
        var _ :- r.Skip(1);
      }
      var _ :- r.Se();
    }
    return Ok(());
  }

  method ReadDeblocking(r: BitReader, c: Context) returns (res: Result<()>)
    requires r.Valid()
    modifies r
    ensures r.Valid() && r.Passes(res, DeblockingAt(r.tape, old(r.bit), c))
  {
    hide UeAt, SesAt, BitsOf;
    NoSes(r.tape, r.bit);
    if c.pps.deblockingFilterControlPresent {
      var disable :- r.Ue();
      NoSes(r.tape, r.bit);
      if disable != 1 {
        res := SkipSes(r, 2);
        return;
      }
    }
    return Ok(());
  }

  /** The body of a header, once its parameter sets are known. */
  method ReadBody(r: BitReader, c: Context) returns (res: Result<()>)
    requires r.Valid()
    modifies r
    ensures r.Valid() && r.Passes(res, BodyAt(r.tape, old(r.bit), c))
  {
    hide PictureAt, OrderAt, ReferencesAt, WeightsAt, MarksAt, QuantisersAt, DeblockingAt, BitsOf;
    var fieldPic :- ReadPicture(r, c);
    var _ :- ReadOrder(r, c, fieldPic);
    var counts :- ReadReferences(r, c);
    var _ :- ReadWeights(r, c, counts);
    var _ :- ReadMarks(r, c);
    var _ :- ReadQuantisers(r, c);
    res := ReadDeblocking(r, c);
  }

  /** The RBSP bits of the NAL bytes that are looked at. */
  function TapeOf(nal: seq<byte>): seq<bool> {
    BitsOf(Unescaped(nal[..Min(|nal|, MAX_SLICE_HEADER_BYTES)]).bytes)
  }

  /** The length of the header that starts a tape, if one does. */
  function HeaderLength(t: seq<bool>, ps: Parameters): Result<nat> {
    var header := HeaderAt(t, 0, ps);
    if header.Got? then Ok(header.at) else Err
  }

  /** `header_bits` */
  method HeaderBits(ps: Parameters, nal: seq<byte>) returns (res: Result<nat>)
    ensures res == HeaderLength(TapeOf(nal), ps)
  {
    hide LeadAt, BodyAt, ContextOf, BitsOf, Unescaped;
    var rbsp := new Rbsp(nal, MAX_SLICE_HEADER_BYTES);
    var r := new BitReader(rbsp.bytes, BitsOf(rbsp.bytes));
    HeaderInside(BitsOf(rbsp.bytes), ps);
    var slice :- ReadLead(r);
    match ContextOf(ps, slice)
    case None => return Err;
    case Some(c) =>
      var _ :- ReadBody(r, c);
      return Ok(r.bit);
  }

  lemma {:induction false} HeaderInside(t: seq<bool>, ps: Parameters)
    ensures HeaderAt(t, 0, ps).Got? ==> HeaderAt(t, 0, ps).at <= |t|
  {
    hide HeaderAt, HeaderCode, HeaderOk;
    if HeaderAt(t, 0, ps).Got? {
      HeaderExact(t, 0, ps, HeaderAt(t, 0, ps).value);
    }
  }

  // ----- What the length found means -----

  lemma {:induction false} TapeIsPrefix(nal: seq<byte>)
    ensures TapeOf(nal) <= BitsOf(Unescaped(nal).bytes)
    ensures |TapeOf(nal)| <= 8 * MAX_SLICE_HEADER_BYTES
    ensures 3 * |TapeOf(nal)| >= 16 * Min(|nal|, MAX_SLICE_HEADER_BYTES)
  {
    hide BitsOf, Unescaped;
    var k := Min(|nal|, MAX_SLICE_HEADER_BYTES);
    UnescapedPrefix(nal, k);
    BitsOfPrefix(Unescaped(nal[..k]).bytes, Unescaped(nal).bytes);
    UnescapedKeeps(nal[..k]);
  }

  /**
   `header_bits` inverts the printer: of a NAL unit that starts with a header, followed by any bits, it
   gives exactly the number of bits the header takes if that many are among the first 4096 NAL bytes,
   and an error otherwise.
   */
  lemma {:induction false} HeaderBitsInvertsPrinter(ps: Parameters, nal: seq<byte>, v: Header)
    requires HeaderOk(ps, v) && On(BitsOf(Unescaped(nal).bytes), 0, HeaderCode(ps, v))
    ensures HeaderLength(TapeOf(nal), ps) == if |HeaderCode(ps, v)| <= |TapeOf(nal)| then Ok(|HeaderCode(ps, v)|) else Err
  {
    hide HeaderAt, HeaderCode, HeaderOk, BitsOf, Unescaped, On;
    var t, all, code := TapeOf(nal), BitsOf(Unescaped(nal).bytes), HeaderCode(ps, v);
    TapeIsPrefix(nal);
    OnPrefix(t, all, code);
    HeaderExact(t, 0, ps, v);
    HeaderExact(all, 0, ps, v);
    if HeaderAt(t, 0, ps).Got? {
      var found := HeaderAt(t, 0, ps).value;
      HeaderExact(t, 0, ps, found);
      HeaderExact(all, 0, ps, found);
      OnPrefix(t, all, HeaderCode(ps, found));
    }
  }

  /** And nothing else is accepted: a length found is that of a header the NAL unit does start with. */
  lemma {:induction false} HeaderBitsFindsHeader(ps: Parameters, nal: seq<byte>)
    requires HeaderLength(TapeOf(nal), ps).Ok?
    ensures exists v :: HeaderOk(ps, v) && On(BitsOf(Unescaped(nal).bytes), 0, HeaderCode(ps, v))
                        && HeaderLength(TapeOf(nal), ps) == Ok(|HeaderCode(ps, v)|)
  {
    hide HeaderAt, HeaderCode, HeaderOk, BitsOf, Unescaped, On;
    var t := TapeOf(nal);
    var v := HeaderAt(t, 0, ps).value;
    TapeIsPrefix(nal);
    HeaderExact(t, 0, ps, v);
    OnPrefix(t, BitsOf(Unescaped(nal).bytes), HeaderCode(ps, v));
  }

  /** A NAL unit written as section 7.3.1 asks: a header, then any bits to a whole number of bytes. */
  function Written(ps: Parameters, v: Header, after: seq<bool>): seq<byte>
    requires |HeaderCode(ps, v) + after| % 8 == 0
  {
    Escaped(Packed(HeaderCode(ps, v) + after)).bytes
  }

  /** Every header of at most 21840 bits is found again once written; a longer one exactly when it still fits. */
  lemma {:induction false} WrittenReadsBack(ps: Parameters, v: Header, after: seq<bool>)
    requires HeaderOk(ps, v) && |HeaderCode(ps, v) + after| % 8 == 0
    ensures var nal, length := Written(ps, v, after), |HeaderCode(ps, v)|;
            && HeaderLength(TapeOf(nal), ps) == (if length <= |TapeOf(nal)| then Ok(length) else Err)
            && (length <= 21840 ==> HeaderLength(TapeOf(nal), ps) == Ok(length))
  {
    hide HeaderLength, HeaderCode, HeaderOk, BitsOf, Unescaped, Escaped, Packed, TapeOf;
    var code := HeaderCode(ps, v);
    var nal := Written(ps, v, after);
    UnescapeInvertsEscape(Packed(code + after));
    PackedHolds(code + after);
    assert On(BitsOf(Unescaped(nal).bytes), 0, code) by {
      assert (code + after)[0..0 + |code|] == code;
    }
    HeaderBitsInvertsPrinter(ps, nal, v);
    TapeIsPrefix(nal);
    if |nal| <= MAX_SLICE_HEADER_BYTES {
      WholeTape(nal);
    }
  }

  lemma {:induction false} WholeTape(nal: seq<byte>)
    requires |nal| <= MAX_SLICE_HEADER_BYTES
    ensures TapeOf(nal) == BitsOf(Unescaped(nal).bytes)
  {
    assert nal[..|nal|] == nal;
  }

  // ----- Clear bytes -----

  function ClearBytesOf(ps: Parameters, nal: seq<byte>): Result<nat> {
    var bits :- HeaderLength(TapeOf(nal), ps);
    var covered := Covering(Unescaped(nal[..Min(|nal|, MAX_SLICE_HEADER_BYTES)]).origin, bits);
    if covered.Some? then Ok(covered.value) else Err
  }

  /** `clear_bytes` */
  method ClearBytes(ps: Parameters, nal: seq<byte>) returns (res: Result<nat>)
    ensures res == ClearBytesOf(ps, nal)
  {
    hide HeaderLength, TapeOf, Unescaped, Covering;
    var bits :- HeaderBits(ps, nal);
    var rbsp := new Rbsp(nal, MAX_SLICE_HEADER_BYTES);
    var covered := rbsp.NalBytesCovering(bits);
    if covered.None? {
      return Err;
    }
    return Ok(covered.value);
  }

  /**
   The clear bytes are the shortest start of the NAL unit that holds the header whole; finding the
   header is all it takes, so it is never truncated afterwards.
   */
  lemma {:induction false} ClearBytesCoverHeader(ps: Parameters, nal: seq<byte>)
    ensures ClearBytesOf(ps, nal).Ok? <==> HeaderLength(TapeOf(nal), ps).Ok?
    ensures ClearBytesOf(ps, nal).Ok? ==>
              var clear, bits := ClearBytesOf(ps, nal).value, HeaderLength(TapeOf(nal), ps).value;
              && clear <= |nal| && |Unescaped(nal[..clear]).bytes| == (bits + 7) / 8
              && forall k: nat :: k < clear ==> 8 * |Unescaped(nal[..k]).bytes| < bits
  {
    hide HeaderAt, BitsOf, Unescaped, Covering;
    var size := Min(|nal|, MAX_SLICE_HEADER_BYTES);
    var front := nal[..size];
    HeaderInside(TapeOf(nal), ps);
    if HeaderLength(TapeOf(nal), ps).Ok? {
      var bits := HeaderLength(TapeOf(nal), ps).value;
      CoveringIsShortest(front, bits);
      var clear := ClearBytesOf(ps, nal).value;
      assert front[..clear] == nal[..clear];
      forall k: nat | k < clear ensures 8 * |Unescaped(nal[..k]).bytes| < bits {
        assert front[..k] == nal[..k];
        assert |Unescaped(front[..k]).bytes| < (bits + 7) / 8;
      }
    }
  }

  /** H.264 as the subsample loop sees it; `update` takes in the parameter sets a sample carries. */
  function AvcCodec(lengthSize: nat, update: (Parameters, seq<byte>) -> Result<Parameters>): Subsamples.Codec<Parameters> {
    Subsamples.Codec(lengthSize, Subsamples.AvcKind, ClearBytesOf, update)
  }

  lemma {:induction false} AvcCodecIsValid(lengthSize: nat, update: (Parameters, seq<byte>) -> Result<Parameters>)
    requires 1 <= lengthSize <= 4
    ensures AvcCodec(lengthSize, update).Valid()
  {
    hide ClearBytesOf;
    forall ps: Parameters, nal: seq<byte> | ClearBytesOf(ps, nal).Ok? ensures ClearBytesOf(ps, nal).value <= |nal| {
      ClearBytesCoverHeader(ps, nal);
    }
  }
}
