/**
 H.264 parameter sets (src/cenc/avc.rs; sections 7.3.2.1.1 and 7.3.2.2 of ITU-T H.264): as values with
 the code they are written as, parsed exactly, and taken in by the track's parameters.
 */
module AvcSets {
  import opened Common
  import opened Bits
  import opened Syntax
  import opened Avc
  import Subsamples

  const MAX_PARAMETER_SET_BYTES := 64 * 1024

  const HIGH_PROFILES: seq<nat> := [100, 110, 122, 244, 44, 83, 86, 118, 128, 138, 139, 134, 135]

  // ----- Scaling lists -----

  function NextScale(last: int, delta: int): int {
    (last + delta + 256) % 256
  }

  /** The deltas of a list of `size` entries; once an entry is zero, no more are coded. */
  function ScalingAt(t: seq<bool>, p: nat, size: nat, last: int, next: int): (r: Read<seq<int>>)
    ensures r.Got? ==> p <= r.at
    decreases size
  {
    if size == 0 || next == 0 then Got([], p)
    else
      var (delta, p1) :- SeAt(t, p);
      var scale := NextScale(last, delta);
      var (rest, end) :- ScalingAt(t, p1, size - 1, if scale != 0 then scale else last, scale);
      Got([delta] + rest, end)
  }

  predicate ScalingOk(size: nat, last: int, next: int, v: seq<int>)
    decreases size
  {
    if size == 0 || next == 0 then v == []
    else
      && v != [] && -SE_MAX <= v[0] <= SE_MAX
      && var scale := NextScale(last, v[0]); ScalingOk(size - 1, if scale != 0 then scale else last, scale, v[1..])
  }

  lemma {:induction false} ScalingExact(t: seq<bool>, p: nat, size: nat, last: int, next: int, v: seq<int>)
    requires p <= |t|
    ensures Reads(ScalingAt(t, p, size, last, next), t, p, v, ScalingOk(size, last, next, v), SesCode(v))
    decreases size
  {
    hide SeAt, SeCode, NextScale;
    if size == 0 || next == 0 || v == [] {
      assert t[p..p] == [];
    } else {
      var code, scale := SeCode(v[0]), NextScale(last, v[0]);
      SeExact(t, p, v[0]);
      OnSplit(t, p, code, SesCode(v[1..]));
      if p + |code| <= |t| {
        ScalingExact(t, p + |code|, size - 1, if scale != 0 then scale else last, scale, v[1..]);
      }
      Headed(v);
    }
  }

  /** The lists from `index` on: a flag each, and the list if it is set. */
  function ListsAt(t: seq<bool>, p: nat, index: nat, count: nat): (r: Read<seq<Option<seq<int>>>>)
    ensures r.Got? ==> p <= r.at
    decreases count - index
  {
    if index >= count then Got([], p)
    else
      var (flag, p1) :- BitReadAt(t, p);
      var (list, p2) :- if flag then ListAt(t, p1, index) else Got(None, p1);
      var (rest, end) :- ListsAt(t, p2, index + 1, count);
      Got([list] + rest, end)
  }

  function ListAt(t: seq<bool>, p: nat, index: nat): (r: Read<Option<seq<int>>>)
    ensures r.Got? ==> p <= r.at
  {
    var (list, p1) :- ScalingAt(t, p, if index < 6 then 16 else 64, 8, 8);
    Got(Some(list), p1)
  }

  function ListCode(v: Option<seq<int>>): seq<bool> {
    [v.Some?] + (if v.Some? then SesCode(v.value) else [])
  }

  function ListsCode(v: seq<Option<seq<int>>>): seq<bool> {
    if v == [] then [] else ListCode(v[0]) + ListsCode(v[1..])
  }

  predicate ListOk(index: nat, v: Option<seq<int>>) {
    v.Some? ==> ScalingOk(if index < 6 then 16 else 64, 8, 8, v.value)
  }

  predicate ListsOk(index: nat, count: nat, v: seq<Option<seq<int>>>)
    decreases count - index
  {
    if index >= count then v == [] else v != [] && ListOk(index, v[0]) && ListsOk(index + 1, count, v[1..])
  }

  lemma {:induction false} ListExact(t: seq<bool>, p: nat, index: nat, v: Option<seq<int>>)
    requires p <= |t|
    ensures var flag := BitReadAt(t, p);
            Reads(if flag.Bad? then Bad else if flag.value then ListAt(t, flag.at, index) else Got(None, flag.at),
                  t, p, v, ListOk(index, v), ListCode(v))
  {
    hide On, ScalingAt, ScalingOk, SesCode, BitReadAt;
    BitExact(t, p, v.Some?);
    BitExact(t, p, v.None?);
    OnSplit(t, p, [v.Some?], if v.Some? then SesCode(v.value) else []);
    if v.Some? && p + 1 <= |t| {
      ScalingExact(t, p + 1, if index < 6 then 16 else 64, 8, 8, v.value);
    }
    if v.None? && p + 1 <= |t| {
      OnNothing(t, p + 1);
    }
  }

  lemma {:induction false} OnNothing(t: seq<bool>, p: nat)
    requires p <= |t|
    ensures On(t, p, [])
  {
    assert t[p..p] == [];
  }

  lemma {:induction false} ListsExact(t: seq<bool>, p: nat, index: nat, count: nat, v: seq<Option<seq<int>>>)
    requires p <= |t|
    ensures Reads(ListsAt(t, p, index, count), t, p, v, ListsOk(index, count, v), ListsCode(v))
    decreases count - index
  {
    hide On, BitReadAt, ListAt, ListCode, ListOk;
    if index >= count || v == [] {
      OnNothing(t, p);
    } else {
      var code := ListCode(v[0]);
      ListExact(t, p, index, v[0]);
      OnSplit(t, p, code, ListsCode(v[1..]));
      if p + |code| <= |t| {
        ListsExact(t, p + |code|, index + 1, count, v[1..]);
      }
      Headed(v);
    }
  }

  // ----- Sequence parameter sets -----

  /** The fields only high profiles have; others are 4:2:0. */
  datatype High = High(
    chromaFormat: nat, separate: bool, lumaDepth: nat, chromaDepth: nat, bypass: seq<bool>, matrix: bool, lists: seq<Option<seq<int>>>)

  const PLAIN := High(1, false, 0, 0, [], false, [])

  function HighAt(t: seq<bool>, p: nat): (r: Read<High>)
    ensures r.Got? ==> p <= r.at
  {
    var (chromaFormat, p1) :- UeAt(t, p);
    if chromaFormat > 3 then Bad
    else
      var (separate, p2) :- FlagAt(t, p1, chromaFormat == 3);
      var (luma, p3) :- UeAt(t, p2);
      var (chroma, p4) :- UeAt(t, p3);
      var (bypass, p5) :- SkipAt(t, p4, 1);
      var (matrix, p6) :- BitReadAt(t, p5);
      var (lists, p7) :- ListsAt(t, p6, 0, if !matrix then 0 else if chromaFormat == 3 then 12 else 8);
      Got(High(chromaFormat, separate, luma, chroma, bypass, matrix, lists), p7)
  }

  function HighCode(v: High): seq<bool> {
    UeCode(v.chromaFormat)
    + (FlagCode(v.chromaFormat == 3, v.separate)
       + (UeCode(v.lumaDepth) + (UeCode(v.chromaDepth) + (v.bypass + ([v.matrix] + ListsCode(v.lists))))))
  }

  predicate HighOk(v: High) {
    && v.chromaFormat <= 3 && (v.separate ==> v.chromaFormat == 3) && v.lumaDepth <= UE_MAX && v.chromaDepth <= UE_MAX
    && |v.bypass| == 1 && ListsOk(0, if !v.matrix then 0 else if v.chromaFormat == 3 then 12 else 8, v.lists)
  }

  lemma {:induction false} HighExact(t: seq<bool>, p: nat, v: High)
    ensures Reads(HighAt(t, p), t, p, v, HighOk(v), HighCode(v))
  {
    hide On, UeAt, UeCode, FlagAt, FlagCode, SkipAt, BitReadAt, ListsAt, ListsCode, ListsOk;
    var c1, c2, c3, c4 := UeCode(v.chromaFormat), FlagCode(v.chromaFormat == 3, v.separate), UeCode(v.lumaDepth), UeCode(v.chromaDepth);
    var c7 := ListsCode(v.lists);
    var p1 := p + |c1|;
    var p2 := p1 + |c2|;
    var p3 := p2 + |c3|;
    var p4 := p3 + |c4|;
    var p5 := p4 + |v.bypass|;
    OnSplit(t, p, c1, c2 + (c3 + (c4 + (v.bypass + ([v.matrix] + c7)))));
    OnSplit(t, p1, c2, c3 + (c4 + (v.bypass + ([v.matrix] + c7))));
    OnSplit(t, p2, c3, c4 + (v.bypass + ([v.matrix] + c7)));
    OnSplit(t, p3, c4, v.bypass + ([v.matrix] + c7));
    OnSplit(t, p4, v.bypass, [v.matrix] + c7);
    OnSplit(t, p5, [v.matrix], c7);
    UeExact(t, p, v.chromaFormat);
    UeExact(t, p2, v.lumaDepth);
    UeExact(t, p3, v.chromaDepth);
    SkipExact(t, p4, 1, v.bypass);
    BitExact(t, p5, v.matrix);
    if p1 <= |t| {
      FlagExact(t, p1, v.chromaFormat == 3, v.separate);
    }
    if p5 + 1 <= |t| {
      ListsExact(t, p5 + 1, 0, if !v.matrix then 0 else if v.chromaFormat == 3 then 12 else 8, v.lists);
    }
  }

  /** How picture order counts are coded. */
  datatype Poc = Lsb(bits: nat) | Cycle(alwaysZero: bool, nonRef: int, topToBottom: int, offsets: seq<int>) | Same

  function PocAt(t: seq<bool>, p: nat): (r: Read<Poc>)
    ensures r.Got? ==> p <= r.at
  {
    var (kind, p1) :- UeAt(t, p);
    if kind == 0 then
      var (bits, p2) :- UeAt(t, p1);
      if bits > 12 then Bad else Got(Lsb(bits), p2)
    else if kind == 1 then CycleAt(t, p1)
    else if kind == 2 then Got(Same, p1)
    else Bad
  }

  function CycleAt(t: seq<bool>, p: nat): (r: Read<Poc>)
    ensures r.Got? ==> p <= r.at
  {
    var (alwaysZero, p1) :- BitReadAt(t, p);
    var (nonRef, p2) :- SeAt(t, p1);
    var (topToBottom, p3) :- SeAt(t, p2);
    var (count, p4) :- UeAt(t, p3);
    if count > 255 then Bad
    else
      var (offsets, p5) :- SesAt(t, p4, count);
      Got(Cycle(alwaysZero, nonRef, topToBottom, offsets), p5)
  }

  function CycleCode(v: Poc): seq<bool>
    requires v.Cycle?
  {
    [v.alwaysZero] + (SeCode(v.nonRef) + (SeCode(v.topToBottom) + (UeCode(|v.offsets|) + SesCode(v.offsets))))
  }

  function PocCode(v: Poc): seq<bool> {
    match v
    case Lsb(bits) => UeCode(0) + UeCode(bits)
    case Cycle(_, _, _, _) => UeCode(1) + CycleCode(v)
    case Same => UeCode(2)
  }

  predicate PocOk(v: Poc) {
    match v
    case Lsb(bits) => bits <= 12
    case Cycle(_, nonRef, topToBottom, offsets) =>
      -SE_MAX <= nonRef <= SE_MAX && -SE_MAX <= topToBottom <= SE_MAX && |offsets| <= 255 && SesOk(offsets, |offsets|)
    case Same => true
  }

  lemma {:induction false} CycleExact(t: seq<bool>, p: nat, v: Poc)
    ensures v.Cycle? ==> Reads(CycleAt(t, p), t, p, v, PocOk(v), CycleCode(v))
    ensures CycleAt(t, p).Got? ==> CycleAt(t, p).value.Cycle?
  {
    hide On, BitReadAt, SeAt, SeCode, UeAt, UeCode, SesAt, SesCode, SesOk;
    if v.Cycle? {
      var c2, c3, c4, c5 := SeCode(v.nonRef), SeCode(v.topToBottom), UeCode(|v.offsets|), SesCode(v.offsets);
      var p2 := p + 1 + |c2|;
      var p3 := p2 + |c3|;
      OnSplit(t, p, [v.alwaysZero], c2 + (c3 + (c4 + c5)));
      OnSplit(t, p + 1, c2, c3 + (c4 + c5));
      OnSplit(t, p2, c3, c4 + c5);
      OnSplit(t, p3, c4, c5);
      BitExact(t, p, v.alwaysZero);
      SeExact(t, p + 1, v.nonRef);
      SeExact(t, p2, v.topToBottom);
      UeExact(t, p3, |v.offsets|);
      if p3 + |c4| <= |t| {
        SesExact(t, p3 + |c4|, |v.offsets|, v.offsets);
      }
    }
  }

  lemma {:induction false} PocExact(t: seq<bool>, p: nat, v: Poc)
    ensures Reads(PocAt(t, p), t, p, v, PocOk(v), PocCode(v))
  {
    hide On, UeAt, UeCode, CycleAt, CycleCode;
    UeExact(t, p, 0);
    UeExact(t, p, 1);
    UeExact(t, p, 2);
    match v
    case Lsb(bits) =>
      OnSplit(t, p, UeCode(0), UeCode(bits));
      UeExact(t, p + |UeCode(0)|, bits);
      if UeAt(t, p).Got? {
        CycleExact(t, UeAt(t, p).at, v);
      }
    case Cycle(_, _, _, _) =>
      OnSplit(t, p, UeCode(1), CycleCode(v));
      CycleExact(t, p + |UeCode(1)|, v);
    case Same =>
      if UeAt(t, p).Got? {
        CycleExact(t, UeAt(t, p).at, v);
      }
  }

  datatype SpsSyntax = SpsSyntax(
    front: seq<bool>, profile: nat, constraints: seq<bool>, id: nat, high: High, frameNumBits: nat, poc: Poc, frame: Frame)

  datatype Frame = Frame(maxRefs: nat, gaps: seq<bool>, width: nat, height: nat, frameMbsOnly: bool)

  function FrameAt(t: seq<bool>, p: nat): (r: Read<Frame>)
    ensures r.Got? ==> p <= r.at
  {
    var (maxRefs, p1) :- UeAt(t, p);
    var (gaps, p2) :- SkipAt(t, p1, 1);
    var (width, p3) :- UeAt(t, p2);
    var (height, p4) :- UeAt(t, p3);
    var (frameMbsOnly, p5) :- BitReadAt(t, p4);
    Got(Frame(maxRefs, gaps, width, height, frameMbsOnly), p5)
  }

  function FrameCode(v: Frame): seq<bool> {
    UeCode(v.maxRefs) + (v.gaps + (UeCode(v.width) + (UeCode(v.height) + [v.frameMbsOnly])))
  }

  predicate FrameOk(v: Frame) {
    v.maxRefs <= UE_MAX && |v.gaps| == 1 && v.width <= UE_MAX && v.height <= UE_MAX
  }

  lemma {:induction false} FrameExact(t: seq<bool>, p: nat, v: Frame)
    ensures Reads(FrameAt(t, p), t, p, v, FrameOk(v), FrameCode(v))
  {
    hide On, UeAt, UeCode, SkipAt, BitReadAt;
    var c1, c3, c4 := UeCode(v.maxRefs), UeCode(v.width), UeCode(v.height);
    var p2 := p + |c1| + |v.gaps|;
    OnSplit(t, p, c1, v.gaps + (c3 + (c4 + [v.frameMbsOnly])));
    OnSplit(t, p + |c1|, v.gaps, c3 + (c4 + [v.frameMbsOnly]));
    OnSplit(t, p2, c3, c4 + [v.frameMbsOnly]);
    OnSplit(t, p2 + |c3|, c4, [v.frameMbsOnly]);
    UeExact(t, p, v.maxRefs);
    SkipExact(t, p + |c1|, 1, v.gaps);
    UeExact(t, p2, v.width);
    UeExact(t, p2 + |c3|, v.height);
    BitExact(t, p2 + |c3| + |c4|, v.frameMbsOnly);
  }

  function HighPartAt(t: seq<bool>, p: nat, profile: nat): (r: Read<High>)
    ensures r.Got? ==> p <= r.at
  {
    if profile in HIGH_PROFILES then HighAt(t, p) else Got(PLAIN, p)
  }

  function HighPartCode(profile: nat, v: High): seq<bool> {
    if profile in HIGH_PROFILES then HighCode(v) else []
  }

  predicate HighPartOk(profile: nat, v: High) {
    if profile in HIGH_PROFILES then HighOk(v) else v == PLAIN
  }

  lemma {:induction false} HighPartExact(t: seq<bool>, p: nat, profile: nat, v: High)
    requires p <= |t|
    ensures Reads(HighPartAt(t, p, profile), t, p, v, HighPartOk(profile, v), HighPartCode(profile, v))
  {
    hide On, HighAt, HighCode, HighOk;
    HighExact(t, p, v);
    OnNothing(t, p);
  }

  function SpsAt(t: seq<bool>, p: nat): (r: Read<SpsSyntax>)
    ensures r.Got? ==> p <= r.at
  {
    var (front, p1) :- SkipAt(t, p, 8);
    var (profile, p2) :- BitsAt(t, p1, 8);
    var (constraints, p3) :- SkipAt(t, p2, 16);
    var (id, p4) :- UeAt(t, p3);
    var (high, p5) :- HighPartAt(t, p4, profile);
    var (frameNumBits, p6) :- UeAt(t, p5);
    if frameNumBits > 12 then Bad
    else
      var (poc, p7) :- PocAt(t, p6);
      var (frame, p8) :- FrameAt(t, p7);
      Got(SpsSyntax(front, profile, constraints, id, high, frameNumBits, poc, frame), p8)
  }

  function SpsCode(v: SpsSyntax): seq<bool> {
    v.front
    + (Binary(v.profile, 8)
       + (v.constraints + (UeCode(v.id) + (HighPartCode(v.profile, v.high) + (UeCode(v.frameNumBits) + (PocCode(v.poc) + FrameCode(v.frame)))))))
  }

  predicate SpsOk(v: SpsSyntax) {
    && |v.front| == 8 && v.profile < Pow2(8) && |v.constraints| == 16 && v.id <= UE_MAX && HighPartOk(v.profile, v.high)
    && v.frameNumBits <= 12 && PocOk(v.poc) && FrameOk(v.frame)
  }

  lemma {:induction false} SpsExact(t: seq<bool>, p: nat, v: SpsSyntax)
    ensures Reads(SpsAt(t, p), t, p, v, SpsOk(v), SpsCode(v))
  {
    hide On, SkipAt, BitsAt, UeAt, UeCode, HighPartAt, HighPartCode, HighPartOk, PocAt, PocCode, PocOk, FrameAt, FrameCode, FrameOk, Binary, Pow2;
    var c2, c4, c5, c6 := Binary(v.profile, 8), UeCode(v.id), HighPartCode(v.profile, v.high), UeCode(v.frameNumBits);
    var c7, c8 := PocCode(v.poc), FrameCode(v.frame);
    var p1 := p + |v.front|;
    var p3 := p1 + 8 + |v.constraints|;
    var p4 := p3 + |c4|;
    var p5 := p4 + |c5|;
    var p6 := p5 + |c6|;
    OnSplit(t, p, v.front, c2 + (v.constraints + (c4 + (c5 + (c6 + (c7 + c8))))));
    OnSplit(t, p1, c2, v.constraints + (c4 + (c5 + (c6 + (c7 + c8)))));
    OnSplit(t, p1 + 8, v.constraints, c4 + (c5 + (c6 + (c7 + c8))));
    OnSplit(t, p3, c4, c5 + (c6 + (c7 + c8)));
    OnSplit(t, p4, c5, c6 + (c7 + c8));
    OnSplit(t, p5, c6, c7 + c8);
    OnSplit(t, p6, c7, c8);
    SkipExact(t, p, 8, v.front);
    BitsExact(t, p1, 8, v.profile);
    SkipExact(t, p1 + 8, 16, v.constraints);
    UeExact(t, p3, v.id);
    if p4 <= |t| {
      HighPartExact(t, p4, v.profile, v.high);
    }
    UeExact(t, p5, v.frameNumBits);
    PocExact(t, p6, v.poc);
    FrameExact(t, p6 + |c7|, v.frame);
  }

  /** What slice headers need of a sequence parameter set. */
  function SpsOf(v: SpsSyntax): Sps {
    Sps(if v.high.separate then 0 else v.high.chromaFormat, v.high.separate, v.frameNumBits + 4,
        if v.poc.Lsb? then 0 else if v.poc.Cycle? then 1 else 2, if v.poc.Lsb? then v.poc.bits + 4 else 0,
        v.poc.Cycle? && v.poc.alwaysZero, v.frame.frameMbsOnly)
  }

  // ----- Picture parameter sets -----

  datatype PpsSyntax = PpsSyntax(
    front: seq<bool>, id: nat, spsId: nat, entropyCoding: bool, bottomField: bool, l0: nat, l1: nat, weights: PpsWeights)

  datatype PpsWeights = PpsWeights(
    pred: bool, bipred: nat, qp: int, qs: int, chromaQp: int, deblocking: bool, constrainedIntra: seq<bool>, redundant: bool)

  function PpsWeightsAt(t: seq<bool>, p: nat): (r: Read<PpsWeights>)
    ensures r.Got? ==> p <= r.at
  {
    var (pred, p1) :- BitReadAt(t, p);
    var (bipred, p2) :- BitsAt(t, p1, 2);
    var (qp, p3) :- SeAt(t, p2);
    var (qs, p4) :- SeAt(t, p3);
    var (chromaQp, p5) :- SeAt(t, p4);
    var (deblocking, p6) :- BitReadAt(t, p5);
    var (constrainedIntra, p7) :- SkipAt(t, p6, 1);
    var (redundant, p8) :- BitReadAt(t, p7);
    Got(PpsWeights(pred, bipred, qp, qs, chromaQp, deblocking, constrainedIntra, redundant), p8)
  }

  function PpsWeightsCode(v: PpsWeights): seq<bool> {
    [v.pred]
    + (Binary(v.bipred, 2)
       + (SeCode(v.qp) + (SeCode(v.qs) + (SeCode(v.chromaQp) + ([v.deblocking] + (v.constrainedIntra + [v.redundant]))))))
  }

  predicate PpsWeightsOk(v: PpsWeights) {
    && v.bipred < Pow2(2) && -SE_MAX <= v.qp <= SE_MAX && -SE_MAX <= v.qs <= SE_MAX && -SE_MAX <= v.chromaQp <= SE_MAX
    && |v.constrainedIntra| == 1
  }

  lemma {:induction false} PpsWeightsExact(t: seq<bool>, p: nat, v: PpsWeights)
    ensures Reads(PpsWeightsAt(t, p), t, p, v, PpsWeightsOk(v), PpsWeightsCode(v))
  {
    hide On, BitReadAt, BitsAt, SeAt, SeCode, SkipAt, Binary, Pow2;
    var c2, c3, c4, c5 := Binary(v.bipred, 2), SeCode(v.qp), SeCode(v.qs), SeCode(v.chromaQp);
    var rest := [v.deblocking] + (v.constrainedIntra + [v.redundant]);
    var p4 := p + 3 + |c3|;
    var p6 := p4 + |c4| + |c5|;
    OnSplit(t, p, [v.pred], c2 + (c3 + (c4 + (c5 + rest))));
    OnSplit(t, p + 1, c2, c3 + (c4 + (c5 + rest)));
    OnSplit(t, p + 3, c3, c4 + (c5 + rest));
    OnSplit(t, p4, c4, c5 + rest);
    OnSplit(t, p4 + |c4|, c5, rest);
    OnSplit(t, p6, [v.deblocking], v.constrainedIntra + [v.redundant]);
    OnSplit(t, p6 + 1, v.constrainedIntra, [v.redundant]);
    BitExact(t, p, v.pred);
    BitsExact(t, p + 1, 2, v.bipred);
    SeExact(t, p + 3, v.qp);
    SeExact(t, p4, v.qs);
    SeExact(t, p4 + |c4|, v.chromaQp);
    BitExact(t, p6, v.deblocking);
    SkipExact(t, p6 + 1, 1, v.constrainedIntra);
    BitExact(t, p6 + 1 + |v.constrainedIntra|, v.redundant);
  }

  /** Slice groups are refused; default reference counts are at most 32. */
  function PpsAt(t: seq<bool>, p: nat): (r: Read<PpsSyntax>)
    ensures r.Got? ==> p <= r.at
  {
    var (front, p1) :- SkipAt(t, p, 8);
    var (id, p2) :- UeAt(t, p1);
    var (spsId, p3) :- UeAt(t, p2);
    var (entropyCoding, p4) :- BitReadAt(t, p3);
    var (bottomField, p5) :- BitReadAt(t, p4);
    var (groups, p6) :- UeAt(t, p5);
    if groups != 0 then Bad
    else
      var (l0, p7) :- UeAt(t, p6);
      var (l1, p8) :- UeAt(t, p7);
      if l0 > 31 || l1 > 31 then Bad
      else
        var (weights, p9) :- PpsWeightsAt(t, p8);
        Got(PpsSyntax(front, id, spsId, entropyCoding, bottomField, l0, l1, weights), p9)
  }

  function PpsCode(v: PpsSyntax): seq<bool> {
    v.front
    + (UeCode(v.id)
       + (UeCode(v.spsId)
          + ([v.entropyCoding] + ([v.bottomField] + (UeCode(0) + (UeCode(v.l0) + (UeCode(v.l1) + PpsWeightsCode(v.weights))))))))
  }

  predicate PpsOk(v: PpsSyntax) {
    |v.front| == 8 && v.id <= UE_MAX && v.spsId <= UE_MAX && v.l0 <= 31 && v.l1 <= 31 && PpsWeightsOk(v.weights)
  }

  lemma {:induction false} PpsExact(t: seq<bool>, p: nat, v: PpsSyntax)
    ensures Reads(PpsAt(t, p), t, p, v, PpsOk(v), PpsCode(v))
  {
    hide On, SkipAt, UeAt, UeCode, BitReadAt, PpsWeightsAt, PpsWeightsCode, PpsWeightsOk;
    var c2, c3, c6, c7, c8, c9 := UeCode(v.id), UeCode(v.spsId), UeCode(0), UeCode(v.l0), UeCode(v.l1), PpsWeightsCode(v.weights);
    var p1 := p + |v.front|;
    var p3 := p1 + |c2| + |c3|;
    var p6 := p3 + 2 + |c6|;
    var p7 := p6 + |c7|;
    OnSplit(t, p, v.front, c2 + (c3 + ([v.entropyCoding] + ([v.bottomField] + (c6 + (c7 + (c8 + c9)))))));
    OnSplit(t, p1, c2, c3 + ([v.entropyCoding] + ([v.bottomField] + (c6 + (c7 + (c8 + c9))))));
    OnSplit(t, p1 + |c2|, c3, [v.entropyCoding] + ([v.bottomField] + (c6 + (c7 + (c8 + c9)))));
    OnSplit(t, p3, [v.entropyCoding], [v.bottomField] + (c6 + (c7 + (c8 + c9))));
    OnSplit(t, p3 + 1, [v.bottomField], c6 + (c7 + (c8 + c9)));
    OnSplit(t, p3 + 2, c6, c7 + (c8 + c9));
    OnSplit(t, p6, c7, c8 + c9);
    OnSplit(t, p7, c8, c9);
    SkipExact(t, p, 8, v.front);
    UeExact(t, p1, v.id);
    UeExact(t, p1 + |c2|, v.spsId);
    BitExact(t, p3, v.entropyCoding);
    BitExact(t, p3 + 1, v.bottomField);
    UeExact(t, p3 + 2, 0);
    UeExact(t, p6, v.l0);
    UeExact(t, p7, v.l1);
    PpsWeightsExact(t, p7 + |c8|, v.weights);
  }

  function PpsOf(v: PpsSyntax): Pps {
    Pps(v.spsId, v.entropyCoding, v.bottomField, v.l0 + 1, v.l1 + 1, v.weights.pred, v.weights.bipred, v.weights.deblocking,
        v.weights.redundant)
  }

  // ----- The source's readers -----

  /** `skip_scaling_list`: the loop runs on after the last coded entry, reading nothing. */
  method SkipScalingList(r: BitReader, size: nat) returns (res: Result<()>)
    requires r.Valid()
    modifies r
    ensures r.Valid() && r.Passes(res, ScalingAt(r.tape, old(r.bit), size, 8, 8))
  {
    hide SeAt, BitsOf;
    var last, next := 8, 8;
    ghost var whole := ScalingAt(r.tape, r.bit, size, 8, 8);
    for i := 0 to size
      invariant r.Valid() && SameEnd(whole, ScalingAt(r.tape, r.bit, size - i, last, next))
    {
      if next != 0 {
        var delta :- r.Se();
        next := (last + delta + 256) % 256;
      }
      if next != 0 {
        last := next;
      }
    }
    return Ok(());
  }

  method SkipLists(r: BitReader, count: nat) returns (res: Result<()>)
    requires r.Valid()
    modifies r
    ensures r.Valid() && r.Passes(res, ListsAt(r.tape, old(r.bit), 0, count))
  {
    hide BitsOf, ScalingAt;
    ghost var whole := ListsAt(r.tape, r.bit, 0, count);
    for index := 0 to count
      invariant r.Valid() && SameEnd(whole, ListsAt(r.tape, r.bit, index, count))
    {
      var flag :- r.Bit();
      if flag {
        var _ :- SkipScalingList(r, if index < 6 then 16 else 64);
      }
    }
    return Ok(());
  }

  /** Gives the chroma format and whether colour planes are separate. */
  method ReadHigh(r: BitReader, profile: nat) returns (res: Result<(nat, bool)>)
    requires r.Valid()
    modifies r
    ensures r.Valid() && r.Passes(res, HighPartAt(r.tape, old(r.bit), profile))
    ensures res.Ok? ==>
              var v := HighPartAt(r.tape, old(r.bit), profile).value; res.value == (v.chromaFormat, v.separate)
  {
    hide BitsOf, UeAt, ListsAt;
    if profile !in HIGH_PROFILES {
      return Ok((1, false));
    }
    var chromaFormat :- r.Ue();
    if chromaFormat > 3 {
      return Err;
    }
    var separate := false;
    if chromaFormat == 3 {
      separate :- r.Bit();
    }
    var _ :- r.Ue();
    var _ :- r.Ue();
    var _ :- r.Skip(1);
    var matrix :- r.Bit();
    NoLists(r.tape, r.bit);
    if matrix {
      var _ :- SkipLists(r, if chromaFormat == 3 then 12 else 8);
    }
    return Ok((chromaFormat, separate));
  }

  lemma {:induction false} NoLists(t: seq<bool>, p: nat)
    ensures ListsAt(t, p, 0, 0) == Got([], p)
  {
  }

  /** What is kept of `Poc`: its kind, the bits of a coded count, and the always-zero flag. */
  function PocKept(v: Poc): (nat, nat, bool) {
    match v
    case Lsb(bits) => (0, bits + 4, false)
    case Cycle(alwaysZero, _, _, _) => (1, 0, alwaysZero)
    case Same => (2, 0, false)
  }

  method ReadPoc(r: BitReader) returns (res: Result<(nat, nat, bool)>)
    requires r.Valid()
    modifies r
    ensures r.Valid() && r.Passes(res, PocAt(r.tape, old(r.bit)))
    ensures res.Ok? ==> res.value == PocKept(PocAt(r.tape, old(r.bit)).value)
  {
    hide BitsOf, UeAt, SeAt, SesAt;
    var kind :- r.Ue();
    if kind == 0 {
      var bits :- r.Ue();
      if bits > 12 {
        return Err;
      }
      return Ok((0, bits + 4, false));
    } else if kind == 1 {
      var alwaysZero :- r.Bit();
      var _ :- r.Se();
      var _ :- r.Se();
      var count :- r.Ue();
      if count > 255 {
        return Err;
      }
      var _ :- SkipSes(r, count);
      return Ok((1, 0, alwaysZero));
    } else if kind == 2 {
      return Ok((2, 0, false));
    }
    return Err;
  }

  method ReadFrame(r: BitReader) returns (res: Result<bool>)
    requires r.Valid()
    modifies r
    ensures r.Valid() && r.Passes(res, FrameAt(r.tape, old(r.bit)))
    ensures res.Ok? ==> res.value == FrameAt(r.tape, old(r.bit)).value.frameMbsOnly
  {
    hide BitsOf, UeAt;
    var _ :- r.Ue();
    var _ :- r.Skip(1);
    var _ :- r.Ue();
    var _ :- r.Ue();
    res := r.Bit();
  }

  method ReadSps(r: BitReader) returns (res: Result<(nat, Sps)>)
    requires r.Valid()
    modifies r
    ensures r.Valid() && r.Passes(res, SpsAt(r.tape, old(r.bit)))
    ensures res.Ok? ==> var v := SpsAt(r.tape, old(r.bit)).value; res.value == (v.id, SpsOf(v))
  {
    hide BitsOf, BitsAt, UeAt, HighPartAt, PocAt, FrameAt;
    var _ :- r.Skip(8);
    var profile :- r.Bits(8);
    var _ :- r.Skip(16);
    var id :- r.Ue();
    var high :- ReadHigh(r, profile);
    var (chromaFormat, separate) := high;
    var frameNumBits :- r.Ue();
    if frameNumBits > 12 {
      return Err;
    }
    var poc :- ReadPoc(r);
    var (pocType, pocBits, alwaysZero) := poc;
    var frameMbsOnly :- ReadFrame(r);
    return Ok((id, Sps(if separate then 0 else chromaFormat, separate, frameNumBits + 4, pocType, pocBits, alwaysZero, frameMbsOnly)));
  }

  method ReadPpsWeights(r: BitReader) returns (res: Result<PpsWeights>)
    requires r.Valid()
    modifies r
    ensures r.Valid() && r.Passes(res, PpsWeightsAt(r.tape, old(r.bit)))
    ensures res.Ok? ==>
              var v := PpsWeightsAt(r.tape, old(r.bit)).value;
              && res.value.pred == v.pred && res.value.bipred == v.bipred && res.value.deblocking == v.deblocking
              && res.value.redundant == v.redundant
  {
    hide BitsOf, BitsAt, SeAt;
    var pred :- r.Bit();
    var bipred :- r.Bits(2);
    var _ :- r.Se();
    var _ :- r.Se();
    var _ :- r.Se();
    var deblocking :- r.Bit();
    var _ :- r.Skip(1);
    var redundant :- r.Bit();
    return Ok(PpsWeights(pred, bipred, 0, 0, 0, deblocking, [], redundant));
  }

  method ReadPps(r: BitReader) returns (res: Result<(nat, Pps)>)
    requires r.Valid()
    modifies r
    ensures r.Valid() && r.Passes(res, PpsAt(r.tape, old(r.bit)))
    ensures res.Ok? ==> var v := PpsAt(r.tape, old(r.bit)).value; res.value == (v.id, PpsOf(v))
  {
    hide BitsOf, UeAt, PpsWeightsAt;
    var _ :- r.Skip(8);
    var id :- r.Ue();
    var spsId :- r.Ue();
    var entropyCoding :- r.Bit();
    var bottomField :- r.Bit();
    var groups :- r.Ue();
    if groups != 0 {
      return Err;
    }
    var l0 :- RefCount(r);
    var l1 :- RefCount(r);
    var w :- ReadPpsWeights(r);
    return Ok((id, Pps(spsId, entropyCoding, bottomField, l0 + 1, l1 + 1, w.pred, w.bipred, w.deblocking, w.redundant)));
  }

  // ----- Taking parameter sets in -----

  function SetTape(nal: seq<byte>): seq<bool> {
    BitsOf(Unescaped(nal[..Min(|nal|, MAX_PARAMETER_SET_BYTES)]).bytes)
  }

  /** The parameters after a NAL unit: a set replaces the one with its number, other units change nothing. */
  function UpdateOf(ps: Parameters, nal: seq<byte>): Result<Parameters> {
    if nal != [] && nal[0] % 0x20 == 7 then
      match SpsAt(SetTape(nal), 0)
      case Bad => Err
      case Got(v, _) => Ok(ps.(sps := ps.sps[v.id := SpsOf(v)]))
    else if nal != [] && nal[0] % 0x20 == 8 then
      match PpsAt(SetTape(nal), 0)
      case Bad => Err
      case Got(v, _) => Ok(ps.(pps := ps.pps[v.id := PpsOf(v)]))
    else Ok(ps)
  }

  lemma {:induction false} SetsInside(t: seq<bool>)
    ensures SpsAt(t, 0).Got? ==> SpsAt(t, 0).at <= |t|
    ensures PpsAt(t, 0).Got? ==> PpsAt(t, 0).at <= |t|
  {
    hide SpsAt, SpsCode, SpsOk, PpsAt, PpsCode, PpsOk;
    if SpsAt(t, 0).Got? {
      SpsExact(t, 0, SpsAt(t, 0).value);
    }
    if PpsAt(t, 0).Got? {
      PpsExact(t, 0, PpsAt(t, 0).value);
    }
  }

  /** `update` */
  method Update(ps: Parameters, nal: seq<byte>) returns (res: Result<Parameters>)
    ensures res == UpdateOf(ps, nal)
  {
    hide SpsAt, PpsAt, SpsOf, PpsOf, BitsOf, Unescaped;
    SetsInside(SetTape(nal));
    if nal == [] {
      return Ok(ps);
    }
    var nalType := nal[0] % 0x20;
    if nalType == 7 {
      var rbsp := new Rbsp(nal, MAX_PARAMETER_SET_BYTES);
      var r := new BitReader(rbsp.bytes, BitsOf(rbsp.bytes));
      var read :- ReadSps(r);
      return Ok(ps.(sps := ps.sps[read.0 := read.1]));
    } else if nalType == 8 {
      var rbsp := new Rbsp(nal, MAX_PARAMETER_SET_BYTES);
      var r := new BitReader(rbsp.bytes, BitsOf(rbsp.bytes));
      var read :- ReadPps(r);
      return Ok(ps.(pps := ps.pps[read.0 := read.1]));
    }
    return Ok(ps);
  }

  /** A sequence parameter set is taken in exactly when one is written there, with exactly its fields. */
  lemma {:induction false} SpsTakenIn(ps: Parameters, nal: seq<byte>, v: SpsSyntax)
    requires nal != [] && nal[0] % 0x20 == 7
    ensures SpsOk(v) && On(SetTape(nal), 0, SpsCode(v)) ==> UpdateOf(ps, nal) == Ok(ps.(sps := ps.sps[v.id := SpsOf(v)]))
    ensures UpdateOf(ps, nal).Ok? ==> exists w :: SpsOk(w) && On(SetTape(nal), 0, SpsCode(w))
  {
    hide SpsAt, SpsCode, SpsOk, SpsOf, On, SetTape;
    SpsExact(SetTape(nal), 0, v);
    if UpdateOf(ps, nal).Ok? {
      SpsExact(SetTape(nal), 0, SpsAt(SetTape(nal), 0).value);
    }
  }

  /** The same for picture parameter sets. */
  lemma {:induction false} PpsTakenIn(ps: Parameters, nal: seq<byte>, v: PpsSyntax)
    requires nal != [] && nal[0] % 0x20 == 8
    ensures PpsOk(v) && On(SetTape(nal), 0, PpsCode(v)) ==> UpdateOf(ps, nal) == Ok(ps.(pps := ps.pps[v.id := PpsOf(v)]))
    ensures UpdateOf(ps, nal).Ok? ==> exists w :: PpsOk(w) && On(SetTape(nal), 0, PpsCode(w))
  {
    hide PpsAt, PpsCode, PpsOk, PpsOf, On, SetTape;
    PpsExact(SetTape(nal), 0, v);
    if UpdateOf(ps, nal).Ok? {
      PpsExact(SetTape(nal), 0, PpsAt(SetTape(nal), 0).value);
    }
  }

  /** H.264 as the subsample loop sees it: slice headers under the parameter sets met so far. */
  function H264(lengthSize: nat): Subsamples.Codec<Parameters> {
    AvcCodec(lengthSize, UpdateOf)
  }

  lemma {:induction false} H264IsValid(lengthSize: nat)
    requires 1 <= lengthSize <= 4
    ensures H264(lengthSize).Valid()
  {
    AvcCodecIsValid(lengthSize, UpdateOf);
  }
}
