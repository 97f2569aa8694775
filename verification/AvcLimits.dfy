/**
 How long H.264 slice headers get, against the 4096 bytes that `header_bits` of src/cenc/avc.rs looks
 at: the syntax table alone allows headers that do not fit, the value ranges of section 7.4.3 do not.
 */
module AvcLimits {
  import opened Common
  import opened Bits
  import opened Syntax
  import opened Avc
  import opened AvcSets

  // ----- Headers in range always fit -----

  /** The widths of section 7.4.2.1.1 and the reference counts of section 7.4.2.2. */
  predicate SetsInRange(ps: Parameters) {
    && (forall id :: id in ps.sps ==> ps.sps[id].log2MaxFrameNum <= 16 && ps.sps[id].log2MaxPocLsb <= 16)
    && (forall id :: id in ps.pps ==> ps.pps[id].numRefIdxL0Default <= 32 && ps.pps[id].numRefIdxL1Default <= 32)
  }

  /** Every picture number and difference of them is below twice the largest frame number, 2 to the 16th. */
  const PIC_NUM_MAX := 0x1_FFFF

  predicate OpsInRange(ops: Option<seq<Op>>) {
    ops.Some? ==>
      forall i, j :: 0 <= i < |ops.value| && 0 <= j < |ops.value[i].arguments| ==> ops.value[i].arguments[j] <= PIC_NUM_MAX
  }

  predicate SesInRange(v: seq<int>) {
    forall i :: 0 <= i < |v| ==> -128 <= v[i] <= 127
  }

  predicate EntriesInRange(v: seq<Weight>) {
    forall i :: 0 <= i < |v| ==> SesInRange(v[i].luma) && SesInRange(v[i].chroma)
  }

  /** Sections 7.4.3.1 to 7.4.3.3: list changes, weights and markings; no other field matters here. */
  predicate HeaderInRange(v: Header) {
    && OpsInRange(v.body.references.list0) && OpsInRange(v.body.references.list1)
    && EntriesInRange(v.body.weights.entries) && OpsInRange(v.body.marks.marking)
  }

  /** Taking in a parameter set keeps all of them in range: the reader refuses the others. */
  lemma {:induction false} SetsStayInRange(ps: Parameters, nal: seq<byte>)
    requires SetsInRange(ps) && UpdateOf(ps, nal).Ok?
    ensures SetsInRange(UpdateOf(ps, nal).value)
  {
    hide SpsAt, SpsCode, PpsAt, PpsCode, SetTape, HighPartOk, FrameOk, PpsWeightsOk;
    var t := SetTape(nal);
    if SpsAt(t, 0).Got? {
      SpsExact(t, 0, SpsAt(t, 0).value);
    }
    if PpsAt(t, 0).Got? {
      PpsExact(t, 0, PpsAt(t, 0).value);
    }
  }

  lemma {:induction false} UeLength(v: nat, n: nat)
    requires v + 1 < Pow2(n + 1)
    ensures |UeCode(v)| <= 2 * n + 1
  {
    hide Pow2, Binary;
    if Log2(v + 1) > n {
      Pow2Monotone(n + 1, Log2(v + 1));
    }
  }

  lemma {:induction false} AnyUe(v: nat)
    requires v <= UE_MAX
    ensures |UeCode(v)| <= 63 && (v <= PIC_NUM_MAX ==> |UeCode(v)| <= 35) && (v <= 6 ==> |UeCode(v)| <= 5)
  {
    hide UeCode, Pow2;
    Pow2Values();
    Pow2Small();
    Pow2Sum(16, 2);
    UeLength(v, 31);
    if v <= PIC_NUM_MAX {
      UeLength(v, 17);
    }
    if v <= 6 {
      UeLength(v, 2);
    }
  }

  lemma {:induction false} AnySe(v: int)
    requires -SE_MAX <= v <= SE_MAX
    ensures |SeCode(v)| <= 63 && (-128 <= v <= 127 ==> |SeCode(v)| <= 17)
  {
    hide UeCode, Pow2;
    AnyUe(if v > 0 then 2 * v - 1 else -2 * v);
    if -128 <= v <= 127 {
      assert Pow2(9) == 512 by {
        Pow2Small();
        Pow2Sum(3, 3);
        Pow2Sum(6, 3);
      }
      UeLength(if v > 0 then 2 * v - 1 else -2 * v, 8);
    }
  }

  lemma {:induction false} UesLength(v: seq<nat>)
    requires forall i :: 0 <= i < |v| ==> v[i] <= UE_MAX
    ensures |UesCode(v)| <= 63 * |v|
    ensures (forall i :: 0 <= i < |v| ==> v[i] <= PIC_NUM_MAX) ==> |UesCode(v)| <= 35 * |v|
  {
    hide UeCode;
    if v != [] {
      AnyUe(v[0]);
      UesLength(v[1..]);
    }
  }

  lemma {:induction false} SesLength(v: seq<int>)
    requires forall i :: 0 <= i < |v| ==> -SE_MAX <= v[i] <= SE_MAX
    ensures |SesCode(v)| <= 63 * |v| && (SesInRange(v) ==> |SesCode(v)| <= 17 * |v|)
  {
    hide SeCode;
    if v != [] {
      AnySe(v[0]);
      SesLength(v[1..]);
    }
  }

  lemma {:induction false} OpsLength(kind: OpKind, left: nat, ops: seq<Op>)
    requires OpsOk(kind, left, ops) && OpsInRange(Some(ops))
    ensures |OpsCode(kind, ops)| <= (if kind.Modification? then 40 else 75) * |ops| + 5
    decreases |ops|
  {
    hide UeCode, UesCode;
    if ops == [] {
      AnyUe(kind.End());
    } else {
      assert OpOk(kind, ops[0]);
      AnyUe(ops[0].code);
      UesLength(ops[0].arguments);
      assert forall j :: 0 <= j < |ops[1..]| ==> OpOk(kind, ops[1..][j]);
      OpsLength(kind, left - 1, ops[1..]);
    }
  }

  lemma {:induction false} FlaggedOpsLength(present: bool, kind: OpKind, ops: Option<seq<Op>>)
    requires FlaggedOpsOk(present, kind, ops) && OpsInRange(ops)
    ensures |FlaggedOpsCode(present, kind, ops)| <= if kind.Modification? then 2566 else 4806
  {
    hide OpsCode, OpsInRange, OpsOk;
    if ops.Some? {
      OpsLength(kind, MAX_OPERATIONS + 1, ops.value);
      assert |ops.value| <= 64 by {
        OpsAreFew(kind, ops.value);
      }
    }
  }

  lemma {:induction false} OpsAreFew(kind: OpKind, ops: seq<Op>)
    requires OpsOk(kind, MAX_OPERATIONS + 1, ops)
    ensures |ops| <= 64
  {
  }

  lemma {:induction false} EntriesLength(chroma: bool, n: nat, v: seq<Weight>)
    requires EntriesOk(chroma, n, v) && EntriesInRange(v)
    ensures |EntriesCode(chroma, v)| <= 104 * n
    decreases n
  {
    hide SesCode;
    if v != [] {
      assert EntryOk(chroma, v[0]);
      SesLength(v[0].luma);
      SesLength(v[0].chroma);
      EntriesLength(chroma, n - 1, v[1..]);
    }
  }

  lemma {:induction false} LeadLength(v: Lead)
    requires LeadOk(v)
    ensures |LeadCode(v)| <= 197
  {
    hide UeCode, Binary, Pow2;
    AnyUe(v.firstMb);
    AnyUe(v.rawType);
    AnyUe(v.ppsId);
  }

  lemma {:induction false} PictureLength(c: Context, v: Picture)
    requires PictureOk(c, v) && c.sps.log2MaxFrameNum <= 16
    ensures |PictureCode(c, v)| <= 83
  {
    hide UeCode;
    AnyUe(v.idrPicId);
  }

  lemma {:induction false} OrderLength(c: Context, fieldPic: bool, v: Order)
    requires OrderOk(c, fieldPic, v) && c.sps.log2MaxPocLsb <= 16
    ensures |OrderCode(c, fieldPic, v)| <= 268
  {
    hide UeCode, SeCode;
    AnySe(v.deltaBottom);
    AnySe(v.delta0);
    AnySe(v.delta1);
    AnyUe(v.redundantPicCnt);
  }

  lemma {:induction false} ReferencesLength(c: Context, v: References)
    requires ReferencesOk(c, v) && OpsInRange(v.list0) && OpsInRange(v.list1)
    ensures |ReferencesCode(c, v)| <= 128 + 2 * 2566
  {
    hide FlaggedOpsCode, FlaggedOpsOk, OpsInRange, UesCode;
    UesLength(v.counts);
    FlaggedOpsLength(!c.Intra(), Modification, v.list0);
    FlaggedOpsLength(!c.Intra() && c.B(), Modification, v.list1);
  }

  lemma {:induction false} WeightsLength(c: Context, counts: seq<nat>, v: Weights)
    requires WeightsOk(c, counts, v) && EntriesInRange(v.entries) && CountsOk(c, counts)
    requires c.pps.numRefIdxL0Default <= 32 && c.pps.numRefIdxL1Default <= 32
    ensures |WeightsCode(c, v)| <= 126 + 104 * 64
  {
    hide UeCode, EntriesCode, EntriesOk, EntriesInRange;
    AnyUe(v.lumaDenom);
    AnyUe(v.chromaDenom);
    EntriesLength(c.Chroma(), if c.Weighted() then ActiveReferences(c, counts) else 0, v.entries);
  }

  lemma {:induction false} EndLength(c: Context, v: Body)
    requires MarksOk(c, v.marks) && QuantisersOk(c, v.quantisers) && DeblockingOk(c, v.deblocking) && OpsInRange(v.marks.marking)
    ensures |MarksCode(c, v.marks)| + |QuantisersCode(c, v.quantisers)| + |DeblockingCode(c, v.deblocking)| <= 4808 + 190 + 189
  {
    hide UeCode, SeCode, SesCode, FlaggedOpsCode, FlaggedOpsOk, OpsInRange;
    FlaggedOpsLength(c.nalRefIdc != 0 && !c.Idr(), OpKind.Marking, v.marks.marking);
    AnyUe(v.quantisers.cabacInitIdc);
    AnySe(v.quantisers.qpDelta);
    AnySe(v.quantisers.qsDelta);
    AnyUe(v.deblocking.disable);
    SesLength(v.deblocking.offsets);
  }

  /** A header whose values are in range takes less than 21840 bits. */
  lemma {:induction false} InRangeIsShort(ps: Parameters, v: Header)
    requires HeaderOk(ps, v) && SetsInRange(ps) && HeaderInRange(v)
    ensures |HeaderCode(ps, v)| <= 18000
  {
    hide LeadCode, LeadOk, PictureCode, PictureOk, OrderCode, OrderOk, ReferencesCode, WeightsCode, WeightsOk,
      MarksCode, MarksOk, QuantisersCode, QuantisersOk, DeblockingCode, DeblockingOk, OpsInRange, EntriesInRange, FlaggedOpsOk, CountsOk;
    var c := ContextOf(ps, SliceOf(v.lead)).value;
    LeadLength(v.lead);
    PictureLength(c, v.body.picture);
    OrderLength(c, v.body.picture.fieldPic, v.body.order);
    ReferencesLength(c, v.body.references);
    WeightsLength(c, v.body.references.counts, v.body.weights);
    EndLength(c, v.body);
  }

  /** So every such header is found again once written, whatever follows it. */
  lemma {:induction false} InRangeReadsBack(ps: Parameters, v: Header, after: seq<bool>)
    requires HeaderOk(ps, v) && SetsInRange(ps) && HeaderInRange(v) && |HeaderCode(ps, v) + after| % 8 == 0
    ensures HeaderLength(TapeOf(Written(ps, v, after)), ps) == Ok(|HeaderCode(ps, v)|)
  {
    hide HeaderOk, HeaderCode, HeaderLength, Written, TapeOf, SetsInRange, HeaderInRange;
    InRangeIsShort(ps, v);
    WrittenReadsBack(ps, v, after);
  }

  // ----- A header that is too long -----

  lemma {:induction false} ManyOps(kind: OpKind, op: Op, n: nat)
    ensures var ops := seq(n, i => op);
            |OpsCode(kind, ops)| == n * (|UeCode(op.code)| + |UesCode(op.arguments)|) + |UeCode(kind.End())|
  {
    hide UeCode, UesCode;
    if n > 0 {
      ManyOps(kind, op, n - 1);
      assert seq(n, i => op)[1..] == seq(n - 1, i => op);
    }
  }

  lemma {:induction false} ManyEntries(chroma: bool, entry: Weight, n: nat)
    ensures |EntriesCode(chroma, seq(n, i => entry))| == n * |EntryCode(chroma, entry)|
  {
    hide EntryCode;
    if n > 0 {
      ManyEntries(chroma, entry, n - 1);
      assert seq(n, i => entry)[1..] == seq(n - 1, i => entry);
    }
  }

  /** The longest codes take 63 bits. */
  lemma {:induction false} LongestCodes()
    ensures |UeCode(UE_MAX)| == 63 && |SeCode(SE_MAX)| == 63 && |UeCode(0)| == 1 && |UeCode(1)| == 3 && |UeCode(3)| == 5
  {
    hide Pow2;
    Pow2Values();
    assert Pow2(0) == 1 && Pow2(1) == 2 && Pow2(2) == 4 && Pow2(3) == 8 by {
      Pow2Small();
    }
    Log2Of(UE_MAX + 1, 31);
    Log2Of(2 * SE_MAX, 31);
    Log2Of(1, 0);
    Log2Of(2, 1);
    Log2Of(4, 2);
  }

  lemma {:induction false} Pow2Small()
    ensures Pow2(0) == 1 && Pow2(1) == 2 && Pow2(2) == 4 && Pow2(3) == 8
  {
  }

  const LONG_SPS := Sps(1, false, 4, 2, 0, false, true)
  const LONG_PPS := Pps(0, false, false, 1, 1, false, 1, false, false)
  const LONG_SETS := Parameters(map[0 := LONG_SPS], map[0 := LONG_PPS])
  const LONG_OP := Op(0, [UE_MAX])
  const LONG_LIST: Option<seq<Op>> := Some(seq(64, i => LONG_OP))
  const LONG_WEIGHT := Weight([SE_MAX, SE_MAX], [SE_MAX, SE_MAX, SE_MAX, SE_MAX])

  /** A B slice that overrides and weighs 32 references in each list, and changes and marks as many as it may. */
  function LongHeader(): Header {
    Header(Lead([false], 1, 1, 0, 1, 0),
           Body(Picture([], [false, false, false, false], false, [], 0), Order([], 0, 0, 0, 0),
                References([true], [31, 31], LONG_LIST, LONG_LIST), Weights(0, 0, seq(64, i => LONG_WEIGHT)),
                Marks([], Some(seq(64, i => Op(1, [UE_MAX])))), Quantisers(0, 0, [], 0), Deblocking(0, [])))
  }

  function LongContext(): Context {
    Context(LONG_SPS, LONG_PPS, 1, 1, 1)
  }

  lemma {:induction false} LongOps()
    ensures OpsOk(Modification, MAX_OPERATIONS + 1, LONG_LIST.value)
    ensures OpsOk(OpKind.Marking, MAX_OPERATIONS + 1, seq(64, i => Op(1, [UE_MAX])))
    ensures EntriesOk(true, 64, seq(64, i => LONG_WEIGHT))
    ensures |OpsCode(Modification, LONG_LIST.value)| == 64 * 64 + 5
    ensures |OpsCode(OpKind.Marking, seq(64, i => Op(1, [UE_MAX])))| == 64 * 66 + 1
    ensures |EntriesCode(true, seq(64, i => LONG_WEIGHT))| == 64 * 380
  {
    hide UeCode, SeCode, OpsCode, EntriesCode;
    LongestCodes();
    ManyOps(Modification, LONG_OP, 64);
    ManyOps(OpKind.Marking, Op(1, [UE_MAX]), 64);
    ManyEntries(true, LONG_WEIGHT, 64);
    OneUesCode(UE_MAX);
    FewSesCodes(SE_MAX);
  }

  lemma {:induction false} OneUesCode(v: nat)
    ensures |UesCode([v])| == |UeCode(v)|
  {
    hide UeCode;
    assert [v][1..] == [] && UesCode([]) == [];
  }

  lemma {:induction false} FewSesCodes(v: int)
    ensures |SesCode([v, v])| == 2 * |SeCode(v)| && |SesCode([v, v, v, v])| == 4 * |SeCode(v)|
  {
    hide SeCode;
    assert SesCode([]) == [] && [v][1..] == [] && [v, v][1..] == [v] && [v, v, v][1..] == [v, v] && [v, v, v, v][1..] == [v, v, v];
    assert |SesCode([v])| == |SeCode(v)|;
    assert |SesCode([v, v])| == |SeCode(v)| + |SesCode([v])|;
    assert |SesCode([v, v, v])| == |SeCode(v)| + |SesCode([v, v])|;
  }

  lemma {:induction false} LongStart()
    ensures var v := LongHeader();
            && LeadOk(v.lead) && ContextOf(LONG_SETS, SliceOf(v.lead)) == Some(LongContext())
            && PictureOk(LongContext(), v.body.picture) && OrderOk(LongContext(), v.body.picture.fieldPic, v.body.order)
  {
    hide Pow2;
    Pow2Small();
    assert Pow2(5) == 32 by {
      Pow2Sum(2, 3);
    }
  }

  lemma {:induction false} LongMiddle()
    ensures var v := LongHeader().body;
            ReferencesOk(LongContext(), v.references) && WeightsOk(LongContext(), v.references.counts, v.weights)
  {
    hide FlaggedOpsOk, CountsOk, EntriesOk, ActiveReferences;
    LongLists();
    LongCounts();
    LongOps();
  }

  lemma {:induction false} LongLists()
    ensures FlaggedOpsOk(true, Modification, LONG_LIST)
  {
    hide OpsOk;
    LongOps();
  }

  lemma {:induction false} LongCounts()
    ensures CountsOk(LongContext(), [31, 31]) && ActiveReferences(LongContext(), [31, 31]) == 64
  {
  }

  lemma {:induction false} LongEnd()
    ensures var v := LongHeader().body;
            && MarksOk(LongContext(), v.marks) && QuantisersOk(LongContext(), v.quantisers)
            && DeblockingOk(LongContext(), v.deblocking)
  {
    hide OpsOk, EntriesOk;
    LongOps();
  }

  lemma {:induction false} LongHeaderIsHeader()
    ensures HeaderOk(LONG_SETS, LongHeader())
  {
    hide LongHeader, LeadOk, ContextOf, PictureOk, OrderOk, ReferencesOk, WeightsOk, MarksOk, QuantisersOk, DeblockingOk;
    LongStart();
    LongMiddle();
    LongEnd();
  }

  lemma {:induction false} LongHeaderLength()
    ensures |HeaderCode(LONG_SETS, LongHeader())| > 8 * MAX_SLICE_HEADER_BYTES
  {
    hide OpsCode, EntriesCode, UeCode, SeCode, Binary, UesCode, SesCode;
    LongOps();
  }

  lemma {:induction false} LongOutOfRange()
    ensures SetsInRange(LONG_SETS) && !HeaderInRange(LongHeader())
  {
    hide OpsInRange;
    var entries := LongHeader().body.weights.entries;
    assert entries[0].luma[0] == SE_MAX;
    assert !SesInRange(entries[0].luma);
  }

  /**
   Not every header that the syntax table writes can be found: this one, written in full, is refused
   whatever follows it, because it does not fit the 4096 bytes looked at. Its values are out of range.
   */
  lemma {:induction false} SomeHeaderIsTooLong(after: seq<bool>)
    requires |HeaderCode(LONG_SETS, LongHeader()) + after| % 8 == 0
    ensures HeaderOk(LONG_SETS, LongHeader()) && SetsInRange(LONG_SETS) && !HeaderInRange(LongHeader())
    ensures HeaderLength(TapeOf(Written(LONG_SETS, LongHeader(), after)), LONG_SETS).Err?
  {
    hide HeaderCode, HeaderOk, HeaderLength, TapeOf, LongHeader, Written, SetsInRange, HeaderInRange;
    LongHeaderIsHeader();
    LongOutOfRange();
    LongHeaderLength();
    WrittenReadsBack(LONG_SETS, LongHeader(), after);
    TapeIsPrefix(Written(LONG_SETS, LongHeader(), after));
  }
}
