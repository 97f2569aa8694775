/**
 H.265 slice segment headers (src/cenc/hevc.rs; section 7.3.6.1 of ITU-T H.265): where a header ends,
 as a function of a tape of bits, and the source's reader, tried on a short start of the NAL unit
 first and on a longer one only when that fails.
 */
module Hevc {
  import opened Common
  import opened Bits
  import opened Syntax
  import opened ReferenceSets
  import Subsamples

  const SLICE_HEADER_BYTES := 1024
  const LARGE_SLICE_HEADER_BYTES := 64 * 1024
  const MAX_LONG_TERM_PICTURES := 32

  datatype Sps = Sps(
    chromaArrayType: nat, separateColourPlane: bool, picSizeInCtbs: nat, log2MaxPocLsb: nat, sampleAdaptiveOffset: bool,
    referenceSets: seq<ReferenceSet>, longTermPresent: bool, longTermUsed: seq<bool>, temporalMvp: bool)

  datatype Pps = Pps(
    spsId: nat, dependentSliceSegments: bool, outputFlagPresent: bool, extraSliceHeaderBits: nat, cabacInitPresent: bool,
    numRefIdxL0Default: nat, numRefIdxL1Default: nat, weightedPred: bool, weightedBipred: bool,
    sliceChromaQpOffsetsPresent: bool, chromaQpOffsetListEnabled: bool, deblockingOverrideEnabled: bool,
    deblockingDisabled: bool, loopFilterAcrossSlices: bool, listsModificationPresent: bool, entryPoints: bool,
    headerExtensionPresent: bool)

  datatype Parameters = Parameters(sps: map<nat, Sps>, pps: map<nat, Pps>)

  /** How many bits tell `value` things apart. */
  function CeilLog2(value: nat): nat {
    if value <= 1 then 0 else 1 + CeilLog2((value + 1) / 2)
  }

  /** `ceil_log2` finds the least power of two that is large enough. */
  lemma {:induction false} CeilLog2Is(value: nat)
    ensures value <= Pow2(CeilLog2(value)) && (value > 1 ==> Pow2(CeilLog2(value)) < 2 * value)
  {
    if value > 1 {
      CeilLog2Is((value + 1) / 2);
    }
  }

  /** `count` runs of `width` bits. */
  function SkipsAt(t: seq<bool>, p: nat, count: nat, width: nat): (r: Read<()>)
    ensures r.Got? ==> p <= r.at
    decreases count
  {
    if count == 0 then Got((), p)
    else
      var (_, p1) :- SkipAt(t, p, width);
      SkipsAt(t, p1, count - 1, width)
  }

  // ----- The pictures a slice may refer to -----

  /** `used` pictures among those the slice names as long-term references. */
  function LongTermAt(t: seq<bool>, p: nat, sps: Sps, index: nat, total: nat, fromSps: nat): (r: Read<nat>)
    ensures r.Got? ==> p <= r.at
    decreases total - index
  {
    if index >= total then Got(0, p)
    else
      var (used, p1) :- LongTermOneAt(t, p, sps, index < fromSps);
      var (msb, p2) :- BitReadAt(t, p1);
      var (_, p3) :- OptUeAt(t, p2, msb);
      var (rest, end) :- LongTermAt(t, p3, sps, index + 1, total, fromSps);
      Got(rest + (if used then 1 else 0), end)
  }

  function LongTermOneAt(t: seq<bool>, p: nat, sps: Sps, listed: bool): (r: Read<bool>)
    ensures r.Got? ==> p <= r.at
  {
    if listed then
      var (which, p1) :- BitsAt(t, p, if |sps.longTermUsed| > 1 then CeilLog2(|sps.longTermUsed|) else 0);
      Got(which < |sps.longTermUsed| && sps.longTermUsed[which], p1)
    else
      var (_, p1) :- SkipAt(t, p, sps.log2MaxPocLsb);
      BitReadAt(t, p1)
  }

  function LongTermsAt(t: seq<bool>, p: nat, sps: Sps): (r: Read<nat>)
    ensures r.Got? ==> p <= r.at
  {
    if !sps.longTermPresent then Got(0, p)
    else
      var (fromSps, p1) :- OptUeAt(t, p, sps.longTermUsed != []);
      var (explicit, p2) :- UeAt(t, p1);
      if fromSps + explicit > MAX_LONG_TERM_PICTURES then Bad
      else LongTermAt(t, p2, sps, 0, fromSps + explicit, fromSps)
  }

  /** The reference picture set in force: one of the parameter set's, or the slice's own. */
  function CurrentSetAt(t: seq<bool>, p: nat, sps: Sps): (r: Read<ReferenceSet>)
    ensures r.Got? ==> p <= r.at
  {
    var (fromSps, p1) :- BitReadAt(t, p);
    var count := |sps.referenceSets|;
    if !fromSps then SetAt(t, p1, count, count, sps.referenceSets)
    else
      var (index, p2) :- BitsAt(t, p1, if count > 1 then CeilLog2(count) else 0);
      if index >= count then Bad else Got(sps.referenceSets[index], p2)
  }

  datatype Pictures = Pictures(total: nat, temporalMvp: bool)

  function PicturesAt(t: seq<bool>, p: nat, sps: Sps, idr: bool): (r: Read<Pictures>)
    ensures r.Got? ==> p <= r.at
  {
    if idr then Got(Pictures(0, false), p)
    else
      var (_, p1) :- SkipAt(t, p, sps.log2MaxPocLsb);
      var (current, p2) :- CurrentSetAt(t, p1, sps);
      var (longTerm, p3) :- LongTermsAt(t, p2, sps);
      var (temporalMvp, p4) :- FlagAt(t, p3, sps.temporalMvp);
      Got(Pictures(current.Used() + longTerm, temporalMvp), p4)
  }

  // ----- Prediction -----

  datatype Counts = Counts(l0: nat, l1: nat)

  /** `ref_count` */
  function RefCountAt(t: seq<bool>, p: nat): (r: Read<nat>)
    ensures r.Got? ==> p <= r.at
  {
    var (code, p1) :- UeAt(t, p);
    if code + 1 > 16 then Bad else Got(code + 1, p1)
  }

  function CountsAt(t: seq<bool>, p: nat, pps: Pps, b: bool): (r: Read<Counts>)
    ensures r.Got? ==> p <= r.at
  {
    var (override, p1) :- BitReadAt(t, p);
    if !override then Got(Counts(pps.numRefIdxL0Default, pps.numRefIdxL1Default), p1)
    else
      var (l0, p2) :- RefCountAt(t, p1);
      if !b then Got(Counts(l0, pps.numRefIdxL1Default), p2)
      else
        var (l1, p3) :- RefCountAt(t, p2);
        Got(Counts(l0, l1), p3)
  }

  /** `list_modification` */
  function ListAt(t: seq<bool>, p: nat, present: bool, active: nat, width: nat): (r: Read<()>)
    ensures r.Got? ==> p <= r.at
  {
    var (flag, p1) :- FlagAt(t, p, present);
    SkipsAt(t, p1, if flag then active else 0, width)
  }

  /** The weights of references from `i` on: two elements for luma and four for chroma, where flagged. */
  function WeightsFromAt(t: seq<bool>, p: nat, luma: seq<bool>, chroma: seq<bool>, i: nat): (r: Read<()>)
    ensures r.Got? ==> p <= r.at
    decreases |luma| - i
  {
    if i >= |luma| then Got((), p)
    else
      var (_, p1) :- SesAt(t, p, if luma[i] then 2 else 0);
      var (_, p2) :- SesAt(t, p1, if i < |chroma| && chroma[i] then 4 else 0);
      WeightsFromAt(t, p2, luma, chroma, i + 1)
  }

  function ListWeightsAt(t: seq<bool>, p: nat, chroma: bool, count: nat): (r: Read<()>)
    ensures r.Got? ==> p <= r.at
  {
    var (luma, p1) :- SkipAt(t, p, count);
    var (chromaFlags, p2) :- SkipAt(t, p1, if chroma then count else 0);
    WeightsFromAt(t, p2, luma, chromaFlags, 0)
  }

  /** `pred_weight_table` */
  function WeightTableAt(t: seq<bool>, p: nat, chroma: bool, l0: nat, l1: nat): (r: Read<()>)
    ensures r.Got? ==> p <= r.at
  {
    var (_, p1) :- UeAt(t, p);
    var (_, p2) :- OptSeAt(t, p1, chroma);
    var (_, p3) :- ListWeightsAt(t, p2, chroma, l0);
    ListWeightsAt(t, p3, chroma, l1)
  }

  function CollocatedAt(t: seq<bool>, p: nat, temporalMvp: bool, b: bool, counts: Counts): (r: Read<()>)
    ensures r.Got? ==> p <= r.at
  {
    if !temporalMvp then Got((), p)
    else
      var (bit, p1) :- FlagAt(t, p, b);
      var fromL0 := if b then bit else true;
      var (_, p2) :- OptUeAt(t, p1, (fromL0 && counts.l0 > 1) || (!fromL0 && counts.l1 > 1));
      Got((), p2)
  }

  function ListsAt(t: seq<bool>, p: nat, pps: Pps, b: bool, total: nat, counts: Counts): (r: Read<()>)
    ensures r.Got? ==> p <= r.at
  {
    var present := pps.listsModificationPresent && total > 1;
    var (_, p1) :- ListAt(t, p, present, counts.l0, CeilLog2(total));
    ListAt(t, p1, present && b, counts.l1, CeilLog2(total))
  }

  /** The fields of slices predicted from other pictures. */
  function PredictionAt(t: seq<bool>, p: nat, sps: Sps, pps: Pps, b: bool, pictures: Pictures): (r: Read<()>)
    ensures r.Got? ==> p <= r.at
  {
    var (counts, p1) :- CountsAt(t, p, pps, b);
    var (_, p2) :- ListsAt(t, p1, pps, b, pictures.total, counts);
    var (_, p3) :- SkipAt(t, p2, if b then 1 else 0);
    var (_, p4) :- SkipAt(t, p3, if pps.cabacInitPresent then 1 else 0);
    var (_, p5) :- CollocatedAt(t, p4, pictures.temporalMvp, b, counts);
    MergeAt(t, p5, sps, pps, b, counts)
  }

  /** Weights, where there are any, and the number of merge candidates. */
  function MergeAt(t: seq<bool>, p: nat, sps: Sps, pps: Pps, b: bool, counts: Counts): (r: Read<()>)
    ensures r.Got? ==> p <= r.at
  {
    var weighted := (pps.weightedPred && !b) || (pps.weightedBipred && b);
    var (_, p1) :- if weighted then WeightTableAt(t, p, sps.chromaArrayType != 0, counts.l0, if b then counts.l1 else 0) else Got((), p);
    var (_, p2) :- UeAt(t, p1);
    Got((), p2)
  }

  // ----- The other fields -----

  /** Up to the colour plane; gives the slice type. */
  function SliceTypeAt(t: seq<bool>, p: nat, sps: Sps, pps: Pps): (r: Read<nat>)
    ensures r.Got? ==> p <= r.at
  {
    var (_, p1) :- SkipAt(t, p, pps.extraSliceHeaderBits);
    var (sliceType, p2) :- UeAt(t, p1);
    if sliceType > 2 then Bad
    else
      var (_, p3) :- SkipAt(t, p2, if pps.outputFlagPresent then 1 else 0);
      var (_, p4) :- SkipAt(t, p3, if sps.separateColourPlane then 2 else 0);
      Got(sliceType, p4)
  }

  /** Whether either kind of sample adaptive offset is on. */
  function SaoAt(t: seq<bool>, p: nat, sps: Sps): (r: Read<bool>)
    ensures r.Got? ==> p <= r.at
  {
    var (luma, p1) :- FlagAt(t, p, sps.sampleAdaptiveOffset);
    var (chroma, p2) :- FlagAt(t, p1, sps.sampleAdaptiveOffset && sps.chromaArrayType != 0);
    Got(luma || chroma, p2)
  }

  function FiltersAt(t: seq<bool>, p: nat, pps: Pps, sao: bool): (r: Read<()>)
    ensures r.Got? ==> p <= r.at
  {
    var (override, p1) :- FlagAt(t, p, pps.deblockingOverrideEnabled);
    var (bit, p2) :- FlagAt(t, p1, override);
    var disabled := if override then bit else pps.deblockingDisabled;
    var (_, p3) :- SesAt(t, p2, if override && !disabled then 2 else 0);
    var (_, p4) :- SkipAt(t, p3, if pps.loopFilterAcrossSlices && (sao || !disabled) then 1 else 0);
    Got((), p4)
  }

  function EndAt(t: seq<bool>, p: nat, pps: Pps, sao: bool): (r: Read<()>)
    ensures r.Got? ==> p <= r.at
  {
    var (_, p1) :- SeAt(t, p);
    var (_, p2) :- SesAt(t, p1, if pps.sliceChromaQpOffsetsPresent then 2 else 0);
    var (_, p3) :- SkipAt(t, p2, if pps.chromaQpOffsetListEnabled then 1 else 0);
    FiltersAt(t, p3, pps, sao)
  }

  /** `slice_fields` */
  function SliceFieldsAt(t: seq<bool>, p: nat, sps: Sps, pps: Pps, idr: bool): (r: Read<()>)
    ensures r.Got? ==> p <= r.at
  {
    var (sliceType, p1) :- SliceTypeAt(t, p, sps, pps);
    var (pictures, p2) :- PicturesAt(t, p1, sps, idr);
    var (sao, p3) :- SaoAt(t, p2, sps);
    var (_, p4) :- if sliceType <= 1 then PredictionAt(t, p3, sps, pps, sliceType == 0, pictures) else Got((), p3);
    EndAt(t, p4, pps, sao)
  }

  datatype Start = Start(nalType: nat, firstSegment: bool, ppsId: nat)

  predicate IsSliceType(nalType: nat) {
    nalType <= 9 || 16 <= nalType <= 21
  }

  function StartAt(t: seq<bool>, p: nat): (r: Read<Start>)
    ensures r.Got? ==> p <= r.at
  {
    var (_, p1) :- SkipAt(t, p, 1);
    var (nalType, p2) :- BitsAt(t, p1, 6);
    var (layer, p3) :- BitsAt(t, p2, 6);
    var (_, p4) :- SkipAt(t, p3, 3);
    if !IsSliceType(nalType) || layer != 0 then Bad
    else
      var (first, p5) :- BitReadAt(t, p4);
      var (_, p6) :- SkipAt(t, p5, if 16 <= nalType <= 23 then 1 else 0);
      var (ppsId, p7) :- UeAt(t, p6);
      Got(Start(nalType, first, ppsId), p7)
  }

  /** Whether the segment depends on an earlier one, and its address. */
  function SegmentAt(t: seq<bool>, p: nat, sps: Sps, pps: Pps, first: bool): (r: Read<bool>)
    ensures r.Got? ==> p <= r.at
  {
    var (dependent, p1) :- FlagAt(t, p, !first && pps.dependentSliceSegments);
    var (_, p2) :- SkipAt(t, p1, if first then 0 else CeilLog2(sps.picSizeInCtbs));
    Got(dependent, p2)
  }

  function EntryPointsAt(t: seq<bool>, p: nat, present: bool): (r: Read<()>)
    ensures r.Got? ==> p <= r.at
  {
    var (count, p1) :- OptUeAt(t, p, present);
    if count == 0 then Got((), p1)
    else
      var (width, p2) :- UeAt(t, p1);
      if width + 1 > 32 then Bad else SkipsAt(t, p2, count, width + 1)
  }

  function ExtensionAt(t: seq<bool>, p: nat, present: bool): (r: Read<()>)
    ensures r.Got? ==> p <= r.at
  {
    var (length, p1) :- OptUeAt(t, p, present);
    var (_, p2) :- SkipAt(t, p1, length * 8);
    Got((), p2)
  }

  function BodyAt(t: seq<bool>, p: nat, sps: Sps, pps: Pps, start: Start): (r: Read<()>)
    ensures r.Got? ==> p <= r.at
  {
    var (dependent, p1) :- SegmentAt(t, p, sps, pps, start.firstSegment);
    var (_, p2) :- if dependent then Got((), p1) else SliceFieldsAt(t, p1, sps, pps, start.nalType == 19 || start.nalType == 20);
    TrailAt(t, p2, pps)
  }

  function TrailAt(t: seq<bool>, p: nat, pps: Pps): (r: Read<()>)
    ensures r.Got? ==> p <= r.at
  {
    var (_, p1) :- EntryPointsAt(t, p, pps.entryPoints);
    ExtensionAt(t, p1, pps.headerExtensionPresent)
  }

  function SetsOf(ps: Parameters, ppsId: nat): Option<(Sps, Pps)> {
    if ppsId !in ps.pps || ps.pps[ppsId].spsId !in ps.sps then None
    else Some((ps.sps[ps.pps[ppsId].spsId], ps.pps[ppsId]))
  }

  /** Where the slice segment header at the start of a tape ends, its alignment not counted. */
  function HeaderAt(t: seq<bool>, ps: Parameters): Read<()> {
    var (start, p1) :- StartAt(t, 0);
    match SetsOf(ps, start.ppsId)
    case None => Bad
    case Some((sps, pps)) => BodyAt(t, p1, sps, pps, start)
  }

  /** `byte_alignment()`: a one bit, then zeros to the byte's end. */
  function Aligned(position: nat): nat {
    (position / 8 + 1) * 8
  }

  // ----- The source's reader -----

  method Skips(r: BitReader, count: nat, width: nat) returns (res: Result<()>)
    requires r.Valid()
    modifies r
    ensures r.Valid() && r.Passes(res, SkipsAt(r.tape, old(r.bit), count, width))
  {
    hide BitsOf;
    ghost var whole := SkipsAt(r.tape, r.bit, count, width);
    for i := 0 to count
      invariant r.Valid() && SameEnd(whole, SkipsAt(r.tape, r.bit, count - i, width))
    {
      var _ :- r.Skip(width);
    }
    return Ok(());
  }

  method Flags(r: BitReader, count: nat) returns (res: Result<seq<bool>>)
    requires r.Valid()
    modifies r
    ensures r.Valid() && r.Follows(res, SkipAt(r.tape, old(r.bit), count))
  {
    hide BitsOf;
    ghost var p := r.bit;
    var flags: seq<bool> := [];
    for i := 0 to count
      invariant r.Valid() && r.bit == p + i && |flags| == i && r.bit <= |r.tape| && flags == r.tape[p..p + i]
    {
      var flag :- r.Bit();
      flags := flags + [flag];
    }
    return Ok(flags);
  }

  lemma {:induction false} Nothing(t: seq<bool>, p: nat)
    ensures SesAt(t, p, 0) == Got([], p) && SkipsAt(t, p, 0, 0) == Got((), p)
    ensures p <= |t| ==> SkipAt(t, p, 0) == Got([], p)
  {
    if p <= |t| {
      assert t[p..p] == [];
    }
  }

  method LongTermOne(r: BitReader, sps: Sps, listed: bool) returns (res: Result<bool>)
    requires r.Valid()
    modifies r
    ensures r.Valid() && r.Follows(res, LongTermOneAt(r.tape, old(r.bit), sps, listed))
  {
    hide BitsOf, BitsAt, CeilLog2;
    if listed {
      var which := 0;
      NoBits(r.tape, r.bit);
      if |sps.longTermUsed| > 1 {
        which :- r.Bits(CeilLog2(|sps.longTermUsed|));
      }
      return Ok(which < |sps.longTermUsed| && sps.longTermUsed[which]);
    }
    var _ :- r.Skip(sps.log2MaxPocLsb);
    res := r.Bit();
  }

  lemma {:induction false} NoBits(t: seq<bool>, p: nat)
    ensures p <= |t| ==> BitsAt(t, p, 0) == Got(0, p)
  {
  }

  method LongTerm(r: BitReader, sps: Sps, total: nat, fromSps: nat) returns (res: Result<nat>)
    requires r.Valid()
    modifies r
    ensures r.Valid() && r.Follows(res, LongTermAt(r.tape, old(r.bit), sps, 0, total, fromSps))
  {
    hide BitsOf, LongTermOneAt, UeAt;
    var used := 0;
    ghost var whole := LongTermAt(r.tape, r.bit, sps, 0, total, fromSps);
    for index := 0 to total
      invariant r.Valid()
      invariant SameEnd(whole, LongTermAt(r.tape, r.bit, sps, index, total, fromSps))
      invariant whole.Got? ==> whole.value == used + LongTermAt(r.tape, r.bit, sps, index, total, fromSps).value
    {
      var one :- LongTermOne(r, sps, index < fromSps);
      if one {
        used := used + 1;
      }
      var msb :- r.Bit();
      if msb {
        var _ :- r.Ue();
      }
    }
    return Ok(used);
  }

  method LongTerms(r: BitReader, sps: Sps) returns (res: Result<nat>)
    requires r.Valid()
    modifies r
    ensures r.Valid() && r.Follows(res, LongTermsAt(r.tape, old(r.bit), sps))
  {
    hide BitsOf, LongTermAt, UeAt;
    if !sps.longTermPresent {
      return Ok(0);
    }
    var fromSps := 0;
    if |sps.longTermUsed| > 0 {
      fromSps :- r.Ue();
    }
    var explicit :- r.Ue();
    if fromSps + explicit > MAX_LONG_TERM_PICTURES {
      return Err;
    }
    res := LongTerm(r, sps, fromSps + explicit, fromSps);
  }

  method CurrentSet(r: BitReader, sps: Sps) returns (res: Result<ReferenceSet>)
    requires r.Valid()
    modifies r
    ensures r.Valid() && r.Follows(res, CurrentSetAt(r.tape, old(r.bit), sps))
  {
    hide BitsOf, BitsAt, SetAt, CeilLog2;
    var fromSps :- r.Bit();
    NoBits(r.tape, r.bit);
    var count := |sps.referenceSets|;
    if !fromSps {
      res := ReadSet(r, count, count, sps.referenceSets);
      return;
    }
    var index := 0;
    if count > 1 {
      index :- r.Bits(CeilLog2(count));
    }
    if index >= count {
      return Err;
    }
    return Ok(sps.referenceSets[index]);
  }

  method ReadPictures(r: BitReader, sps: Sps, idr: bool) returns (res: Result<Pictures>)
    requires r.Valid()
    modifies r
    ensures r.Valid() && r.Follows(res, PicturesAt(r.tape, old(r.bit), sps, idr))
  {
    hide BitsOf, CurrentSetAt, LongTermsAt;
    if idr {
      return Ok(Pictures(0, false));
    }
    var _ :- r.Skip(sps.log2MaxPocLsb);
    var current :- CurrentSet(r, sps);
    var longTerm :- LongTerms(r, sps);
    var temporalMvp := false;
    if sps.temporalMvp {
      temporalMvp :- r.Bit();
    }
    return Ok(Pictures(current.Used() + longTerm, temporalMvp));
  }

  method ActiveCount(r: BitReader) returns (res: Result<nat>)
    requires r.Valid()
    modifies r
    ensures r.Valid() && r.Follows(res, RefCountAt(r.tape, old(r.bit)))
  {
    hide UeAt, BitsOf;
    var code :- r.Ue();
    if code + 1 > 16 {
      return Err;
    }
    return Ok(code + 1);
  }

  method ReadCounts(r: BitReader, pps: Pps, b: bool) returns (res: Result<Counts>)
    requires r.Valid()
    modifies r
    ensures r.Valid() && r.Follows(res, CountsAt(r.tape, old(r.bit), pps, b))
  {
    hide RefCountAt, BitsOf;
    var l0, l1 := pps.numRefIdxL0Default, pps.numRefIdxL1Default;
    var override :- r.Bit();
    if override {
      l0 :- ActiveCount(r);
      if b {
        l1 :- ActiveCount(r);
      }
    }
    return Ok(Counts(l0, l1));
  }

  method ListModification(r: BitReader, active: nat, width: nat) returns (res: Result<()>)
    requires r.Valid()
    modifies r
    ensures r.Valid() && r.Passes(res, ListAt(r.tape, old(r.bit), true, active, width))
  {
    hide BitsOf;
    var flag :- r.Bit();
    if flag {
      res := Skips(r, active, width);
      return;
    }
    return Ok(());
  }

  method ReadLists(r: BitReader, pps: Pps, b: bool, total: nat, counts: Counts) returns (res: Result<()>)
    requires r.Valid()
    modifies r
    ensures r.Valid() && r.Passes(res, ListsAt(r.tape, old(r.bit), pps, b, total, counts))
  {
    hide BitsOf, CeilLog2;
    if pps.listsModificationPresent && total > 1 {
      var width := CeilLog2(total);
      var _ :- ListModification(r, counts.l0, width);
      if b {
        var _ :- ListModification(r, counts.l1, width);
      }
    }
    return Ok(());
  }

  method ListWeights(r: BitReader, chroma: bool, count: nat) returns (res: Result<()>)
    requires r.Valid()
    modifies r
    ensures r.Valid() && r.Passes(res, ListWeightsAt(r.tape, old(r.bit), chroma, count))
  {
    hide BitsOf, SesAt;
    var luma :- Flags(r, count);
    var chromaFlags: seq<bool> := [];
    Nothing(r.tape, r.bit);
    if chroma {
      chromaFlags :- Flags(r, count);
    }
    ghost var whole := WeightsFromAt(r.tape, r.bit, luma, chromaFlags, 0);
    for i := 0 to |luma|
      invariant r.Valid() && SameEnd(whole, WeightsFromAt(r.tape, r.bit, luma, chromaFlags, i))
    {
      Nothing(r.tape, r.bit);
      if luma[i] {
        var _ :- SkipSes(r, 2);
      }
      Nothing(r.tape, r.bit);
      if i < |chromaFlags| && chromaFlags[i] {
        var _ :- SkipSes(r, 4);
      }
    }
    return Ok(());
  }

  method PredWeightTable(r: BitReader, chroma: bool, l0: nat, l1: nat) returns (res: Result<()>)
    requires r.Valid()
    modifies r
    ensures r.Valid() && r.Passes(res, WeightTableAt(r.tape, old(r.bit), chroma, l0, l1))
  {
    hide BitsOf, UeAt, SeAt, ListWeightsAt;
    var _ :- r.Ue();
    if chroma {
      var _ :- r.Se();
    }
    var _ :- ListWeights(r, chroma, l0);
    res := ListWeights(r, chroma, l1);
  }

  method ReadCollocated(r: BitReader, temporalMvp: bool, b: bool, counts: Counts) returns (res: Result<()>)
    requires r.Valid()
    modifies r
    ensures r.Valid() && r.Passes(res, CollocatedAt(r.tape, old(r.bit), temporalMvp, b, counts))
  {
    hide BitsOf, UeAt;
    if temporalMvp {
      var fromL0 := true;
      if b {
        fromL0 :- r.Bit();
      }
      if (fromL0 && counts.l0 > 1) || (!fromL0 && counts.l1 > 1) {
        var _ :- r.Ue();
      }
    }
    return Ok(());
  }

  method ReadPrediction(r: BitReader, sps: Sps, pps: Pps, b: bool, pictures: Pictures) returns (res: Result<()>)
    requires r.Valid()
    modifies r
    ensures r.Valid() && r.Passes(res, PredictionAt(r.tape, old(r.bit), sps, pps, b, pictures))
  {
    hide BitsOf, CountsAt, ListsAt, CollocatedAt, MergeAt;
    var counts :- ReadCounts(r, pps, b);
    var _ :- ReadLists(r, pps, b, pictures.total, counts);
    if b {
      var _ :- r.Skip(1);
    }
    if pps.cabacInitPresent {
      var _ :- r.Skip(1);
    }
    var _ :- ReadCollocated(r, pictures.temporalMvp, b, counts);
    res := ReadMerge(r, sps, pps, b, counts);
  }

  method ReadMerge(r: BitReader, sps: Sps, pps: Pps, b: bool, counts: Counts) returns (res: Result<()>)
    requires r.Valid()
    modifies r
    ensures r.Valid() && r.Passes(res, MergeAt(r.tape, old(r.bit), sps, pps, b, counts))
  {
    hide BitsOf, UeAt, WeightTableAt;
    if (pps.weightedPred && !b) || (pps.weightedBipred && b) {
      var _ :- PredWeightTable(r, sps.chromaArrayType != 0, counts.l0, if b then counts.l1 else 0);
    }
    var _ :- r.Ue();
    return Ok(());
  }

  method ReadSliceType(r: BitReader, sps: Sps, pps: Pps) returns (res: Result<nat>)
    requires r.Valid()
    modifies r
    ensures r.Valid() && r.Follows(res, SliceTypeAt(r.tape, old(r.bit), sps, pps))
  {
    hide BitsOf, UeAt;
    var _ :- r.Skip(pps.extraSliceHeaderBits);
    var sliceType :- r.Ue();
    if sliceType > 2 {
      return Err;
    }
    if pps.outputFlagPresent {
      var _ :- r.Skip(1);
    }
    if sps.separateColourPlane {
      var _ :- r.Skip(2);
    }
    return Ok(sliceType);
  }

  method ReadSao(r: BitReader, sps: Sps) returns (res: Result<bool>)
    requires r.Valid()
    modifies r
    ensures r.Valid() && r.Follows(res, SaoAt(r.tape, old(r.bit), sps))
  {
    hide BitsOf;
    var luma, chroma := false, false;
    if sps.sampleAdaptiveOffset {
      luma :- r.Bit();
      if sps.chromaArrayType != 0 {
        chroma :- r.Bit();
      }
    }
    return Ok(luma || chroma);
  }

  method ReadFilters(r: BitReader, pps: Pps, sao: bool) returns (res: Result<()>)
    requires r.Valid()
    modifies r
    ensures r.Valid() && r.Passes(res, FiltersAt(r.tape, old(r.bit), pps, sao))
  {
    hide BitsOf, SesAt;
    var override := false;
    if pps.deblockingOverrideEnabled {
      override :- r.Bit();
    }
    var disabled := pps.deblockingDisabled;
    Nothing(r.tape, r.bit);
    if override {
      disabled :- r.Bit();
      Nothing(r.tape, r.bit);
      if !disabled {
        var _ :- SkipSes(r, 2);
      }
    }
    if pps.loopFilterAcrossSlices && (sao || !disabled) {
      var _ :- r.Skip(1);
    }
    return Ok(());
  }

  method ReadEnd(r: BitReader, pps: Pps, sao: bool) returns (res: Result<()>)
    requires r.Valid()
    modifies r
    ensures r.Valid() && r.Passes(res, EndAt(r.tape, old(r.bit), pps, sao))
  {
    hide BitsOf, SeAt, SesAt, FiltersAt;
    var _ :- r.Se();
    Nothing(r.tape, r.bit);
    if pps.sliceChromaQpOffsetsPresent {
      var _ :- SkipSes(r, 2);
    }
    if pps.chromaQpOffsetListEnabled {
      var _ :- r.Skip(1);
    }
    res := ReadFilters(r, pps, sao);
  }

  /** `slice_fields` */
  method SliceFields(r: BitReader, sps: Sps, pps: Pps, idr: bool) returns (res: Result<()>)
    requires r.Valid()
    modifies r
    ensures r.Valid() && r.Passes(res, SliceFieldsAt(r.tape, old(r.bit), sps, pps, idr))
  {
    hide BitsOf, SliceTypeAt, PicturesAt, SaoAt, PredictionAt, EndAt;
    var sliceType :- ReadSliceType(r, sps, pps);
    var pictures :- ReadPictures(r, sps, idr);
    var sao :- ReadSao(r, sps);
    if sliceType <= 1 {
      var _ :- ReadPrediction(r, sps, pps, sliceType == 0, pictures);
    }
    res := ReadEnd(r, pps, sao);
  }

  method ReadStart(r: BitReader) returns (res: Result<Start>)
    requires r.Valid()
    modifies r
    ensures r.Valid() && r.Follows(res, StartAt(r.tape, old(r.bit)))
  {
    hide BitsOf, BitsAt, UeAt;
    var _ :- r.Skip(1);
    var nalType :- r.Bits(6);
    var layer :- r.Bits(6);
    var _ :- r.Skip(3);
    if !IsSliceType(nalType) {
      return Err;
    }
    if layer != 0 {
      return Err;
    }
    var first :- r.Bit();
    if 16 <= nalType <= 23 {
      var _ :- r.Skip(1);
    }
    var ppsId :- r.Ue();
    return Ok(Start(nalType, first, ppsId));
  }

  method ReadSegment(r: BitReader, sps: Sps, pps: Pps, first: bool) returns (res: Result<bool>)
    requires r.Valid()
    modifies r
    ensures r.Valid() && r.Follows(res, SegmentAt(r.tape, old(r.bit), sps, pps, first))
  {
    hide BitsOf, CeilLog2;
    var dependent := false;
    if !first {
      if pps.dependentSliceSegments {
        dependent :- r.Bit();
      }
      var _ :- r.Skip(CeilLog2(sps.picSizeInCtbs));
    }
    return Ok(dependent);
  }

  method ReadEntryPoints(r: BitReader) returns (res: Result<()>)
    requires r.Valid()
    modifies r
    ensures r.Valid() && r.Passes(res, EntryPointsAt(r.tape, old(r.bit), true))
  {
    hide BitsOf, UeAt;
    var count :- r.Ue();
    if count > 0 {
      var width :- r.Ue();
      if width + 1 > 32 {
        return Err;
      }
      res := Skips(r, count, width + 1);
      return;
    }
    return Ok(());
  }

  method ReadBody(r: BitReader, sps: Sps, pps: Pps, start: Start) returns (res: Result<()>)
    requires r.Valid()
    modifies r
    ensures r.Valid() && r.Passes(res, BodyAt(r.tape, old(r.bit), sps, pps, start))
  {
    hide BitsOf, SegmentAt, SliceFieldsAt, TrailAt;
    var dependent :- ReadSegment(r, sps, pps, start.firstSegment);
    if !dependent {
      var _ :- SliceFields(r, sps, pps, start.nalType == 19 || start.nalType == 20);
    }
    res := ReadTrail(r, pps);
  }

  method ReadTrail(r: BitReader, pps: Pps) returns (res: Result<()>)
    requires r.Valid()
    modifies r
    ensures r.Valid() && r.Passes(res, TrailAt(r.tape, old(r.bit), pps))
  {
    hide BitsOf, UeAt, SkipsAt;
    if pps.entryPoints {
      var _ :- ReadEntryPoints(r);
    }
    if pps.headerExtensionPresent {
      var length :- r.Ue();
      var _ :- r.Skip(length * 8);
    }
    return Ok(());
  }

  /** `header_bits` over a reader at its start. */
  method HeaderBits(r: BitReader, ps: Parameters) returns (res: Result<nat>)
    requires r.Valid() && r.bit == 0
    modifies r
    ensures var spec := HeaderAt(r.tape, ps);
            res == if spec.Got? && spec.at <= 8 * |r.data| then Ok(Aligned(spec.at)) else Err
  {
    hide BitsOf, StartAt, BodyAt, SetsOf;
    var start :- ReadStart(r);
    match SetsOf(ps, start.ppsId)
    case None => return Err;
    case Some((sps, pps)) =>
      var _ :- ReadBody(r, sps, pps, start);
      return Ok((r.bit / 8 + 1) * 8);
  }

  // ----- Clear bytes: the short attempt and the long one -----

  /** The NAL bytes that cover a header which the unescaped bytes, with these origins, hold whole. */
  function Found(header: Read<()>, origin: seq<nat>): Result<nat> {
    if header.Bad? || header.at > 8 * |origin| then Err
    else
      match Covering(origin, Aligned(header.at))
      case None => Err
      case Some(n) => Ok(n)
  }

  function Front(nal: seq<byte>, limit: nat): Scan {
    Unescaped(nal[..Min(|nal|, limit)])
  }

  /** The whole NAL unit's bits; the header is theirs, however many of its bytes are looked at. */
  function TapeOf(nal: seq<byte>): seq<bool> {
    BitsOf(Unescaped(nal).bytes)
  }

  /** What a single attempt on the first 64 KiB gives. */
  function ClearBytesOf(ps: Parameters, nal: seq<byte>): Result<nat> {
    Found(HeaderAt(TapeOf(nal), ps), Front(nal, LARGE_SLICE_HEADER_BYTES).origin)
  }

  lemma {:induction false} FrontGrows(nal: seq<byte>, limit: nat, larger: nat)
    requires limit <= larger
    ensures Front(nal, limit).bytes <= Front(nal, larger).bytes && Front(nal, limit).origin <= Front(nal, larger).origin
    ensures BitsOf(Front(nal, limit).bytes) <= TapeOf(nal)
    ensures |nal| <= limit ==> Front(nal, limit) == Front(nal, larger)
  {
    hide Unescaped, BitsOf;
    var most := nal[..Min(|nal|, larger)];
    UnescapedPrefix(most, Min(|nal|, limit));
    assert most[..Min(|nal|, limit)] == nal[..Min(|nal|, limit)];
    UnescapedPrefix(nal, Min(|nal|, limit));
    BitsOfPrefix(Front(nal, limit).bytes, Unescaped(nal).bytes);
  }

  /** What fewer bytes find, more bytes find too, and find to be the same. */
  lemma {:induction false} FoundStays(header: Read<()>, origin: seq<nat>, longer: seq<nat>)
    requires origin <= longer && Found(header, origin).Ok?
    ensures Found(header, longer) == Found(header, origin)
  {
  }

  /** One attempt of `clear_bytes`, over the first `limit` bytes. */
  method Attempt(ps: Parameters, nal: seq<byte>, limit: nat) returns (res: Result<nat>)
    ensures res == Found(HeaderAt(TapeOf(nal), ps), Front(nal, limit).origin)
  {
    hide HeaderAt, BitsOf, Covering, Unescaped;
    FrontGrows(nal, limit, limit);
    var rbsp := new Rbsp(nal, limit);
    var r := new BitReader(rbsp.bytes, TapeOf(nal));
    var bits :- HeaderBits(r, ps);
    var covered := rbsp.NalBytesCovering(bits);
    if covered.None? {
      return Err;
    }
    return Ok(covered.value);
  }

  /**
   `clear_bytes`: trying 1024 bytes first, and 64 KiB only when those fail, gives for every NAL unit
   exactly what one attempt on 64 KiB gives.
   */
  method ClearBytes(ps: Parameters, nal: seq<byte>) returns (res: Result<nat>)
    ensures res == ClearBytesOf(ps, nal)
  {
    hide HeaderAt, TapeOf, BitsOf, Found, Front;
    FrontGrows(nal, SLICE_HEADER_BYTES, LARGE_SLICE_HEADER_BYTES);
    res := Attempt(ps, nal, SLICE_HEADER_BYTES);
    if res.Err? && |nal| > SLICE_HEADER_BYTES {
      res := Attempt(ps, nal, LARGE_SLICE_HEADER_BYTES);
    } else if res.Ok? {
      FoundStays(HeaderAt(TapeOf(nal), ps), Front(nal, SLICE_HEADER_BYTES).origin,
                 Front(nal, LARGE_SLICE_HEADER_BYTES).origin);
    }
  }

  /**
   The clear bytes never run past the NAL unit, and are the shortest start of it with every byte of
   the header and of its alignment.
   */
  lemma {:induction false} ClearBytesCoverHeader(ps: Parameters, nal: seq<byte>)
    requires ClearBytesOf(ps, nal).Ok?
    ensures var clear := ClearBytesOf(ps, nal).value;
            var header := HeaderAt(TapeOf(nal), ps);
            && clear <= |nal| && header.Got? && |Unescaped(nal[..clear]).bytes| == header.at / 8 + 1
            && forall k: nat :: k < clear ==> |Unescaped(nal[..k]).bytes| <= header.at / 8
  {
    hide HeaderAt, BitsOf, Covering, Unescaped;
    var clear := ClearBytesOf(ps, nal).value;
    var header := HeaderAt(TapeOf(nal), ps);
    var front := nal[..Min(|nal|, LARGE_SLICE_HEADER_BYTES)];
    CoveringIsShortest(front, Aligned(header.at));
    assert (Aligned(header.at) + 7) / 8 == header.at / 8 + 1;
    assert front[..clear] == nal[..clear];
    forall k: nat | k < clear ensures |Unescaped(nal[..k]).bytes| <= header.at / 8 {
      assert front[..k] == nal[..k];
      assert |Unescaped(front[..k]).bytes| < header.at / 8 + 1;
    }
  }

  /** H.265 as the subsample loop sees it. */
  function HevcCodec(lengthSize: nat, update: (Parameters, seq<byte>) -> Result<Parameters>): Subsamples.Codec<Parameters> {
    Subsamples.Codec(lengthSize, Subsamples.HevcKind, ClearBytesOf, update)
  }

  lemma {:induction false} HevcCodecIsValid(lengthSize: nat, update: (Parameters, seq<byte>) -> Result<Parameters>)
    requires 1 <= lengthSize <= 4
    ensures HevcCodec(lengthSize, update).Valid()
  {
    hide ClearBytesOf;
    forall ps: Parameters, nal: seq<byte> | ClearBytesOf(ps, nal).Ok? ensures ClearBytesOf(ps, nal).value <= |nal| {
      ClearBytesCoverHeader(ps, nal);
    }
  }
}
