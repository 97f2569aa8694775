/**
 Which bytes of H.264 and H.265 samples are encrypted (src/cenc/segment.rs): those of slices past
 their headers, wherever a slice stands in its sample and under the parameter sets met before it.
 */
module SliceProtection {
  import opened Common
  import opened Bits
  import opened Subsamples
  import Avc
  import AvcSets
  import Hevc
  import HevcPrinter
  import HevcExact

  // ----- What a NAL unit's first byte says -----

  lemma {:induction false} FirstByte(nal: seq<byte>)
    requires nal != []
    ensures Unescaped(nal).bytes != [] && Unescaped(nal).bytes[0] == nal[0]
  {
    UnescapedPrefix(nal, 1);
    assert nal[..1] == [nal[0]] && [nal[0]][..0] == [];
    assert Unescaped([]) == Scan([], [], 0);
  }

  lemma {:induction false} BitsOfFirst(bytes: seq<byte>)
    requires bytes != []
    ensures Value(BitsOf(bytes)[3..8]) == bytes[0] % 32
    ensures Value(BitsOf(bytes)[1..7]) == bytes[0] / 2 % 64
  {
    hide BitsOf, Value;
    Leading(bytes, 8);
    Leading(bytes, 7);
    Leading(bytes, 3);
    Leading(bytes, 1);
    var t, b := BitsOf(bytes), bytes[0];
    ValueAcross(t[..8], 3);
    ValueAcross(t[..7], 1);
    assert t[..8][..3] == t[..3] && t[..8][3..] == t[3..8] && t[..7][..1] == t[..1] && t[..7][1..] == t[1..7];
    assert Pow2(5) == 32 && Pow2(6) == 64 && Pow2(0) == 1 && Pow2(1) == 2 && Pow2(7) == 128;
  }

  /** The first `n` bits are the byte without its last `8 - n`. */
  lemma {:induction false} Leading(bytes: seq<byte>, n: nat)
    requires bytes != [] && n <= 8
    ensures Value(BitsOf(bytes)[..n]) == bytes[0] / Pow2(8 - n)
  {
    hide BitsOf;
    var t := BitsOf(bytes);
    if n == 0 {
      assert Pow2(8) == 256 by {
        assert Pow2(4) == 16;
      }
    } else {
      Leading(bytes, n - 1);
      BitOfFirst(bytes, n - 1);
      assert t[..n][..n - 1] == t[..n - 1];
      assert Pow2(8 - (n - 1)) == 2 * Pow2(8 - n);
      HalveTwice(bytes[0], Pow2(8 - n));
    }
  }

  lemma {:induction false} BitOfFirst(bytes: seq<byte>, i: nat)
    requires bytes != [] && i < 8
    ensures BitsOf(bytes)[i] == (bytes[0] / Pow2(7 - i) % 2 == 1)
  {
    hide Pow2;
  }

  lemma {:induction false} HalveTwice(b: nat, d: nat)
    requires d > 0
    ensures b / d == 2 * (b / (2 * d)) + b / d % 2
  {
    var q := b / d;
    var h := q / 2;
    assert b == q * d + b % d;
    Twice(h, d);
    if q % 2 == 0 {
      Parts(q, h, 0, d);
    } else {
      Parts(q, h, 1, d);
    }
    DivisionIs(b, 2 * d, h);
  }

  lemma {:induction false} Parts(q: nat, h: nat, e: nat, d: nat)
    requires q == 2 * h + e
    ensures q * d == 2 * (h * d) + e * d
  {
  }

  lemma {:induction false} ValueAcross(bits: seq<bool>, k: nat)
    requires k <= |bits|
    ensures Value(bits) == Value(bits[..k]) * Pow2(|bits| - k) + Value(bits[k..])
    decreases |bits|
  {
    var n := |bits| - 1;
    if k == |bits| {
      assert bits[..k] == bits && bits[k..] == [];
    } else {
      ValueAcross(bits[..n], k);
      assert bits[..n][..k] == bits[..k] && bits[..n][k..] == bits[k..][..n - k];
      assert Pow2(|bits| - k) == 2 * Pow2(n - k);
      Twice(Value(bits[..k]), Pow2(n - k));
    }
  }

  lemma {:induction false} Twice(a: nat, b: nat)
    ensures a * (2 * b) == 2 * (a * b)
  {
  }

  // ----- The NAL units of a sample -----

  /**
   Where the NAL unit after the first `count` starts, and the parameters it is read under: `sets` are
   the first bytes of the units that change them.
   */
  function Walk<P(!new)>(c: Codec<P>, sets: byte -> bool, p: P, sample: seq<byte>, count: nat): (r: Option<(nat, P)>)
    requires c.lengthSize >= 1
    ensures r.Some? ==> r.value.0 <= |sample|
  {
    if count == 0 then Some((0, p))
    else
      match Walk(c, sets, p, sample, count - 1)
      case None => None
      case Some((at, q)) =>
        match FirstNal(sample[at..], c.lengthSize)
        case None => None
        case Some(nal) =>
          FirstNalFits(sample[at..], c.lengthSize);
          var next := at + c.lengthSize + |nal|;
          if !sets(nal[0]) then Some((next, q))
          else
            match c.update(q, nal)
            case Err => None
            case Ok(updated) => Some((next, updated))
  }

  /** The mask from a NAL unit on is that of the rest of the sample, under the parameters met before it. */
  lemma {:induction false} MaskFrom<P(!new)>(c: Codec<P>, sets: byte -> bool, p: P, sample: seq<byte>, count: nat)
    requires c.Valid() && NalMask(c, p, sample).Some? && Walk(c, sets, p, sample, count).Some?
    requires forall first: byte :: sets(first) <==> c.kind(first).ParameterSet?
    ensures var (at, q) := Walk(c, sets, p, sample, count).value;
            && NalMask(c, q, sample[at..]).Some?
            && NalMask(c, p, sample).value[at..] == NalMask(c, q, sample[at..]).value
  {
    hide NalMask, FirstNal;
    if count == 0 {
      assert sample[0..] == sample;
      var mask := NalMask(c, p, sample).value;
      assert mask[0..] == mask;
    } else {
      var (at, q) := Walk(c, sets, p, sample, count - 1).value;
      MaskFrom(c, sets, p, sample, count - 1);
      var rest := sample[at..];
      FirstUnit(c, q, rest);
      FirstNalFits(rest, c.lengthSize);
      var unit := c.lengthSize + |FirstNal(rest, c.lengthSize).value|;
      SliceOfTail(sample, at, unit, unit);
      var mask := NalMask(c, p, sample).value;
      MaskLength(c, p, sample);
      SliceOfTail(mask, at, unit, unit);
    }
  }

  lemma {:induction false} MaskLength<P(!new)>(c: Codec<P>, p: P, sample: seq<byte>)
    requires c.Valid() && NalMask(c, p, sample).Some?
    ensures |NalMask(c, p, sample).value| == |sample|
  {
  }

  /** A sample's first NAL unit: clear but for a slice past its header; then the rest under its parameters. */
  lemma {:induction false} FirstUnit<P(!new)>(c: Codec<P>, q: P, rest: seq<byte>)
    requires c.Valid() && NalMask(c, q, rest).Some? && FirstNal(rest, c.lengthSize).Some?
    ensures var nal, mask := FirstNal(rest, c.lengthSize).value, NalMask(c, q, rest).value;
            var unit := c.lengthSize + |nal|;
            && nal != [] && unit <= |rest| == |mask| && !c.kind(nal[0]).Refused?
            && mask[..c.lengthSize] == Flags(c.lengthSize, false)
            && (if c.kind(nal[0]).Slice? then
                  && c.clearBytes(q, nal).Ok? && c.clearBytes(q, nal).value <= |nal|
                  && var header := c.clearBytes(q, nal).value;
                     mask[c.lengthSize..unit] == Flags(header, false) + Flags(|nal| - header, true)
                else mask[c.lengthSize..unit] == Flags(|nal|, false))
            && (c.kind(nal[0]).ParameterSet? ==> c.update(q, nal).Ok?)
            && var next := if c.kind(nal[0]).ParameterSet? then c.update(q, nal).value else q;
               NalMask(c, next, rest[unit..]).Some? && mask[unit..] == NalMask(c, next, rest[unit..]).value
  {
    hide FirstNal;
    FirstNalFits(rest, c.lengthSize);
    MaskLength(c, q, rest);
    var nal, mask := FirstNal(rest, c.lengthSize).value, NalMask(c, q, rest).value;
    var unit := c.lengthSize + |nal|;
    match c.kind(nal[0]) {
      case Slice =>
        var header := c.clearBytes(q, nal).value;
        MaskLength(c, q, rest[unit..]);
        var later := NalMask(c, q, rest[unit..]).value;
        assert mask == Flags(c.lengthSize + header, false) + Flags(|nal| - header, true) + later;
      case Refused =>
      case ParameterSet =>
        assert mask == Flags(unit, false) + NalMask(c, c.update(q, nal).value, rest[unit..]).value;
      case Other =>
        assert mask == Flags(unit, false) + NalMask(c, q, rest[unit..]).value;
    }
  }

  // ----- H.264 -----

  /** Units that change the parameters: nal_unit_type 7 and 8. */
  const AVC_SETS: byte -> bool := first => first % 32 == 7 || first % 32 == 8

  /** The classes of nal_unit_type (table 7-1): slices, data partitions, parameter sets. */
  lemma {:induction false} AvcKinds(first: byte)
    ensures AvcKind(first).Slice? <==> first % 32 == 1 || first % 32 == 5
    ensures AvcKind(first).Refused? <==> first % 32 in {2, 3, 4}
    ensures AvcKind(first).ParameterSet? <==> AVC_SETS(first)
  {
  }

  /** Only units of the parameter set kinds are ever taken in. */
  lemma {:induction false} AvcTakenIn(ps: Avc.Parameters, nal: seq<byte>)
    requires AvcSets.UpdateOf(ps, nal) != Ok(ps)
    ensures nal != [] && AvcKind(nal[0]).ParameterSet?
  {
  }

  /** A unit that starts with a written slice header is of the slice kind. */
  lemma {:induction false} AvcWrittenIsSlice(ps: Avc.Parameters, nal: seq<byte>, v: Avc.Header)
    requires Avc.HeaderOk(ps, v) && On(BitsOf(Unescaped(nal).bytes), 0, Avc.HeaderCode(ps, v))
    ensures nal != [] && AvcKind(nal[0]).Slice?
  {
    hide Avc.BodyOk, Avc.BodyCode, UeCode, Binary, BitsOf, Unescaped, On, Pow2;
    var t, lead := BitsOf(Unescaped(nal).bytes), v.lead;
    var after := UeCode(lead.firstMb) + (UeCode(lead.rawType) + UeCode(lead.ppsId));
    OnSplit(t, 0, Avc.LeadCode(lead), Avc.BodyCode(Avc.ContextOf(ps, Avc.SliceOf(lead)).value, v.body));
    OnSplit(t, 0, lead.forbiddenZero, Binary(lead.nalRefIdc, 2) + (Binary(lead.nalType, 5) + after));
    OnSplit(t, 1, Binary(lead.nalRefIdc, 2), Binary(lead.nalType, 5) + after);
    OnSplit(t, 3, Binary(lead.nalType, 5), after);
    ValueOn(t, 3, lead.nalType, 5);
    NothingHolds(nal);
    FirstByte(nal);
    BitsOfFirst(Unescaped(nal).bytes);
  }

  lemma {:induction false} NothingHolds(nal: seq<byte>)
    ensures nal == [] ==> |BitsOf(Unescaped(nal).bytes)| == 0
  {
  }

  lemma {:induction false} ValueOn(t: seq<bool>, p: nat, value: nat, width: nat)
    requires On(t, p, Binary(value, width)) && value < Pow2(width)
    ensures p + width <= |t| && Value(t[p..p + width]) == value
  {
    ValueOfBinary(value, width);
  }

  /**
   A NAL unit of an H.264 sample, wherever it stands: if it is a slice it starts with a header written
   under the parameters met before it, and exactly the bytes before which that header is complete are
   protected; of any other unit, and of all length prefixes, none.
   */
  lemma {:induction false} AvcUnitProtected(n: nat, ps: Avc.Parameters, sample: seq<byte>, count: nat, nal: seq<byte>)
    requires 1 <= n <= 4 && NalMask(AvcSets.H264(n), ps, sample).Some?
    requires Walk(AvcSets.H264(n), AVC_SETS, ps, sample, count).Some?
    requires var (at, _) := Walk(AvcSets.H264(n), AVC_SETS, ps, sample, count).value; FirstNal(sample[at..], n) == Some(nal)
    ensures var (at, q) := Walk(AvcSets.H264(n), AVC_SETS, ps, sample, count).value;
            var mask := NalMask(AvcSets.H264(n), ps, sample).value;
            && nal != [] && at + n + |nal| <= |sample| == |mask| && nal[0] % 32 !in {2, 3, 4}
            && mask[at..at + n] == Flags(n, false)
            && var bytes := mask[at + n..at + n + |nal|];
               if nal[0] % 32 == 1 || nal[0] % 32 == 5 then AvcSliceMasked(q, nal, bytes) else bytes == Flags(|nal|, false)
  {
    hide NalMask, FirstNal, Walk, Avc.ClearBytesOf, AvcSets.UpdateOf, AvcSliceMasked;
    var c := AvcSets.H264(n);
    AvcSets.H264IsValid(n);
    forall first: byte ensures AVC_SETS(first) <==> c.kind(first).ParameterSet? {
      AvcKinds(first);
    }
    MaskFrom(c, AVC_SETS, ps, sample, count);
    MaskLength(c, ps, sample);
    var (at, q) := Walk(c, AVC_SETS, ps, sample, count).value;
    FirstUnit(c, q, sample[at..]);
    AvcKinds(nal[0]);
    var mask := NalMask(c, ps, sample).value;
    SliceOfTail(mask, at, 0, n);
    SliceOfTail(mask, at, n, n + |nal|);
    if AvcKind(nal[0]).Slice? {
      AvcHeaderMasked(q, nal, Avc.ClearBytesOf(q, nal).value, mask[at + n..at + n + |nal|]);
    }
  }

  /** The mask of a slice's bytes: the header they start with ends where the protected ones begin. */
  ghost predicate AvcSliceMasked(q: Avc.Parameters, nal: seq<byte>, mask: seq<bool>)
    requires |mask| == |nal|
  {
    exists v ::
      && Avc.HeaderOk(q, v) && On(BitsOf(Unescaped(nal).bytes), 0, Avc.HeaderCode(q, v))
      && forall k :: 0 <= k < |nal| ==> (mask[k] <==> 8 * |Unescaped(nal[..k]).bytes| >= |Avc.HeaderCode(q, v)|)
  }

  lemma {:induction false} AvcHeaderMasked(q: Avc.Parameters, nal: seq<byte>, clear: nat, mask: seq<bool>)
    requires Avc.ClearBytesOf(q, nal) == Ok(clear) && clear <= |nal|
    requires mask == Flags(clear, false) + Flags(|nal| - clear, true)
    ensures AvcSliceMasked(q, nal, mask)
  {
    hide Avc.ClearBytesOf, Avc.HeaderOk, Avc.HeaderCode, Avc.HeaderAt, Avc.HeaderLength, On, BitsOf, Unescaped;
    Avc.ClearBytesCoverHeader(q, nal);
    Avc.HeaderBitsFindsHeader(q, nal);
    var v :| Avc.HeaderOk(q, v) && On(BitsOf(Unescaped(nal).bytes), 0, Avc.HeaderCode(q, v))
             && |Avc.HeaderCode(q, v)| == Avc.HeaderLength(Avc.TapeOf(nal), q).value;
    forall k | 0 <= k < |nal| ensures mask[k] <==> 8 * |Unescaped(nal[..k]).bytes| >= |Avc.HeaderCode(q, v)| {
      if k >= clear {
        UnescapedPrefix(nal[..k], clear);
        assert nal[..k][..clear] == nal[..clear];
      }
    }
  }

  /** Any slice that is written in a sample is protected from the byte on before which its header is complete. */
  lemma {:induction false} AvcSliceProtected(n: nat, ps: Avc.Parameters, sample: seq<byte>, count: nat, nal: seq<byte>, v: Avc.Header,
                                             k: nat)
    requires 1 <= n <= 4 && NalMask(AvcSets.H264(n), ps, sample).Some?
    requires Walk(AvcSets.H264(n), AVC_SETS, ps, sample, count).Some?
    requires var (at, q) := Walk(AvcSets.H264(n), AVC_SETS, ps, sample, count).value;
             && FirstNal(sample[at..], n) == Some(nal) && k < |nal|
             && Avc.HeaderOk(q, v) && On(BitsOf(Unescaped(nal).bytes), 0, Avc.HeaderCode(q, v))
    ensures var (at, q) := Walk(AvcSets.H264(n), AVC_SETS, ps, sample, count).value;
            var mask := NalMask(AvcSets.H264(n), ps, sample).value;
            && at + n + k < |mask|
            && (mask[at + n + k] <==> 8 * |Unescaped(nal[..k]).bytes| >= |Avc.HeaderCode(q, v)|)
  {
    hide NalMask, FirstNal, Walk, Avc.HeaderOk, Avc.HeaderCode, Avc.HeaderAt, On, BitsOf, Unescaped;
    var (at, q) := Walk(AvcSets.H264(n), AVC_SETS, ps, sample, count).value;
    var mask := NalMask(AvcSets.H264(n), ps, sample).value;
    AvcUnitProtected(n, ps, sample, count, nal);
    AvcWrittenIsSlice(q, nal, v);
    AvcKinds(nal[0]);
    var bytes := mask[at + n..at + n + |nal|];
    var w :| Avc.HeaderOk(q, w) && On(BitsOf(Unescaped(nal).bytes), 0, Avc.HeaderCode(q, w))
             && forall k :: 0 <= k < |nal| ==> (bytes[k] <==> 8 * |Unescaped(nal[..k]).bytes| >= |Avc.HeaderCode(q, w)|);
    Avc.HeaderExact(BitsOf(Unescaped(nal).bytes), 0, q, v);
    Avc.HeaderExact(BitsOf(Unescaped(nal).bytes), 0, q, w);
    assert mask[at + n + k] == bytes[k];
  }

  // ----- H.265 -----

  /** Units that change the parameters: nal_unit_type 32, 33 and 34. */
  const HEVC_SETS: byte -> bool := first => 32 <= first / 2 % 64 <= 34

  /** The classes of nal_unit_type (table 7-1): slice segments; reserved, which are refused; parameter sets. */
  lemma {:induction false} HevcKinds(first: byte)
    ensures var nalType := first / 2 % 64;
            && (HevcKind(first).Slice? <==> nalType <= 9 || nalType in {16, 17, 18, 19, 20, 21})
            && (HevcKind(first).Refused? <==> 10 <= nalType <= 15 || 22 <= nalType <= 31)
            && (HevcKind(first).ParameterSet? <==> HEVC_SETS(first))
  {
  }

  /** A unit that starts with a written slice segment header is of the slice kind. */
  lemma {:induction false} HevcWrittenIsSlice(ps: Hevc.Parameters, nal: seq<byte>, v: HevcPrinter.HeaderSyntax)
    requires HevcPrinter.HeaderOk(ps, v) && On(Hevc.TapeOf(nal), 0, HevcPrinter.HeaderCode(ps, v))
    ensures nal != [] && HevcKind(nal[0]).Slice?
  {
    hide HevcPrinter.SegmentOk, HevcPrinter.SegmentCode, UeCode, Binary, BitsOf, Unescaped, On, Pow2, HevcPrinter.SpsOk;
    var t, start := Hevc.TapeOf(nal), v.start;
    var (sps, pps) := Hevc.SetsOf(ps, start.ppsId).value;
    OnSplit(t, 0, HevcPrinter.StartCode(start), HevcPrinter.SegmentCode(sps, pps, v));
    var after := Binary(0, 6) + (start.temporalId + ([start.firstSegment] + (start.noOutput + UeCode(start.ppsId))));
    OnSplit(t, 0, start.forbiddenZero, Binary(start.nalType, 6) + after);
    OnSplit(t, 1, Binary(start.nalType, 6), after);
    ValueOn(t, 1, start.nalType, 6);
    NothingHolds(nal);
    FirstByte(nal);
    BitsOfFirst(Unescaped(nal).bytes);
  }

  /**
   A NAL unit of an H.265 sample, wherever it stands: if it is a slice segment it starts with a header
   written under the parameters met before it, and exactly the bytes after those of the header and its
   alignment are protected; of any other unit, and of all length prefixes, none.
   */
  lemma {:induction false} HevcUnitProtected(n: nat, update: (Hevc.Parameters, seq<byte>) -> Result<Hevc.Parameters>,
                                             ps: Hevc.Parameters, sample: seq<byte>, count: nat, nal: seq<byte>)
    requires 1 <= n <= 4 && NalMask(Hevc.HevcCodec(n, update), ps, sample).Some?
    requires Walk(Hevc.HevcCodec(n, update), HEVC_SETS, ps, sample, count).Some?
    requires var (at, q) := Walk(Hevc.HevcCodec(n, update), HEVC_SETS, ps, sample, count).value;
             FirstNal(sample[at..], n) == Some(nal) && HevcExact.SetsOk(q)
    ensures var (at, q) := Walk(Hevc.HevcCodec(n, update), HEVC_SETS, ps, sample, count).value;
            var mask := NalMask(Hevc.HevcCodec(n, update), ps, sample).value;
            && nal != [] && at + n + |nal| <= |sample| == |mask| && mask[at..at + n] == Flags(n, false)
            && var nalType, bytes := nal[0] / 2 % 64, mask[at + n..at + n + |nal|];
               && !(10 <= nalType <= 15) && !(22 <= nalType <= 31)
               && if nalType <= 9 || 16 <= nalType <= 21 then HevcSliceMasked(q, nal, bytes) else bytes == Flags(|nal|, false)
  {
    hide NalMask, FirstNal, Walk, Hevc.ClearBytesOf, HevcSliceMasked, HevcExact.SetsOk;
    var c := Hevc.HevcCodec(n, update);
    Hevc.HevcCodecIsValid(n, update);
    forall first: byte ensures HEVC_SETS(first) <==> c.kind(first).ParameterSet? {
      HevcKinds(first);
    }
    MaskFrom(c, HEVC_SETS, ps, sample, count);
    MaskLength(c, ps, sample);
    var (at, q) := Walk(c, HEVC_SETS, ps, sample, count).value;
    FirstUnit(c, q, sample[at..]);
    HevcKinds(nal[0]);
    var mask := NalMask(c, ps, sample).value;
    SliceOfTail(mask, at, 0, n);
    SliceOfTail(mask, at, n, n + |nal|);
    if HevcKind(nal[0]).Slice? {
      HevcHeaderMasked(q, nal, Hevc.ClearBytesOf(q, nal).value, mask[at + n..at + n + |nal|]);
    }
  }

  /** The mask of a slice segment's bytes: its header, aligned, ends where the protected ones begin. */
  ghost predicate HevcSliceMasked(q: Hevc.Parameters, nal: seq<byte>, mask: seq<bool>)
    requires |mask| == |nal|
  {
    exists length: nat ::
      && HevcExact.Starts(Hevc.TapeOf(nal), q, length)
      && forall k :: 0 <= k < |nal| ==> (mask[k] <==> |Unescaped(nal[..k]).bytes| > length / 8)
  }

  lemma {:induction false} HevcHeaderMasked(q: Hevc.Parameters, nal: seq<byte>, clear: nat, mask: seq<bool>)
    requires Hevc.ClearBytesOf(q, nal) == Ok(clear) && clear <= |nal| && HevcExact.SetsOk(q)
    requires mask == Flags(clear, false) + Flags(|nal| - clear, true)
    ensures HevcSliceMasked(q, nal, mask)
  {
    hide Hevc.ClearBytesOf, Hevc.HeaderAt, Hevc.TapeOf, HevcExact.Starts, HevcExact.SetsOk, Unescaped;
    Hevc.ClearBytesCoverHeader(q, nal);
    var header := Hevc.HeaderAt(Hevc.TapeOf(nal), q);
    assert header.value == () && header == Hevc.HeaderAt(Hevc.TapeOf(nal), q);
    HevcExact.HeaderExact(Hevc.TapeOf(nal), q, header.at);
    forall k | 0 <= k < |nal| ensures mask[k] <==> |Unescaped(nal[..k]).bytes| > header.at / 8 {
      if k >= clear {
        UnescapedPrefix(nal[..k], clear);
        assert nal[..k][..clear] == nal[..clear];
      }
    }
  }

  /** Any slice segment that is written in a sample is protected from the byte after its header and alignment on. */
  lemma {:induction false} HevcSliceProtected(n: nat, update: (Hevc.Parameters, seq<byte>) -> Result<Hevc.Parameters>,
                                              ps: Hevc.Parameters, sample: seq<byte>, count: nat, nal: seq<byte>,
                                              v: HevcPrinter.HeaderSyntax, k: nat)
    requires 1 <= n <= 4 && NalMask(Hevc.HevcCodec(n, update), ps, sample).Some?
    requires Walk(Hevc.HevcCodec(n, update), HEVC_SETS, ps, sample, count).Some?
    requires var (at, q) := Walk(Hevc.HevcCodec(n, update), HEVC_SETS, ps, sample, count).value;
             && FirstNal(sample[at..], n) == Some(nal) && k < |nal| && HevcExact.SetsOk(q)
             && HevcPrinter.HeaderOk(q, v) && On(Hevc.TapeOf(nal), 0, HevcPrinter.HeaderCode(q, v))
    ensures var (at, q) := Walk(Hevc.HevcCodec(n, update), HEVC_SETS, ps, sample, count).value;
            var mask := NalMask(Hevc.HevcCodec(n, update), ps, sample).value;
            && at + n + k < |mask|
            && (mask[at + n + k] <==> |Unescaped(nal[..k]).bytes| > |HevcPrinter.HeaderCode(q, v)| / 8)
  {
    hide NalMask, FirstNal, Walk, HevcPrinter.HeaderOk, HevcPrinter.HeaderCode, Hevc.HeaderAt, Hevc.TapeOf, HevcExact.Starts,
      HevcExact.SetsOk, On, Unescaped;
    var c := Hevc.HevcCodec(n, update);
    var (at, q) := Walk(c, HEVC_SETS, ps, sample, count).value;
    var mask := NalMask(c, ps, sample).value;
    HevcUnitProtected(n, update, ps, sample, count, nal);
    HevcWrittenIsSlice(q, nal, v);
    HevcKinds(nal[0]);
    var bytes := mask[at + n..at + n + |nal|];
    var length: nat :| HevcExact.Starts(Hevc.TapeOf(nal), q, length)
                       && forall k :: 0 <= k < |nal| ==> (bytes[k] <==> |Unescaped(nal[..k]).bytes| > length / 8);
    HevcExact.HeaderExact(Hevc.TapeOf(nal), q, length);
    HevcPrinter.HeaderWritten(Hevc.TapeOf(nal), q, v);
    assert mask[at + n + k] == bytes[k];
  }
}
