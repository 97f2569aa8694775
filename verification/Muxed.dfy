/**
 Preparing media segments (src/fmp4/fragment.rs): the header of a fragment and the file ranges that
 follow it, so that every data offset lands on the samples it describes.
 */
module Muxed {
  import opened Common
  import opened Ranges
  import opened Boxes
  import opened Samples
  import opened Fragment

  // ----- Ranges -----

  function SampleRanges(samples: seq<Sample>): (r: seq<ByteRange>)
    ensures |r| == |samples|
  {
    seq(|samples|, i requires 0 <= i < |samples| => ByteRange(samples[i].offset, samples[i].size))
  }

  lemma {:induction false} SampleRangesPush(samples: seq<Sample>, s: Sample)
    ensures SampleRanges(samples + [s]) == SampleRanges(samples) + [ByteRange(s.offset, s.size)]
  {
  }

  lemma {:induction false} SampleRangesTotal(samples: seq<Sample>)
    ensures Total(SampleRanges(samples)) == ListBytes(samples)
  {
    if samples != [] {
      var init, last := samples[..|samples| - 1], samples[|samples| - 1];
      SampleRangesTotal(init);
      assert samples == init + [last];
      SampleRangesPush(init, last);
      ContentPush([], SampleRanges(init), ByteRange(last.offset, last.size));
    }
  }

  lemma {:induction false} GrowLast(source: seq<byte>, init: seq<ByteRange>, last: ByteRange, next: ByteRange)
    requires last.End() == next.offset && next.End() <= |source|
    ensures var grown := ByteRange(last.offset, last.length + next.length);
            && Content(source, init + [grown]) == Content(source, init + [last]) + BytesOf(source, next)
            && Total(init + [grown]) == Total(init + [last]) + next.length
            && grown.End() <= |source|
  {
    hide Content, Total;
    var grown := ByteRange(last.offset, last.length + next.length);
    ContentPush(source, init, last);
    ContentPush(source, init, grown);
    var m := last.offset + last.length;
    assert BytesOf(source, grown) == source[last.offset..m] + source[m..m + next.length];
    assert BytesOf(source, last) == source[last.offset..m];
    assert (Content(source, init) + BytesOf(source, last)) + BytesOf(source, next)
           == Content(source, init) + (BytesOf(source, last) + BytesOf(source, next));
  }

  /** `coalesced_ranges`: samples that touch share a range; the bytes are the samples', in order. */
  method CoalescedRanges(ghost source: seq<byte>, samples: seq<Sample>) returns (r: Result<seq<ByteRange>>)
    requires Inside(source, SampleRanges(samples))
    ensures r.Err? ==> ListBytes(samples) > U64_MAX
    ensures r.Ok? ==> Inside(source, r.value) && Content(source, r.value) == Content(source, SampleRanges(samples))
    ensures r.Ok? ==> Total(r.value) == ListBytes(samples)
    ensures r.Ok? ==> forall i :: 0 < i < |r.value| && r.value[i - 1].End() <= U64_MAX ==> r.value[i - 1].End() != r.value[i].offset
  {
    hide Content, Total, BytesOf, SampleRanges;
    var ranges: seq<ByteRange> := [];
    SampleRangesTotal(samples);
    NoRanges(source);
    assert samples[..|samples|] == samples;
    for i := 0 to |samples|
      invariant Inside(source, ranges) && Content(source, ranges) == Content(source, SampleRanges(samples[..i]))
      invariant Total(ranges) == Total(SampleRanges(samples[..i]))
      invariant forall k :: 0 < k < |ranges| && ranges[k - 1].End() <= U64_MAX ==> ranges[k - 1].End() != ranges[k].offset
    {
      var next := ByteRange(samples[i].offset, samples[i].size);
      assert samples[..i + 1] == samples[..i] + [samples[i]];
      SampleRangesPush(samples[..i], samples[i]);
      ContentPush(source, SampleRanges(samples[..i]), next);
      RangeAt(source, samples, i);
      var n := |ranges| - 1;
      if ranges != [] && ranges[n].End() <= U64_MAX && ranges[n].End() == next.offset {
        var last := ranges[n];
        assert ranges == ranges[..n] + [last];
        GrowLast(source, ranges[..n], last, next);
        if last.length + next.length > U64_MAX {
          PartOfTotal(ranges[..n] + [ByteRange(last.offset, last.length + next.length)]);
          TotalGrows(samples, i + 1);
          return Err;
        }
        ranges := ranges[..n] + [ByteRange(last.offset, last.length + next.length)];
      } else {
        ContentPush(source, ranges, next);
        ranges := ranges + [next];
      }
    }
    return Ok(ranges);
  }

  lemma {:induction false} NoRanges(source: seq<byte>)
    ensures SampleRanges([]) == []
  {
  }

  lemma {:induction false} RangeAt(source: seq<byte>, samples: seq<Sample>, i: nat)
    requires Inside(source, SampleRanges(samples)) && i < |samples|
    ensures samples[i].offset + samples[i].size <= |source|
  {
    assert SampleRanges(samples)[i] == ByteRange(samples[i].offset, samples[i].size);
  }

  lemma {:induction false} PartOfTotal(ranges: seq<ByteRange>)
    requires ranges != []
    ensures ranges[|ranges| - 1].length <= Total(ranges)
  {
  }

  lemma {:induction false} TotalGrows(samples: seq<Sample>, i: nat)
    requires i <= |samples|
    ensures Total(SampleRanges(samples[..i])) <= ListBytes(samples)
    decreases |samples|
  {
    if i < |samples| {
      TotalGrows(samples[..|samples| - 1], i);
      assert samples[..|samples| - 1][..i] == samples[..i];
    } else {
      assert samples[..i] == samples;
      SampleRangesTotal(samples);
    }
  }

  // ----- What a fragment of several tracks looks like -----

  function Payload(parts: seq<Part>): nat {
    if parts == [] then 0 else Payload(parts[..|parts| - 1]) + parts[|parts| - 1].Payload()
  }

  function SampleCount(parts: seq<Part>): nat {
    if parts == [] then 0 else SampleCount(parts[..|parts| - 1]) + |parts[|parts| - 1].samples|
  }

  /** Each part's samples follow the previous part's. */
  function OffsetsFrom(parts: seq<Part>, base: nat): (r: seq<nat>)
    ensures |r| == |parts|
  {
    if parts == [] then []
    else OffsetsFrom(parts[..|parts| - 1], base) + [base + Payload(parts[..|parts| - 1])]
  }

  function AllRanges(parts: seq<Part>): seq<ByteRange> {
    if parts == [] then [] else AllRanges(parts[..|parts| - 1]) + SampleRanges(parts[|parts| - 1].samples)
  }

  function HeaderOf(sequence: u32, moofExtra: seq<byte>, parts: seq<Part>, extra: seq<byte>, payload: nat): seq<byte> {
    var offsets := OffsetsFrom(parts, MoofLength(|moofExtra|, parts, |extra|) + 8);
    BoxBytes(MOOF, MoofPayload(sequence, moofExtra, parts, offsets, extra)) + (ToBytes(payload + 8, 4) + MDAT)
  }

  lemma {:induction false} OffsetsAt(parts: seq<Part>, base: nat, k: nat)
    requires k < |parts|
    ensures OffsetsFrom(parts, base)[k] == base + Payload(parts[..k])
    decreases |parts|
  {
    if k < |parts| - 1 {
      OffsetsAt(parts[..|parts| - 1], base, k);
      assert parts[..|parts| - 1][..k] == parts[..k];
    }
  }

  lemma {:induction false} PayloadStep(parts: seq<Part>, k: nat)
    requires k < |parts|
    ensures Payload(parts[..k + 1]) == Payload(parts[..k]) + parts[k].Payload() <= Payload(parts)
    ensures AllRanges(parts[..k + 1]) == AllRanges(parts[..k]) + SampleRanges(parts[k].samples)
    ensures AllRanges(parts[..k + 1]) <= AllRanges(parts)
    decreases |parts|
  {
    assert parts[..k + 1][..k] == parts[..k];
    if k < |parts| - 1 {
      PayloadStep(parts[..|parts| - 1], k);
      assert parts[..|parts| - 1][..k] == parts[..k] && parts[..|parts| - 1][..k + 1] == parts[..k + 1];
    } else {
      assert parts[..k + 1] == parts;
    }
  }

  lemma {:induction false} AllRangesTotal(parts: seq<Part>)
    ensures Total(AllRanges(parts)) == Payload(parts)
  {
    if parts != [] {
      var init := parts[..|parts| - 1];
      AllRangesTotal(init);
      SampleRangesTotal(parts[|parts| - 1].samples);
      ContentAppend([], AllRanges(init), SampleRanges(parts[|parts| - 1].samples));
    }
  }

  /** Where sample `j` of part `k` lies among all the sample bytes. */
  lemma {:induction false} SampleLies(source: seq<byte>, parts: seq<Part>, k: nat, j: nat)
    requires Inside(source, AllRanges(parts)) && k < |parts| && j < |parts[k].samples|
    ensures var s := parts[k].samples[j];
            var at := Payload(parts[..k]) + ListBytes(parts[k].samples[..j]);
            var body := Content(source, AllRanges(parts));
            && s.offset + s.size <= |source| && at + s.size <= |body|
            && body[at..at + s.size] == source[s.offset..s.offset + s.size]
  {
    hide Content, AllRanges, Payload, Total, SampleRanges;
    var samples := parts[k].samples;
    var s := samples[j];
    var ranges := SampleRanges(samples);
    PayloadStep(parts, k);
    SplitRanges(samples, j);
    var before := AllRanges(parts[..k]) + SampleRanges(samples[..j]);
    var upto := before + [ByteRange(s.offset, s.size)];
    var all := AllRanges(parts);
    PrefixOfAll(all, AllRanges(parts[..k]), ranges, upto, j);
    var rest := all[|upto|..];
    assert all == upto + rest && all[|before|] == ByteRange(s.offset, s.size);
    ContentAppend(source, upto, rest);
    ContentPush(source, before, ByteRange(s.offset, s.size));
    forall i | 0 <= i < |before| ensures before[i].End() <= |source| {
      assert before[i] == all[i];
    }
    ContentLength(source, before);
    ContentAppend(source, AllRanges(parts[..k]), SampleRanges(samples[..j]));
    AllRangesTotal(parts[..k]);
    SampleRangesTotal(samples[..j]);
  }

  lemma {:induction false} SplitRanges(samples: seq<Sample>, j: nat)
    requires j < |samples|
    ensures SampleRanges(samples)[..j] == SampleRanges(samples[..j])
    ensures SampleRanges(samples)[j] == ByteRange(samples[j].offset, samples[j].size)
  {
  }

  lemma {:induction false} PrefixOfAll(all: seq<ByteRange>, a: seq<ByteRange>, b: seq<ByteRange>, upto: seq<ByteRange>, j: nat)
    requires a + b <= all && j < |b| && upto == a + b[..j] + [b[j]]
    ensures upto <= all
  {
    assert upto == a + b[..j + 1];
    assert (a + b)[..|upto|] == upto;
  }

  /** Following every data offset finds every sample's own bytes of the file. */
  ghost predicate SamplesFound(source: seq<byte>, parts: seq<Part>, offsets: seq<nat>, response: seq<byte>)
    requires |offsets| == |parts|
  {
    forall k, j :: 0 <= k < |parts| && 0 <= j < |parts[k].samples| ==>
      var s := parts[k].samples[j];
      var at := offsets[k] + ListBytes(parts[k].samples[..j]);
      s.offset + s.size <= |source| && at + s.size <= |response| &&
      response[at..at + s.size] == source[s.offset..s.offset + s.size]
  }

  /**
   A muxed fragment reads back: its boxes tile the response, every `trun` names its track's samples,
   and following its data offset gives each sample's own bytes of the file.
   */
  ghost predicate ReadsBack(source: seq<byte>, sequence: u32, parts: seq<Part>, body: seq<byte>, response: seq<byte>) {
    var offsets := OffsetsFrom(parts, MoofLength(0, parts, 0) + 8);
    var moof := MoofPayload(sequence, [], parts, offsets, []);
    && ReadBoxes(response) == Some([Box(MOOF, moof), Box(MDAT, body)])
    && ReadMoof(moof) == Some((sequence, TrackRuns(parts, offsets, [])))
    && SamplesFound(source, parts, offsets, response)
  }

  lemma {:induction false} FragmentReadsBack(source: seq<byte>, sequence: u32, parts: seq<Part>, body: seq<byte>)
    requires MoofLength(0, parts, 0) <= U32_MAX && Payload(parts) + 8 <= U32_MAX
    requires PartsOk(parts, OffsetsFrom(parts, MoofLength(0, parts, 0) + 8))
    requires Inside(source, AllRanges(parts)) && body == Content(source, AllRanges(parts))
    ensures var response := HeaderOf(sequence, [], parts, [], Payload(parts)) + body;
            |response| == MoofLength(0, parts, 0) + 8 + Payload(parts) && ReadsBack(source, sequence, parts, body, response)
  {
    hide Content, AllRanges, Payload, BoxBytes, MoofPayload, ToBytes, ReadBoxes, Part.Typed, MoofLength, SamplesFound,
      OffsetsFrom, TrackRuns, ReadMoof;
    var base := MoofLength(0, parts, 0) + 8;
    var offsets := OffsetsFrom(parts, base);
    var moof := MoofPayload(sequence, [], parts, offsets, []);
    ReadNone();
    MoofIsFixed(sequence, [], parts, offsets, []);
    MoofReads(sequence, [], parts, offsets, []);
    AllRangesTotal(parts);
    ContentLength(source, AllRanges(parts));
    HeaderThenBody(moof, body, Payload(parts));
    FollowOffsets(source, parts, base, HeaderOf(sequence, [], parts, [], Payload(parts)), body);
  }

  lemma {:induction false} FollowOffsets(source: seq<byte>, parts: seq<Part>, base: nat, header: seq<byte>, body: seq<byte>)
    requires |header| == base && Inside(source, AllRanges(parts)) && body == Content(source, AllRanges(parts))
    ensures SamplesFound(source, parts, OffsetsFrom(parts, base), header + body)
  {
    hide Content, AllRanges, Payload, OffsetsFrom;
    forall k, j | 0 <= k < |parts| && 0 <= j < |parts[k].samples|
      ensures var s := parts[k].samples[j];
              var at := OffsetsFrom(parts, base)[k] + ListBytes(parts[k].samples[..j]);
              s.offset + s.size <= |source| && at + s.size <= |header + body| &&
              (header + body)[at..at + s.size] == source[s.offset..s.offset + s.size]
    {
      var s := parts[k].samples[j];
      SampleLies(source, parts, k, j);
      OffsetsAt(parts, base, k);
      var at := Payload(parts[..k]) + ListBytes(parts[k].samples[..j]);
      assert (header + body)[base + at..base + at + s.size] == body[at..at + s.size];
    }
  }

  lemma {:induction false} HeaderThenBody(moof: seq<byte>, body: seq<byte>, payload: nat)
    requires 8 + |moof| <= U32_MAX && |body| == payload && payload + 8 <= U32_MAX
    ensures var header := BoxBytes(MOOF, moof) + (ToBytes(payload + 8, 4) + MDAT);
            && |header| == |moof| + 16
            && ReadBoxes(header + body) == Some([Box(MOOF, moof), Box(MDAT, body)])
  {
    hide ReadBoxes, ToBytes;
    var header := BoxBytes(MOOF, moof) + (ToBytes(payload + 8, 4) + MDAT);
    assert header + body == BoxBytes(MOOF, moof) + BoxBytes(MDAT, body);
    ReadWrittenAlone(MDAT, body);
    ReadWritten(MOOF, moof, BoxBytes(MDAT, body));
    assert [Box(MOOF, moof)] + [Box(MDAT, body)] == [Box(MOOF, moof), Box(MDAT, body)];
  }

  // ----- Preparing -----

  /** What is asked of one track: `first..until` of its samples. */
  datatype Request = Request(trackId: u32, kind: TrackKind, samples: SampleIndex, first: nat, until: nat, decodeTime: nat) {
    ghost predicate Ok()
      requires samples.Valid()
    {
      first <= until <= samples.Len()
    }

    ghost function Samples(): seq<Sample>
      requires samples.Valid() && Ok()
    {
      samples.List()[first..until]
    }
  }

  ghost predicate RequestsValid(requests: seq<Request>) {
    && (forall i :: 0 <= i < |requests| ==> requests[i].samples.Valid() && requests[i].decodeTime <= U64_MAX)
    && (forall i, j :: 0 <= i < |requests| && 0 <= j < requests[i].samples.Len() ==> OnWire(requests[i].samples.List()[j]))
  }

  /** The parts of a fragment: tracks with no samples are left out, but the first must have some. */
  ghost function PartsOf(requests: seq<Request>): Option<seq<Part>>
    requires forall i :: 0 <= i < |requests| ==> requests[i].samples.Valid()
  {
    if requests == [] then Some([])
    else
      var n := |requests| - 1;
      var last := requests[n];
      match PartsOf(requests[..n])
      case None => None
      case Some(before) =>
        if !last.Ok() then None
        else if last.Samples() == [] then (if n == 0 then None else Some(before))
        else Some(before + [Part(last.trackId, last.kind, last.Samples(), last.decodeTime)])
  }

  datatype LimitsConfig = LimitsConfig(maxSegmentBytes: nat, maxSamplesPerSegment: nat)

  datatype Prepared = Prepared(header: seq<byte>, ranges: seq<ByteRange>, contentLength: nat)

  /** What stops a fragment of `parts` from being built: 32-bit sizes and signed data offsets. */
  ghost predicate Buildable(parts: seq<Part>) {
    var base := MoofLength(0, parts, 0) + 8;
    && MoofLength(0, parts, 0) <= U32_MAX && Payload(parts) + 8 <= U32_MAX
    && forall i :: 0 <= i < |parts| ==> OffsetsFrom(parts, base)[i] <= 0x7FFF_FFFF
  }

  /** A prepared segment of `parts`: its header, and ranges that hold exactly the parts' samples. */
  ghost predicate PreparedFor(source: seq<byte>, sequence: u32, parts: seq<Part>, p: Prepared) {
    && Buildable(parts)
    && p.header == HeaderOf(sequence, [], parts, [], Payload(parts))
    && p.contentLength == |p.header| + Payload(parts)
    && Inside(source, p.ranges) && Content(source, p.ranges) == Content(source, AllRanges(parts))
  }

  lemma {:induction false} PartsPush(requests: seq<Request>, i: nat)
    requires i < |requests| && forall k :: 0 <= k < |requests| ==> requests[k].samples.Valid()
    ensures PartsOf(requests[..i]).None? ==> PartsOf(requests).None?
    ensures PartsOf(requests[..i]).Some? ==>
              var before := PartsOf(requests[..i]).value;
              var r := requests[i];
              PartsOf(requests[..i + 1]) ==
              if !r.Ok() then None
              else if r.Samples() == [] then (if i == 0 then None else Some(before))
              else Some(before + [Part(r.trackId, r.kind, r.Samples(), r.decodeTime)])
    ensures PartsOf(requests[..i + 1]).None? ==> PartsOf(requests).None?
    decreases |requests|
  {
    hide SampleIndex.Valid, SampleIndex.List;
    assert requests[..i + 1][..i] == requests[..i];
    if i + 1 < |requests| {
      var init := requests[..|requests| - 1];
      assert init[..i] == requests[..i] && init[..i + 1] == requests[..i + 1];
      PartsPush(init, i);
    } else {
      assert requests[..i + 1] == requests;
    }
  }

  /** The first loop of `prepare_muxed_segment`. */
  method Expand(requests: seq<Request>) returns (r: Result<seq<Part>>)
    requires RequestsValid(requests)
    ensures r.Ok? <==> PartsOf(requests).Some?
    ensures r.Ok? ==> r.value == PartsOf(requests).value && forall i :: 0 <= i < |r.value| ==> r.value[i].Typed()
  {
    hide SampleIndex.Valid, SampleIndex.List, PartsOf, OnWire;
    var parts: seq<Part> := [];
    NoParts();
    assert requests[..|requests|] == requests;
    for i := 0 to |requests|
      invariant PartsOf(requests[..i]) == Some(parts)
      invariant forall k :: 0 <= k < |parts| ==> parts[k].Typed()
    {
      var request := requests[i];
      PartsPush(requests, i);
      if request.first > request.until || request.until > request.samples.Len() {
        return Err;
      }
      var samples := ToVec(request.samples, request.first, request.until);
      if samples == [] {
        if i == 0 {
          return Err;
        }
        continue;
      }
      parts := parts + [Part(request.trackId, request.kind, samples, request.decodeTime)];
    }
    return Ok(parts);
  }

  lemma {:induction false} NoParts()
    ensures PartsOf([]) == Some([])
  {
  }

  /** The data offsets, each where the part's samples begin; too far for 31 bits is an error. */
  method DataOffsets(parts: seq<Part>, base: nat) returns (r: Result<seq<nat>>)
    ensures r.Ok? <==> forall i :: 0 <= i < |parts| ==> OffsetsFrom(parts, base)[i] <= 0x7FFF_FFFF
    ensures r.Ok? ==> r.value == OffsetsFrom(parts, base)
  {
    hide Payload, ListBytes;
    var offsets: seq<nat>, offset := [], base;
    assert parts[..|parts|] == parts;
    NoPayload();
    for i := 0 to |parts|
      invariant offsets == OffsetsFrom(parts[..i], base) && offset == base + Payload(parts[..i])
      invariant forall k :: 0 <= k < i ==> OffsetsFrom(parts, base)[k] <= 0x7FFF_FFFF
    {
      assert parts[..i + 1][..i] == parts[..i];
      OffsetsAt(parts, base, i);
      PayloadStep(parts, i);
      if offset > 0x7FFF_FFFF {
        return Err;
      }
      offsets := offsets + [offset];
      offset := offset + parts[i].Payload();
    }
    return Ok(offsets);
  }

  lemma {:induction false} NoPayload()
    ensures Payload([]) == 0
  {
  }

  /** From the parts on: the `moof` built twice, the `mdat` header, and the ranges. */
  method Assemble(ghost source: seq<byte>, sequence: u32, parts: seq<Part>) returns (r: Result<Prepared>)
    requires forall i :: 0 <= i < |parts| ==> parts[i].Typed()
    requires Inside(source, AllRanges(parts))
    ensures r.Ok? <==> Buildable(parts)
    ensures r.Ok? ==> PreparedFor(source, sequence, parts, r.value)
  {
    hide MoofPayload, BoxBytes, ToBytes, Content, AllRanges, SampleRanges, Part.Typed, Total, MoofLength;
    var zeros := seq(|parts|, i => 0);
    var probe :- BuildMoof(sequence, [], parts, zeros, []);
    MoofIsFixed(sequence, [], parts, zeros, []);
    var offsets :- DataOffsets(parts, |probe| + 8);
    var moof := BuildMoof(sequence, [], parts, offsets, []);
    MoofIsFixed(sequence, [], parts, offsets, []);
    var payload := PayloadOf(parts);
    var header :- WriteBoxHeader(moof.value, payload + 8, MDAT);
    assert moof.value + ToBytes(payload + 8, 4) + MDAT == moof.value + (ToBytes(payload + 8, 4) + MDAT);
    var ranges := AllCoalesced(source, parts);
    return Ok(Prepared(header, ranges, |header| + payload));
  }

  method PayloadOf(parts: seq<Part>) returns (total: nat)
    ensures total == Payload(parts)
  {
    hide ListBytes;
    total := 0;
    assert parts[..|parts|] == parts;
    for i := 0 to |parts|
      invariant total == Payload(parts[..i])
    {
      PayloadStep(parts, i);
      total := total + parts[i].Payload();
    }
  }

  method CountOf(parts: seq<Part>) returns (total: nat)
    ensures total == SampleCount(parts)
  {
    total := 0;
    assert parts[..|parts|] == parts;
    for i := 0 to |parts|
      invariant total == SampleCount(parts[..i])
    {
      assert parts[..i + 1][..i] == parts[..i];
      total := total + |parts[i].samples|;
    }
  }

  /** Every part's ranges; no sum of sizes below 4 GiB overflows. */
  method AllCoalesced(ghost source: seq<byte>, parts: seq<Part>) returns (ranges: seq<ByteRange>)
    requires Inside(source, AllRanges(parts)) && Payload(parts) <= U32_MAX
    ensures Inside(source, ranges) && Content(source, ranges) == Content(source, AllRanges(parts))
  {
    hide Content, AllRanges, SampleRanges, Payload, ListBytes;
    ranges := [];
    NoRangesAtAll(source);
    assert parts[..|parts|] == parts;
    for i := 0 to |parts|
      invariant Inside(source, ranges) && Content(source, ranges) == Content(source, AllRanges(parts[..i]))
    {
      PayloadStep(parts, i);
      PartInside(source, parts, i);
      var more := CoalescedRanges(source, parts[i].samples);
      ContentAppend(source, AllRanges(parts[..i]), SampleRanges(parts[i].samples));
      ContentAppend(source, ranges, more.value);
      ranges := ranges + more.value;
    }
  }

  lemma {:induction false} NoRangesAtAll(source: seq<byte>)
    ensures AllRanges([]) == []
  {
  }

  lemma {:induction false} PartInside(source: seq<byte>, parts: seq<Part>, i: nat)
    requires Inside(source, AllRanges(parts)) && i < |parts|
    ensures Inside(source, SampleRanges(parts[i].samples))
  {
    hide AllRanges, SampleRanges, Payload;
    PayloadStep(parts, i);
    var before, ranges := AllRanges(parts[..i]), SampleRanges(parts[i].samples);
    forall k | 0 <= k < |ranges| ensures ranges[k].End() <= |source| {
      assert (before + ranges)[|before| + k] == AllRanges(parts)[|before| + k];
    }
  }

  /** `prepare_muxed_segment` */
  method PrepareMuxedSegment(ghost source: seq<byte>, requests: seq<Request>, sequence: u32, limits: LimitsConfig)
    returns (r: Result<Prepared>)
    requires RequestsValid(requests)
    requires PartsOf(requests).Some? ==> Inside(source, AllRanges(PartsOf(requests).value))
    ensures r.Ok? <==>
              && PartsOf(requests).Some?
              && var parts := PartsOf(requests).value;
                 Payload(parts) <= limits.maxSegmentBytes && SampleCount(parts) <= limits.maxSamplesPerSegment && Buildable(parts)
    ensures r.Ok? ==> PreparedFor(source, sequence, PartsOf(requests).value, r.value)
  {
    hide PartsOf, Buildable, PreparedFor, AllRanges, Part.Typed, RequestsValid, Payload, SampleCount;
    var parts :- Expand(requests);
    var payload := PayloadOf(parts);
    if payload > limits.maxSegmentBytes {
      return Err;
    }
    var count := CountOf(parts);
    if count > limits.maxSamplesPerSegment {
      return Err;
    }
    r := Assemble(source, sequence, parts);
  }

  /** `prepare_media_segment`: one track, with no limit on its samples' number. */
  method PrepareMediaSegment(ghost source: seq<byte>, request: Request, sequence: u32, limits: LimitsConfig)
    returns (r: Result<Prepared>)
    requires RequestsValid([request])
    requires PartsOf([request]).Some? ==> Inside(source, AllRanges(PartsOf([request]).value))
    ensures r.Ok? <==>
              && PartsOf([request]).Some?
              && Payload(PartsOf([request]).value) <= limits.maxSegmentBytes && Buildable(PartsOf([request]).value)
    ensures r.Ok? ==> PreparedFor(source, sequence, PartsOf([request]).value, r.value)
  {
    hide PartsOf, Buildable, PreparedFor, AllRanges, Part.Typed, RequestsValid, Payload;
    var parts :- Expand([request]);
    var prepared :- Assemble(source, sequence, parts);
    var payload := PayloadOf(parts);
    if payload > limits.maxSegmentBytes {
      return Err;
    }
    return Ok(prepared);
  }

  /** Every segment prepared reads back, and its content length is the response's. */
  lemma {:induction false} PreparedReadsBack(source: seq<byte>, sequence: u32, parts: seq<Part>, p: Prepared)
    requires PreparedFor(source, sequence, parts, p) && Inside(source, AllRanges(parts))
    requires forall i :: 0 <= i < |parts| ==> parts[i].Typed()
    ensures var body := Content(source, p.ranges);
            |p.header + body| == p.contentLength && ReadsBack(source, sequence, parts, body, p.header + body)
  {
    hide AllRanges, Content, Payload, HeaderOf, Part.Typed, ReadsBack, MoofLength, OffsetsFrom;
    AllRangesTotal(parts);
    ContentLength(source, AllRanges(parts));
    FragmentReadsBack(source, sequence, parts, Content(source, p.ranges));
  }
}
