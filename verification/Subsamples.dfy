/**
 Which bytes of a video sample are protected (src/cenc/segment.rs): NAL units that are not slices
 join the next clear run, and each slice's header stays clear.

 H.264 and H.265 share the loop; a codec says what a NAL unit is, how long a slice's clear header
 is, and how an in-band parameter set changes the parameters the sample's later slices use.
 */
module Subsamples {
  import opened Common
  import opened Decryption

  const MAX_SUBSAMPLES := 42
  const U16_MAX := 0xFFFF

  datatype NalKind = Slice | Refused | ParameterSet | Other

  function AvcKind(first: byte): NalKind {
    var nalType := first % 32;
    if nalType == 1 || nalType == 5 then Slice
    else if 2 <= nalType <= 4 then Refused
    else if nalType == 7 || nalType == 8 then ParameterSet
    else Other
  }

  function HevcKind(first: byte): NalKind {
    var nalType := first / 2 % 64;
    if nalType <= 9 || 16 <= nalType <= 21 then Slice
    else if nalType <= 31 then Refused
    else if nalType <= 34 then ParameterSet
    else Other
  }

  datatype Codec<!P(!new)> = Codec(
    lengthSize: nat,
    kind: byte -> NalKind,
    clearBytes: (P, seq<byte>) -> Result<nat>,
    update: (P, seq<byte>) -> Result<P>)
  {
    ghost predicate Valid() {
      && 1 <= lengthSize <= 4
      && forall p: P, nal: seq<byte> :: clearBytes(p, nal).Ok? ==> clearBytes(p, nal).value <= |nal|
    }
  }

  // ----- NAL by NAL -----

  function Flags(n: nat, protected: bool): seq<bool> {
    seq(n, i => protected)
  }

  /** The length-prefixed NAL unit a sample starts with, if one is there whole and not empty. */
  function FirstNal(sample: seq<byte>, lengthSize: nat): Option<seq<byte>> {
    if |sample| < lengthSize then None
    else
      var length := FromBytes(sample[..lengthSize]);
      if length == 0 || lengthSize + length > |sample| then None
      else Some(sample[lengthSize..lengthSize + length])
  }

  /**
   Which bytes of a sample are to be protected, NAL unit by NAL unit: those of a slice past its
   header, under the parameter sets seen up to it. `None` when the sample cannot be encrypted.
   */
  function NalMask<P(!new)>(c: Codec<P>, p: P, sample: seq<byte>): (r: Option<seq<bool>>)
    requires c.lengthSize >= 1
    ensures r.Some? && c.Valid() ==> |r.value| == |sample|
    decreases |sample|
  {
    if sample == [] then Some([])
    else
      match FirstNal(sample, c.lengthSize)
      case None => None
      case Some(nal) =>
        var unit := c.lengthSize + |nal|;
        match c.kind(nal[0])
        case Slice =>
          (match c.clearBytes(p, nal)
           case Err => None
           case Ok(header) =>
             var rest := NalMask(c, p, sample[unit..]);
             if rest.None? || header > |nal| then None
             else Some(Flags(c.lengthSize + header, false) + Flags(|nal| - header, true) + rest.value))
        case Refused => None
        case ParameterSet =>
          (match c.update(p, nal)
           case Err => None
           case Ok(updated) =>
             var rest := NalMask(c, updated, sample[unit..]);
             if rest.None? then None else Some(Flags(unit, false) + rest.value))
        case Other =>
          var rest := NalMask(c, p, sample[unit..]);
          if rest.None? then None else Some(Flags(unit, false) + rest.value)
  }

  /** How many subsamples describe a clear run of `clear` bytes and what follows it. */
  function Pieces(clear: nat): nat {
    if clear > U16_MAX then 1 + Pieces(clear - U16_MAX) else 1
  }

  /** How many subsamples a sample takes, `clear` clear bytes being still to describe. */
  function Entries<P(!new)>(c: Codec<P>, p: P, clear: nat, sample: seq<byte>): nat
    requires c.lengthSize >= 1
    decreases |sample|
  {
    if sample == [] then (if clear > 0 then Pieces(clear) else 0)
    else
      match FirstNal(sample, c.lengthSize)
      case None => 0
      case Some(nal) =>
        var unit := c.lengthSize + |nal|;
        match c.kind(nal[0])
        case Slice =>
          (match c.clearBytes(p, nal)
           case Err => 0
           case Ok(header) => Pieces(clear + c.lengthSize + header) + Entries(c, p, 0, sample[unit..]))
        case Refused => 0
        case ParameterSet =>
          (match c.update(p, nal)
           case Err => 0
           case Ok(updated) => Entries(c, updated, clear + unit, sample[unit..]))
        case Other => Entries(c, p, clear + unit, sample[unit..])
  }

  // ----- Masks and their pieces -----

  lemma {:induction false} MaskPush(subs: seq<Subsample>, s: Subsample)
    ensures Mask(subs + [s]) == Mask(subs) + Flags(s.clear, false) + Flags(s.protected, true)
    ensures Span(subs + [s]) == Span(subs) + s.clear + s.protected
  {
    if subs == [] {
      assert [s][1..] == [] && Mask([]) == [];
      assert Mask([s]) == seq(s.clear, i => false) + seq(s.protected, i => true) + Mask([s][1..]);
    } else {
      assert (subs + [s])[1..] == subs[1..] + [s];
      MaskPush(subs[1..], s);
    }
  }

  lemma {:induction false} FlagsJoin(m: nat, n: nat, protected: bool)
    ensures Flags(m, protected) + Flags(n, protected) == Flags(m + n, protected)
  {
  }

  ghost predicate Fits(subs: seq<Subsample>) {
    forall i :: 0 <= i < |subs| ==> subs[i].clear <= U16_MAX && subs[i].protected <= U32_MAX
  }

  /** `push_subsample`: a clear run longer than 65535 becomes several clear-only subsamples. */
  method PushSubsample(subs: seq<Subsample>, clear: nat, protected: nat) returns (r: Result<seq<Subsample>>)
    requires Fits(subs)
    ensures r.Ok? <==> protected <= U32_MAX
    ensures r.Ok? ==>
              && Mask(r.value) == Mask(subs) + Flags(clear, false) + Flags(protected, true)
              && |r.value| == |subs| + Pieces(clear) && Fits(r.value)
  {
    hide Mask, Flags;
    var out, left: nat := subs, clear;
    FlagsNone();
    while left > U16_MAX
      invariant left <= clear && Fits(out)
      invariant Mask(out) == Mask(subs) + Flags(clear - left, false)
      invariant |out| + Pieces(left) == |subs| + Pieces(clear)
    {
      MaskPush(out, Subsample(U16_MAX, 0));
      FlagsJoin(clear - left, U16_MAX, false);
      out := out + [Subsample(U16_MAX, 0)];
      left := left - U16_MAX;
    }
    if protected > U32_MAX {
      return Err;
    }
    MaskPush(out, Subsample(left, protected));
    FlagsJoin(clear - left, left, false);
    return Ok(out + [Subsample(left, protected)]);
  }

  lemma {:induction false} FlagsNone()
    ensures Flags(0, false) == [] && Flags(0, true) == []
  {
  }

  // ----- The loop -----

  /** With `subs` and a clear run of `clear` bytes written, `rest` is still to be described. */
  ghost predicate Describes<P(!new)>(c: Codec<P>, p: P, subs: seq<Subsample>, clear: nat, rest: seq<byte>,
                               mask: Option<seq<bool>>, entries: nat)
    requires c.lengthSize >= 1
  {
    var later := NalMask(c, p, rest);
    && (mask.Some? <==> later.Some?)
    && (later.Some? ==> mask.value == Mask(subs) + Flags(clear, false) + later.value)
    && (later.Some? ==> entries == |subs| + Entries(c, p, clear, rest))
  }

  lemma {:induction false} DescribesNow<P(!new)>(c: Codec<P>, p: P, sample: seq<byte>)
    requires c.lengthSize >= 1
    ensures Describes(c, p, [], 0, sample, NalMask(c, p, sample), Entries(c, p, 0, sample))
  {
    FlagsNone();
    assert Mask([]) == [];
  }

  /** A NAL unit that is not a slice joins the clear run; `next` are the parameters after it. */
  lemma {:induction false} JoinClear<P(!new)>(c: Codec<P>, p: P, next: P, subs: seq<Subsample>, clear: nat, rest: seq<byte>,
                                             mask: Option<seq<bool>>, entries: nat)
    requires c.lengthSize >= 1 && Describes(c, p, subs, clear, rest, mask, entries) && rest != []
    requires var nal := FirstNal(rest, c.lengthSize);
             && nal.Some?
             && ((c.kind(nal.value[0]).Other? && next == p)
                 || (c.kind(nal.value[0]).ParameterSet? && c.update(p, nal.value) == Ok(next)))
    ensures var unit := c.lengthSize + |FirstNal(rest, c.lengthSize).value|;
            Describes(c, next, subs, clear + unit, rest[unit..], mask, entries)
  {
    hide Mask, Flags, FirstNal;
    var unit := c.lengthSize + |FirstNal(rest, c.lengthSize).value|;
    FlagsJoin(clear, unit, false);
  }

  /** A slice ends the clear run with its header, and is one more subsample. */
  lemma {:induction false} EndAtSlice<P(!new)>(c: Codec<P>, p: P, subs: seq<Subsample>, clear: nat, rest: seq<byte>,
                                              mask: Option<seq<bool>>, entries: nat, header: nat, after: seq<Subsample>)
    requires c.lengthSize >= 1 && Describes(c, p, subs, clear, rest, mask, entries) && rest != []
    requires var nal := FirstNal(rest, c.lengthSize);
             && nal.Some? && c.kind(nal.value[0]).Slice? && c.clearBytes(p, nal.value) == Ok(header) && header <= |nal.value|
             && Mask(after) == Mask(subs) + Flags(clear + c.lengthSize + header, false) + Flags(|nal.value| - header, true)
             && |after| == |subs| + Pieces(clear + c.lengthSize + header)
    ensures var unit := c.lengthSize + |FirstNal(rest, c.lengthSize).value|;
            Describes(c, p, after, 0, rest[unit..], mask, entries)
  {
    hide Mask, Flags, FirstNal, Pieces;
    FlagsJoin(clear, c.lengthSize + header, false);
    FlagsNone();
  }

  /** With at most four bytes of length, a NAL unit is below 4 GiB. */
  lemma {:induction false} LengthFits(bytes: seq<byte>)
    requires |bytes| <= 4
    ensures FromBytes(bytes) <= U32_MAX
  {
    hide FromBytes;
    FromBytesBound(bytes);
    Limits();
  }

  /** `avc_subsamples` and `hevc_subsamples`. */
  method SubsamplesOf<P(!new)>(c: Codec<P>, p: P, sample: seq<byte>) returns (r: Result<seq<Subsample>>)
    requires c.Valid()
    ensures r.Ok? <==> NalMask(c, p, sample).Some? && Entries(c, p, 0, sample) <= MAX_SUBSAMPLES
    ensures r.Ok? ==> Mask(r.value) == NalMask(c, p, sample).value
    ensures r.Ok? ==> Fits(r.value) && |r.value| == Entries(c, p, 0, sample)
  {
    hide Mask, Flags, Pieces, Describes, NalMask, Entries, FromBytes;
    ghost var mask, entries := NalMask(c, p, sample), Entries(c, p, 0, sample);
    DescribesNow(c, p, sample);
    var inBand: Option<P> := None;
    var subs: seq<Subsample> := [];
    var clear: nat, at: nat := 0, 0;
    assert sample[0..] == sample;
    while at < |sample|
      invariant at <= |sample| && Fits(subs)
      invariant Describes(c, if inBand.Some? then inBand.value else p, subs, clear, sample[at..], mask, entries)
    {
      var current := if inBand.Some? then inBand.value else p;
      ghost var rest := sample[at..];
      Malformed(c, current, subs, clear, rest, mask, entries);
      if at + c.lengthSize > |sample| {
        return Err;
      }
      var prefix := sample[at..at + c.lengthSize];
      SliceOfTail(sample, at, 0, c.lengthSize);
      var length := FromBytes(prefix);
      LengthFits(prefix);
      var start := at + c.lengthSize;
      var end := start + length;
      if end > |sample| || length == 0 {
        return Err;
      }
      var nal := sample[start..end];
      SliceOfTail(sample, at, c.lengthSize, c.lengthSize + length);
      match c.kind(nal[0]) {
        case Slice =>
          var header :- c.clearBytes(current, nal);
          // The length fits in four bytes, so the push cannot fail.
          var after := PushSubsample(subs, clear + c.lengthSize + header, length - header);
          EndAtSlice(c, current, subs, clear, rest, mask, entries, header, after.value);
          subs, clear := after.value, 0;
        case Refused =>
          return Err;
        case ParameterSet =>
          var updated :- c.update(current, nal);
          JoinClear(c, current, updated, subs, clear, rest, mask, entries);
          inBand := Some(updated);
          clear := clear + (c.lengthSize + length);
        case Other =>
          JoinClear(c, current, current, subs, clear, rest, mask, entries);
          clear := clear + (c.lengthSize + length);
      }
      at := end;
    }
    AllDescribed(c, if inBand.Some? then inBand.value else p, subs, clear, sample[at..], mask, entries);
    if clear > 0 {
      var after := PushSubsample(subs, clear, 0);
      subs := after.value;
    }
    if |subs| > MAX_SUBSAMPLES {
      return Err;
    }
    return Ok(subs);
  }

  /** What makes a sample impossible to describe. */
  lemma {:induction false} Malformed<P(!new)>(c: Codec<P>, p: P, subs: seq<Subsample>, clear: nat, rest: seq<byte>,
                                             mask: Option<seq<bool>>, entries: nat)
    requires c.lengthSize >= 1 && Describes(c, p, subs, clear, rest, mask, entries) && rest != []
    ensures FirstNal(rest, c.lengthSize).None? ==> mask.None?
    ensures var nal := FirstNal(rest, c.lengthSize);
            nal.Some? ==>
              && (c.kind(nal.value[0]).Refused? ==> mask.None?)
              && (c.kind(nal.value[0]).Slice? && c.clearBytes(p, nal.value).Err? ==> mask.None?)
              && (c.kind(nal.value[0]).ParameterSet? && c.update(p, nal.value).Err? ==> mask.None?)
  {
  }

  lemma {:induction false} AllDescribed<P(!new)>(c: Codec<P>, p: P, subs: seq<Subsample>, clear: nat, rest: seq<byte>,
                                                mask: Option<seq<bool>>, entries: nat)
    requires c.lengthSize >= 1 && Describes(c, p, subs, clear, rest, mask, entries) && rest == []
    ensures mask.Some? && mask.value == Mask(subs) + Flags(clear, false)
    ensures entries == |subs| + (if clear > 0 then Pieces(clear) else 0)
    ensures Flags(0, true) == [] && (clear == 0 ==> mask.value == Mask(subs))
  {
    FlagsNone();
  }

  /** A map made for a sample covers it exactly. */
  lemma {:induction false} MapTiles<P(!new)>(c: Codec<P>, p: P, sample: seq<byte>, subs: seq<Subsample>)
    requires c.Valid() && NalMask(c, p, sample).Some? && Mask(subs) == NalMask(c, p, sample).value
    ensures Span(subs) == |sample|
    ensures subs == [] ==> sample == []
  {
    assert |Mask(subs)| == Span(subs);
  }

  // ----- Telling a right key from a wrong one -----

  /** Length-prefixed NAL units cover a sample exactly, none of them empty. */
  predicate Tiles(sample: seq<byte>, lengthSize: nat)
    decreases |sample|
  {
    sample == [] || (FirstNal(sample, lengthSize).Some? && Tiles(sample[lengthSize + |FirstNal(sample, lengthSize).value|..], lengthSize))
  }

  /** `nal_units_tile` */
  method NalUnitsTile(sample: seq<byte>, lengthSize: nat) returns (tile: bool)
    ensures tile == Tiles(sample, lengthSize)
  {
    hide FromBytes;
    var at: nat := 0;
    assert sample[0..] == sample;
    while at < |sample|
      invariant at <= |sample| ==> Tiles(sample, lengthSize) == Tiles(sample[at..], lengthSize)
      invariant at > |sample| ==> !Tiles(sample, lengthSize)
    {
      ghost var rest := sample[at..];
      if at + lengthSize > |sample| {
        return false;
      }
      SliceOfTail(sample, at, 0, lengthSize);
      var size := FromBytes(sample[at..at + lengthSize]);
      if size == 0 {
        return false;
      }
      if at + lengthSize + size <= |sample| {
        SliceOfTail(sample, at, lengthSize, lengthSize + size);
      }
      at := at + lengthSize + size;
    }
    return at == |sample|;
  }

  /** A sample that can be encrypted passes the check a decrypted sample is put to. */
  lemma {:induction false} EncryptableTiles<P(!new)>(c: Codec<P>, p: P, sample: seq<byte>)
    requires c.lengthSize >= 1 && NalMask(c, p, sample).Some?
    ensures Tiles(sample, c.lengthSize)
    decreases |sample|
  {
    hide FirstNal;
    if sample != [] {
      var nal := FirstNal(sample, c.lengthSize).value;
      FirstNalFits(sample, c.lengthSize);
      var rest := sample[c.lengthSize + |nal|..];
      match c.kind(nal[0])
      case Slice => EncryptableTiles(c, p, rest);
      case ParameterSet => EncryptableTiles(c, c.update(p, nal).value, rest);
      case Other => EncryptableTiles(c, p, rest);
      case Refused =>
    }
  }

  lemma {:induction false} FirstNalFits(sample: seq<byte>, lengthSize: nat)
    requires FirstNal(sample, lengthSize).Some?
    ensures FirstNal(sample, lengthSize).value != []
    ensures lengthSize + |FirstNal(sample, lengthSize).value| <= |sample|
  {
  }
}
