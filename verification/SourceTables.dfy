/**
 What a source file's `senc` boxes say of its samples (src/mp4/protection.rs, src/media/protection.rs;
 section 7.2 of ISO/IEC 23001-7): gathered into flat tables that give every sample its own IV and map.
 */
module SourceTables {
  import opened Common
  import opened Boxes
  import opened Cipher
  import opened Decryption
  import opened Subsamples
  import opened Segment
  import opened AuxInfo

  // ----- Numbers and their bytes -----

  /** A number of two parts is written as the one, then the other. */
  lemma {:induction false} TwoParts(high: nat, low: nat, v: nat, w: nat)
    requires low < Limit(w)
    ensures ToBytes(high * Limit(w) + low, v + w) == ToBytes(high, v) + ToBytes(low, w)
    decreases w
  {
    hide Limit;
    LimitStep(w);
    if w > 0 {
      var n, l := high * Limit(w) + low, Limit(w - 1);
      Regrouped(high, l);
      assert n == 0x100 * (high * l) + low;
      assert n / 0x100 == high * l + low / 0x100 && n % 0x100 == low % 0x100;
      TwoParts(high, low / 0x100, v, w - 1);
      OneByteMore(n, v + w);
      OneByteMore(low, w);
      assert v + w - 1 == v + (w - 1);
    } else {
      assert ToBytes(low, 0) == [] && high * Limit(0) + low == high;
      assert ToBytes(high, v) + [] == ToBytes(high, v);
    }
  }

  lemma {:induction false} LimitStep(w: nat)
    ensures Limit(w) == if w == 0 then 1 else 0x100 * Limit(w - 1)
  {
  }

  lemma {:induction false} Regrouped(a: nat, l: nat)
    ensures a * (0x100 * l) == 0x100 * (a * l)
  {
  }

  lemma {:induction false} OneByteMore(n: nat, w: nat)
    requires w > 0
    ensures ToBytes(n, w) == ToBytes(n / 0x100, w - 1) + [n % 0x100]
  {
  }

  lemma {:induction false} SumOfParts(a: seq<byte>, b: seq<byte>)
    ensures FromBytes(a + b) == FromBytes(a) * Limit(|b|) + FromBytes(b)
    decreases |b|
  {
    hide Limit;
    LimitStep(|b|);
    if b == [] {
      assert a + b == a;
    } else {
      var n := |b| - 1;
      assert (a + b)[..|a + b| - 1] == a + b[..n];
      SumOfParts(a, b[..n]);
      Regrouped(FromBytes(a), Limit(n));
    }
  }

  /** Bytes that are read as a number are what that number is written as. */
  lemma {:induction false} NumberWritten(bytes: seq<byte>)
    ensures ToBytes(FromBytes(bytes), |bytes|) == bytes
  {
    if bytes != [] {
      NumberWritten(bytes[..|bytes| - 1]);
    }
  }

  lemma {:induction false} ZerosAreZero(w: nat)
    ensures FromBytes(seq(w, i => 0)) == 0
  {
    if w > 0 {
      assert seq(w, i => 0)[..w - 1] == seq(w - 1, i => 0);
      ZerosAreZero(w - 1);
    }
  }

  // ----- The keystream of a sample with an IV of 8 bytes -----

  /** Block `k` of the keystream under an 8-byte IV is that IV, then `k` in the 8 bytes after it, encrypted. */
  lemma {:induction false} CounterBlock(c: BlockCipher, iv: seq<byte>, k: nat)
    requires |iv| == 8 && k < Limit(8)
    ensures KeyBlock(c, iv + seq(8, i => 0), k) == c.encrypt(iv + ToBytes(k, 8))
  {
    hide FromBytes, ToBytes, Limit;
    var zeros: seq<byte> := seq(8, i => 0);
    ZerosAreZero(8);
    SumOfParts(iv, zeros);
    FromBytesBound(iv);
    assert Limit(8) == 0x1_0000_0000_0000_0000 by {
      Limits();
    }
    var n := FromBytes(iv) * Limit(8) + k;
    assert n < COUNTER_LIMIT;
    TwoParts(FromBytes(iv), k, 8, 8);
    NumberWritten(iv);
  }

  // ----- Reading `senc` -----

  /** What one entry says: the sample's IV, and its map, empty when all of it is protected. */
  datatype SampleAux = SampleAux(iv: seq<byte>, subs: seq<Subsample>)

  function PairsFrom(payload: seq<byte>, at: nat, n: nat): (r: Option<(seq<Subsample>, nat)>)
    ensures r.Some? ==> r.value.1 == at + 6 * n <= Max(at, |payload|) && |r.value.0| == n
    decreases n
  {
    if n == 0 then Some(([], at))
    else if at + 6 > |payload| then None
    else
      match PairsFrom(payload, at + 6, n - 1)
      case None => None
      case Some((rest, end)) =>
        Some(([Subsample(FromBytes(payload[at..at + 2]), FromBytes(payload[at + 2..at + 6]))] + rest, end))
  }

  function OneFrom(payload: seq<byte>, at: nat, ivSize: nat, with: bool): (r: Option<(SampleAux, nat)>)
    ensures r.Some? ==> at + ivSize + (if with then 2 else 0) <= r.value.1 <= |payload| && |r.value.0.iv| == ivSize
  {
    var start := at + ivSize;
    if start > |payload| then None
    else if !with then Some((SampleAux(payload[at..start], []), start))
    else if start + 2 > |payload| then None
    else
      match PairsFrom(payload, start + 2, FromBytes(payload[start..start + 2]))
      case None => None
      case Some((subs, end)) => Some((SampleAux(payload[at..start], subs), end))
  }

  function AllFrom(payload: seq<byte>, at: nat, count: nat, ivSize: nat, with: bool): (r: Option<seq<SampleAux>>)
    ensures r.Some? ==> |r.value| == count && forall i :: 0 <= i < count ==> |r.value[i].iv| == ivSize
    decreases count
  {
    if count == 0 then Some([])
    else
      match OneFrom(payload, at, ivSize, with)
      case None => None
      case Some((first, next)) =>
        match AllFrom(payload, next, count - 1, ivSize, with)
        case None => None
        case Some(rest) => Some([first] + rest)
  }

  /** The entries of a `senc` payload; its flags say whether they have maps. */
  function SencRead(payload: seq<byte>, ivSize: nat): (r: Option<seq<SampleAux>>)
    ensures r.Some? ==> forall i :: 0 <= i < |r.value| ==> |r.value[i].iv| == ivSize
  {
    if |payload| < 8 then None
    else AllFrom(payload, 8, FromBytes(payload[4..8]), ivSize, FromBytes(payload[1..4]) / 2 % 2 == 1)
  }

  // ----- What is written is read -----

  function PairsCode(subs: seq<Subsample>): (r: seq<byte>)
    ensures |r| == 6 * |subs|
  {
    if subs == [] then [] else ToBytes(subs[0].clear, 2) + ToBytes(subs[0].protected, 4) + PairsCode(subs[1..])
  }

  function OneCode(x: SampleAux, with: bool): seq<byte> {
    x.iv + if with then ToBytes(|x.subs|, 2) + PairsCode(x.subs) else []
  }

  function AllCode(list: seq<SampleAux>, with: bool): seq<byte> {
    if list == [] then [] else OneCode(list[0], with) + AllCode(list[1..], with)
  }

  function SencCode(list: seq<SampleAux>, with: bool): seq<byte> {
    FullBoxFields(0, if with then 2 else 0) + ToBytes(|list|, 4) + AllCode(list, with)
  }

  predicate AuxOk(list: seq<SampleAux>, ivSize: nat, with: bool) {
    && |list| <= U32_MAX
    && forall i :: 0 <= i < |list| ==>
         && |list[i].iv| == ivSize && |list[i].subs| <= U16_MAX && (!with ==> list[i].subs == [])
         && forall j :: 0 <= j < |list[i].subs| ==> list[i].subs[j].clear <= U16_MAX && list[i].subs[j].protected <= U32_MAX
  }

  /** `bytes` lie at `at`. */
  ghost predicate There(payload: seq<byte>, at: nat, bytes: seq<byte>) {
    at + |bytes| <= |payload| && payload[at..at + |bytes|] == bytes
  }

  lemma {:induction false} ThereSplit(payload: seq<byte>, at: nat, a: seq<byte>, b: seq<byte>)
    requires There(payload, at, a + b)
    ensures There(payload, at, a) && There(payload, at + |a|, b) && at + |a| + |b| <= |payload|
  {
    var n := |a + b|;
    SliceOfSlice(payload, at, at + n, 0, |a|);
    SliceOfSlice(payload, at, at + n, |a|, n);
    assert (a + b)[0..|a|] == a && (a + b)[|a|..n] == b;
  }

  lemma {:induction false} NumberThere(payload: seq<byte>, at: nat, n: nat, width: nat)
    requires There(payload, at, ToBytes(n, width)) && n < Limit(width)
    ensures FromBytes(payload[at..at + width]) == n
  {
    BytesRoundTrip(n, width);
  }

  lemma {:induction false} PairsWritten(payload: seq<byte>, at: nat, subs: seq<Subsample>)
    requires There(payload, at, PairsCode(subs))
    requires forall j :: 0 <= j < |subs| ==> subs[j].clear <= U16_MAX && subs[j].protected <= U32_MAX
    ensures PairsFrom(payload, at, |subs|) == Some((subs, at + 6 * |subs|))
    decreases |subs|
  {
    hide There, ToBytes, FromBytes, Limit;
    if subs != [] {
      var a, b := ToBytes(subs[0].clear, 2), ToBytes(subs[0].protected, 4);
      assert Limit(2) == 0x1_0000 && Limit(4) == 0x1_0000_0000 by {
        Limits();
      }
      ThereSplit(payload, at, a + b, PairsCode(subs[1..]));
      ThereSplit(payload, at, a, b);
      NumberThere(payload, at, subs[0].clear, 2);
      NumberThere(payload, at + 2, subs[0].protected, 4);
      PairsWritten(payload, at + 6, subs[1..]);
      assert subs == [Subsample(subs[0].clear, subs[0].protected)] + subs[1..];
    }
  }

  lemma {:induction false} ThereIs(payload: seq<byte>, at: nat, bytes: seq<byte>)
    requires There(payload, at, bytes)
    ensures at + |bytes| <= |payload| && payload[at..at + |bytes|] == bytes
  {
  }

  lemma {:induction false} OneWritten(payload: seq<byte>, at: nat, x: SampleAux, ivSize: nat, with: bool)
    requires There(payload, at, OneCode(x, with)) && AuxOk([x], ivSize, with)
    ensures OneFrom(payload, at, ivSize, with) == Some((x, at + |OneCode(x, with)|))
  {
    hide There, ToBytes, FromBytes, Limit, PairsFrom, PairsCode;
    assert [x][0] == x;
    var rest := if with then ToBytes(|x.subs|, 2) + PairsCode(x.subs) else [];
    ThereSplit(payload, at, x.iv, rest);
    ThereIs(payload, at, x.iv);
    if with {
      var start := at + ivSize;
      ThereSplit(payload, start, ToBytes(|x.subs|, 2), PairsCode(x.subs));
      assert Limit(2) == 0x1_0000 by {
        Limits();
      }
      NumberThere(payload, start, |x.subs|, 2);
      PairsWritten(payload, start + 2, x.subs);
    }
  }

  lemma {:induction false} AllWritten(payload: seq<byte>, at: nat, list: seq<SampleAux>, ivSize: nat, with: bool)
    requires There(payload, at, AllCode(list, with)) && AuxOk(list, ivSize, with)
    ensures AllFrom(payload, at, |list|, ivSize, with) == Some(list)
    decreases |list|
  {
    hide There, OneFrom, OneCode;
    if list != [] {
      ThereSplit(payload, at, OneCode(list[0], with), AllCode(list[1..], with));
      OneWritten(payload, at, list[0], ivSize, with);
      AllWritten(payload, at + |OneCode(list[0], with)|, list[1..], ivSize, with);
      assert list == [list[0]] + list[1..];
    }
  }

  /** A `senc` written for a list of samples, whatever follows it, reads back as that list. */
  lemma {:induction false} SencWritten(list: seq<SampleAux>, ivSize: nat, with: bool, after: seq<byte>)
    requires AuxOk(list, ivSize, with)
    ensures SencRead(SencCode(list, with) + after, ivSize) == Some(list)
  {
    hide ToBytes, FromBytes, Limit, AllFrom, AllCode, There, AuxOk;
    var payload := SencCode(list, with) + after;
    var flags := if with then 2 else 0;
    ThereAtStart(SencCode(list, with), after);
    ThereSplit(payload, 0, FullBoxFields(0, flags) + ToBytes(|list|, 4), AllCode(list, with));
    ThereSplit(payload, 0, FullBoxFields(0, flags), ToBytes(|list|, 4));
    ThereSplit(payload, 0, [0], ToBytes(flags, 3));
    assert Limit(3) == 0x100_0000 && Limit(4) == 0x1_0000_0000 by {
      Limits();
    }
    assert |list| <= U32_MAX by {
      FewEnough(list, ivSize, with);
    }
    NumberThere(payload, 1, flags, 3);
    NumberThere(payload, 4, |list|, 4);
    AllWritten(payload, 8, list, ivSize, with);
  }

  lemma {:induction false} FewEnough(list: seq<SampleAux>, ivSize: nat, with: bool)
    requires AuxOk(list, ivSize, with)
    ensures |list| <= U32_MAX
  {
  }

  lemma {:induction false} ThereAtStart(bytes: seq<byte>, after: seq<byte>)
    ensures There(bytes + after, 0, bytes)
  {
  }

  // ----- Gathering the tables -----

  function SubTotal(list: seq<SampleAux>): nat {
    if list == [] then 0 else SubTotal(list[..|list| - 1]) + |list[|list| - 1].subs|
  }

  function AllSubs(list: seq<SampleAux>): (r: seq<Subsample>)
    ensures |r| == SubTotal(list)
  {
    if list == [] then [] else AllSubs(list[..|list| - 1]) + list[|list| - 1].subs
  }

  function AllIvs(list: seq<SampleAux>): seq<byte> {
    if list == [] then [] else AllIvs(list[..|list| - 1]) + list[|list| - 1].iv
  }

  lemma {:induction false} ListedPush(list: seq<SampleAux>, x: SampleAux)
    ensures AllIvs(list + [x]) == AllIvs(list) + x.iv && AllSubs(list + [x]) == AllSubs(list) + x.subs
    ensures SubTotal(list + [x]) == SubTotal(list) + |x.subs|
  {
    assert (list + [x])[..|list|] == list;
  }

  /** The IVs of equal size lie one after another. */
  lemma {:induction false} IvsAt(list: seq<SampleAux>, ivSize: nat, i: nat)
    requires i < |list| && forall k :: 0 <= k < |list| ==> |list[k].iv| == ivSize
    ensures |AllIvs(list)| == ivSize * |list| && ivSize * i + ivSize <= |AllIvs(list)|
    ensures AllIvs(list)[ivSize * i..ivSize * i + ivSize] == list[i].iv
    decreases |list|
  {
    var n := |list| - 1;
    var before := AllIvs(list[..n]);
    IvsLength(list[..n], ivSize);
    MoreIvs(ivSize, n);
    if i < n {
      IvsAt(list[..n], ivSize, i);
      FrontSlice(before, list[n].iv, ivSize * i, ivSize * i + ivSize);
    } else {
      LastSlice(before, list[n].iv, ivSize * n, ivSize);
    }
  }

  lemma {:induction false} LastSlice<T>(a: seq<T>, b: seq<T>, from: nat, size: nat)
    requires |a| == from && |b| == size
    ensures (a + b)[from..from + size] == b
  {
  }

  lemma {:induction false} MoreIvs(ivSize: nat, n: nat)
    ensures ivSize * (n + 1) == ivSize * n + ivSize
  {
  }

  lemma {:induction false} FrontSlice<T>(a: seq<T>, b: seq<T>, from: nat, to: nat)
    requires from <= to <= |a|
    ensures (a + b)[from..to] == a[from..to]
  {
  }

  lemma {:induction false} IvsLength(list: seq<SampleAux>, ivSize: nat)
    requires forall k :: 0 <= k < |list| ==> |list[k].iv| == ivSize
    ensures |AllIvs(list)| == ivSize * |list|
  {
    if list != [] {
      IvsLength(list[..|list| - 1], ivSize);
      assert ivSize * |list| == ivSize * (|list| - 1) + ivSize;
    }
  }

  lemma {:induction false} SubsAt(list: seq<SampleAux>, i: nat)
    requires i < |list|
    ensures SubTotal(list[..i]) + |list[i].subs| == SubTotal(list[..i + 1]) <= SubTotal(list)
    ensures AllSubs(list)[SubTotal(list[..i])..SubTotal(list[..i + 1])] == list[i].subs
    decreases |list|
  {
    var n := |list| - 1;
    var before := AllSubs(list[..n]);
    if i < n {
      SubsAt(list[..n], i);
      assert list[..n][..i] == list[..i] && list[..n][..i + 1] == list[..i + 1];
      FrontSlice(before, list[n].subs, SubTotal(list[..i]), SubTotal(list[..i + 1]));
    } else {
      assert list[..n + 1] == list;
      assert (before + list[n].subs)[|before|..] == list[n].subs;
    }
  }

  /** The tables are those of `list`. */
  ghost predicate Tabled(ivSize: nat, list: seq<SampleAux>, ivs: seq<byte>, subFirst: seq<nat>, subsamples: seq<Subsample>) {
    && (forall i :: 0 <= i < |list| ==> |list[i].iv| == ivSize)
    && ivs == AllIvs(list) && subsamples == AllSubs(list) && |subFirst| == |list|
    && forall i :: 0 <= i < |list| ==> subFirst[i] == SubTotal(list[..i])
  }

  lemma {:induction false} NothingTabled(ivSize: nat)
    ensures Tabled(ivSize, [], [], [], [])
  {
  }

  lemma {:induction false} TabledPush(ivSize: nat, list: seq<SampleAux>, ivs: seq<byte>, subFirst: seq<nat>, subsamples: seq<Subsample>,
                                      x: SampleAux)
    requires Tabled(ivSize, list, ivs, subFirst, subsamples)
    ensures |subFirst| == |list| && |subsamples| == SubTotal(list)
    ensures |x.iv| == ivSize ==> Tabled(ivSize, list + [x], ivs + x.iv, subFirst + [|subsamples|], subsamples + x.subs)
  {
    hide AllIvs, AllSubs, SubTotal;
    ListedPush(list, x);
    forall i | 0 <= i <= |list| ensures (subFirst + [|subsamples|])[i] == SubTotal((list + [x])[..i]) {
      assert (list + [x])[..i] == list[..i];
      assert list[..|list|] == list;
    }
  }

  /** Each entry takes as many bytes as the reader makes sure of. */
  lemma {:induction false} EnoughRoom(payload: seq<byte>, at: nat, count: nat, ivSize: nat, with: bool)
    requires at <= |payload| && AllFrom(payload, at, count, ivSize, with).Some?
    ensures count * (ivSize + if with then 2 else 0) <= |payload| - at
    decreases count
  {
    hide OneFrom;
    if count > 0 {
      var (_, next) := OneFrom(payload, at, ivSize, with).value;
      EnoughRoom(payload, next, count - 1, ivSize, with);
      var least := ivSize + if with then 2 else 0;
      assert count * least == (count - 1) * least + least;
    }
  }

  lemma {:induction false} NextPair(payload: seq<byte>, at: nat, n: nat)
    ensures n == 0 ==> PairsFrom(payload, at, n) == Some(([], at))
    ensures n > 0 ==>
              var rest := PairsFrom(payload, at + 6, n - 1);
              PairsFrom(payload, at, n)
              == if at + 6 > |payload| || rest.None? then None
                 else Some(([Subsample(FromBytes(payload[at..at + 2]), FromBytes(payload[at + 2..at + 6]))] + rest.value.0, rest.value.1))
  {
    hide FromBytes;
  }

  lemma {:induction false} NextEntry(payload: seq<byte>, at: nat, count: nat, ivSize: nat, with: bool)
    ensures count > 0 ==>
              var one := OneFrom(payload, at, ivSize, with);
              && (one.None? ==> AllFrom(payload, at, count, ivSize, with).None?)
              && (one.Some? ==>
                    var rest := AllFrom(payload, one.value.1, count - 1, ivSize, with);
                    AllFrom(payload, at, count, ivSize, with) == if rest.None? then None else Some([one.value.0] + rest.value))
    ensures count == 0 ==> AllFrom(payload, at, count, ivSize, with) == Some([])
  {
    hide OneFrom;
  }

  /** One entry, part by part. */
  lemma {:induction false} EntryParts(payload: seq<byte>, at: nat, ivSize: nat, with: bool)
    ensures var start := at + ivSize;
            && (start > |payload| ==> OneFrom(payload, at, ivSize, with).None?)
            && (start <= |payload| && !with ==> OneFrom(payload, at, ivSize, with) == Some((SampleAux(payload[at..start], []), start)))
            && (start <= |payload| && with ==>
                  if start + 2 > |payload| then OneFrom(payload, at, ivSize, with).None?
                  else
                    var pairs := PairsFrom(payload, start + 2, FromBytes(payload[start..start + 2]));
                    OneFrom(payload, at, ivSize, with)
                    == if pairs.None? then None else Some((SampleAux(payload[at..start], pairs.value.0), pairs.value.1)))
  {
    hide PairsFrom;
  }

  /** Of the entries in `whole`, `done` are in the tables beside those listed before, and `rest` are still to come. */
  ghost predicate Entered(whole: Option<seq<SampleAux>>, listed: seq<SampleAux>, done: seq<SampleAux>, rest: Option<seq<SampleAux>>) {
    && (whole.Some? <==> rest.Some?) && (whole.Some? ==> whole.value == done + rest.value)
    && forall k :: 0 <= k < |done| ==> SubTotal(listed + done[..k]) <= U32_MAX
  }

  lemma {:induction false} EntryStep(payload: seq<byte>, at: nat, count: nat, ivSize: nat, with: bool, whole: Option<seq<SampleAux>>,
                                     listed: seq<SampleAux>, done: seq<SampleAux>)
    requires count > 0 && Entered(whole, listed, done, AllFrom(payload, at, count, ivSize, with))
    ensures var one := OneFrom(payload, at, ivSize, with);
            && (one.None? ==> whole.None?)
            && (whole.Some? ==> |done| < |whole.value| && whole.value[..|done|] == done)
            && (one.Some? && SubTotal(listed + done) <= U32_MAX ==>
                  && Entered(whole, listed, done + [one.value.0], AllFrom(payload, one.value.1, count - 1, ivSize, with))
                  && listed + (done + [one.value.0]) == listed + done + [one.value.0])
  {
    hide AllFrom, OneFrom, SubTotal;
    NextEntry(payload, at, count, ivSize, with);
    var one := OneFrom(payload, at, ivSize, with);
    if one.Some? && SubTotal(listed + done) <= U32_MAX {
      var more := done + [one.value.0];
      forall k | 0 <= k < |more| ensures SubTotal(listed + more[..k]) <= U32_MAX {
        assert more[..k] == done[..k] && done[..|done|] == done;
      }
    }
  }

  lemma {:induction false} NothingEntered(whole: Option<seq<SampleAux>>, listed: seq<SampleAux>)
    ensures Entered(whole, listed, [], whole)
  {
  }

  lemma {:induction false} EntriesDone(payload: seq<byte>, at: nat, ivSize: nat, with: bool, whole: Option<seq<SampleAux>>,
                                       listed: seq<SampleAux>, done: seq<SampleAux>)
    requires Entered(whole, listed, done, AllFrom(payload, at, 0, ivSize, with))
    ensures whole == Some(done) && forall k :: 0 <= k < |done| ==> SubTotal(listed + done[..k]) <= U32_MAX
  {
    assert done + [] == done;
  }

  class AuxBuilder {
    const ivSize: nat
    const limit: nat
    var samples: nat
    var ivs: seq<byte>
    var subFirst: seq<nat>
    var subsamples: seq<Subsample>
    /** What has been said of the samples so far. */
    ghost var listed: seq<SampleAux>

    ghost predicate Valid()
      reads this
    {
      samples == |listed| <= limit && Tabled(ivSize, listed, ivs, subFirst, subsamples)
    }

    constructor (ivSize: nat, limit: nat)
      ensures Valid() && listed == [] && this.ivSize == ivSize && this.limit == limit
    {
      this.ivSize, this.limit := ivSize, limit;
      samples, ivs, subFirst, subsamples, listed := 0, [], [], [], [];
      NothingTabled(ivSize);
    }

    /** The map of one sample, at `at`: its count, then its pairs. */
    method PushMap(payload: seq<byte>, at: nat) returns (r: Result<nat>)
      modifies this`subsamples
      ensures r.Ok? <==> at + 2 <= |payload| && PairsFrom(payload, at + 2, FromBytes(payload[at..at + 2])).Some?
      ensures r.Ok? ==>
                var (subs, end) := PairsFrom(payload, at + 2, FromBytes(payload[at..at + 2])).value;
                r.value == end && subsamples == old(subsamples) + subs
    {
      hide FromBytes, PairsFrom;
      if at + 2 > |payload| {
        return Err;
      }
      var n := FromBytes(payload[at..at + 2]);
      var next := at + 2;
      ghost var whole := PairsFrom(payload, next, n);
      ghost var done: seq<Subsample> := [];
      for i := 0 to n
        invariant subsamples == old(subsamples) + done
        invariant var rest := PairsFrom(payload, next, n - i);
                  (whole.Some? <==> rest.Some?) && (whole.Some? ==> whole.value.0 == done + rest.value.0 && whole.value.1 == rest.value.1)
      {
        NextPair(payload, next, n - i);
        if next + 6 > |payload| {
          return Err;
        }
        var s := Subsample(FromBytes(payload[next..next + 2]), FromBytes(payload[next + 2..next + 6]));
        subsamples := subsamples + [s];
        done := done + [s];
        next := next + 6;
      }
      NextPair(payload, next, 0);
      return Ok(next);
    }

    /** `push_senc`; a builder that has refused a box is not used again. */
    method PushSenc(payload: seq<byte>, expected: nat) returns (r: Result<()>)
      requires Valid()
      modifies this`samples, this`ivs, this`subFirst, this`subsamples, this`listed
      ensures var read := SencRead(payload, ivSize);
              && (r.Ok? <==>
                    && read.Some? && |read.value| == expected && |old(listed)| + expected <= limit
                    && forall i :: 0 <= i < expected ==> SubTotal(old(listed) + read.value[..i]) <= U32_MAX)
              && (r.Ok? ==> Valid() && listed == old(listed) + read.value)
    {
      hide FromBytes, AllFrom, SubTotal, Tabled;
      if |payload| < 8 {
        return Err;
      }
      var count, with := FromBytes(payload[4..8]), FromBytes(payload[1..4]) / 2 % 2 == 1;
      if count != expected {
        return Err;
      }
      if AllFrom(payload, 8, count, ivSize, with).Some? {
        EnoughRoom(payload, 8, count, ivSize, with);
      }
      if count * (ivSize + if with then 2 else 0) > |payload| - 8 {
        return Err;
      }
      if samples + count > limit {
        return Err;
      }
      r := PushEntries(payload, count, with);
      if r.Ok? {
        samples := samples + count;
        listed := listed + AllFrom(payload, 8, count, ivSize, with).value;
      }
    }

    /** The loop over the entries. */
    method PushEntries(payload: seq<byte>, count: nat, with: bool) returns (r: Result<()>)
      requires Tabled(ivSize, listed, ivs, subFirst, subsamples)
      modifies this`ivs, this`subFirst, this`subsamples
      ensures var read := AllFrom(payload, 8, count, ivSize, with);
              && (r.Ok? <==> read.Some? && forall i :: 0 <= i < count ==> SubTotal(listed + read.value[..i]) <= U32_MAX)
              && (r.Ok? ==> Tabled(ivSize, listed + read.value, ivs, subFirst, subsamples))
    {
      hide FromBytes, AllFrom, OneFrom, PairsFrom, SubTotal, Tabled, Entered;
      var at: nat := 8;
      ghost var whole := AllFrom(payload, 8, count, ivSize, with);
      ghost var done: seq<SampleAux> := [];
      assert listed + [] == listed;
      NothingEntered(whole, listed);
      for i := 0 to count
        invariant |done| == i && Tabled(ivSize, listed + done, ivs, subFirst, subsamples)
        invariant Entered(whole, listed, done, AllFrom(payload, at, count - i, ivSize, with))
      {
        EntryStep(payload, at, count - i, ivSize, with, whole, listed, done);
        EntryParts(payload, at, ivSize, with);
        ghost var one := OneFrom(payload, at, ivSize, with);
        ghost var x := if one.Some? then one.value.0 else SampleAux([], []);
        TabledPush(ivSize, listed + done, ivs, subFirst, subsamples, x);
        if at + ivSize > |payload| {
          return Err;
        }
        var start := at + ivSize;
        ivs := ivs + payload[at..start];
        if |subsamples| > U32_MAX {
          return Err;
        }
        subFirst := subFirst + [|subsamples|];
        at := start;
        if with {
          at :- PushMap(payload, start);
        } else {
          assert subsamples == subsamples + [];
        }
        done := done + [x];
      }
      EntriesDone(payload, at, ivSize, with, whole, listed, done);
      return Ok(());
    }

    /** `push_unlisted`: samples under a constant IV, protected whole. */
    method PushUnlisted(count: nat) returns (r: Result<()>)
      requires Valid() && ivSize == 0
      modifies this`samples, this`subFirst, this`listed
      ensures r.Ok? <==> |old(listed)| + count <= limit && SubTotal(old(listed)) <= U32_MAX
      ensures r.Ok? ==> Valid() && listed == old(listed) + Unlisted(count)
    {
      hide SubTotal, AllSubs, AllIvs, Tabled;
      TabledUnlisted(ivSize, listed, ivs, subFirst, subsamples, count);
      if samples + count > limit {
        return Err;
      }
      if |subsamples| > U32_MAX {
        return Err;
      }
      subFirst := subFirst + Repeated(|subsamples|, count);
      samples := samples + count;
      listed := listed + Unlisted(count);
      return Ok(());
    }

    /** `finish`; an error is its panic. */
    method Finish() returns (r: Result<AuxTable>)
      requires Valid()
      modifies this`subFirst
      ensures r.Ok? <==> SubTotal(listed) <= U32_MAX
      ensures r.Ok? ==> Gives(r.value, ivSize, listed)
    {
      hide SubTotal, Tabled, Gives;
      TabledPush(ivSize, listed, ivs, subFirst, subsamples, SampleAux([], []));
      TabledGives(ivSize, listed, ivs, subFirst, subsamples);
      if subsamples == [] {
        return Ok(AuxTable(ivSize, ivs, [], []));
      }
      if |subsamples| > U32_MAX {
        return Err;
      }
      subFirst := subFirst + [|subsamples|];
      return Ok(AuxTable(ivSize, ivs, subFirst, subsamples));
    }
  }

  function Repeated(x: nat, count: nat): (r: seq<nat>)
    ensures |r| == count
  {
    seq(count, i => x)
  }

  function Unlisted(count: nat): (r: seq<SampleAux>)
    ensures |r| == count
  {
    seq(count, i => SampleAux([], []))
  }

  lemma {:induction false} TabledUnlisted(ivSize: nat, list: seq<SampleAux>, ivs: seq<byte>, subFirst: seq<nat>, subsamples: seq<Subsample>,
                                          count: nat)
    requires Tabled(ivSize, list, ivs, subFirst, subsamples) && ivSize == 0
    ensures |subsamples| == SubTotal(list)
    ensures Tabled(ivSize, list + Unlisted(count), ivs, subFirst + Repeated(|subsamples|, count), subsamples)
    decreases count
  {
    hide AllIvs, AllSubs, SubTotal, Tabled;
    TabledPush(ivSize, list, ivs, subFirst, subsamples, SampleAux([], []));
    if count == 0 {
      assert list + Unlisted(0) == list && subFirst + Repeated(|subsamples|, 0) == subFirst;
    } else {
      var n := count - 1;
      TabledUnlisted(ivSize, list, ivs, subFirst, subsamples, n);
      TabledPush(ivSize, list + Unlisted(n), ivs, subFirst + Repeated(|subsamples|, n), subsamples, SampleAux([], []));
      assert list + Unlisted(n) + [SampleAux([], [])] == list + Unlisted(count);
      assert subFirst + Repeated(|subsamples|, n) + [|subsamples|] == subFirst + Repeated(|subsamples|, count);
      assert ivs + [] == ivs && subsamples + [] == subsamples;
    }
  }

  // ----- What the tables give -----

  /** Every sample's own IV and map, and nothing for samples that are not listed. */
  ghost predicate Gives(table: AuxTable, ivSize: nat, list: seq<SampleAux>) {
    && (forall i: nat :: i < |list| ==>
          table.Iv(i) == (if ivSize == 0 then None else Some(list[i].iv)) && table.Subs(i) == list[i].subs)
    && (forall i: nat :: i >= |list| ==> table.Iv(i) == None && table.Subs(i) == [])
  }

  lemma {:induction false} TabledGives(ivSize: nat, list: seq<SampleAux>, ivs: seq<byte>, subFirst: seq<nat>, subsamples: seq<Subsample>)
    requires Tabled(ivSize, list, ivs, subFirst, subsamples)
    ensures subsamples == [] ==> Gives(AuxTable(ivSize, ivs, [], []), ivSize, list)
    ensures Gives(AuxTable(ivSize, ivs, subFirst + [|subsamples|], subsamples), ivSize, list)
  {
    hide AuxTable.Iv, AuxTable.Subs, Tabled;
    TabledPush(ivSize, list, ivs, subFirst, subsamples, SampleAux([], []));
    var whole, bare := AuxTable(ivSize, ivs, subFirst + [|subsamples|], subsamples), AuxTable(ivSize, ivs, [], []);
    forall i: nat
      ensures whole.Iv(i) == bare.Iv(i) == (if ivSize == 0 || i >= |list| then None else Some(list[i].iv))
    {
      IvGiven(ivSize, list, ivs, subFirst, subsamples, i);
    }
    forall i: nat
      ensures whole.Subs(i) == (if i < |list| then list[i].subs else [])
      ensures subsamples == [] ==> bare.Subs(i) == whole.Subs(i)
    {
      SubsGiven(ivSize, list, ivs, subFirst, subsamples, i);
    }
  }

  lemma {:induction false} IvGiven(ivSize: nat, list: seq<SampleAux>, ivs: seq<byte>, subFirst: seq<nat>, subsamples: seq<Subsample>, i: nat)
    requires Tabled(ivSize, list, ivs, subFirst, subsamples)
    ensures AuxTable(ivSize, ivs, subFirst + [|subsamples|], subsamples).Iv(i)
            == AuxTable(ivSize, ivs, [], []).Iv(i)
            == if ivSize == 0 || i >= |list| then None else Some(list[i].iv)
  {
    hide AllIvs, AllSubs, SubTotal;
    IvsLength(list, ivSize);
    if i < |list| {
      IvsAt(list, ivSize, i);
    } else {
      BeyondIvs(ivSize, |list|, i);
    }
  }

  lemma {:induction false} SubsGiven(ivSize: nat, list: seq<SampleAux>, ivs: seq<byte>, subFirst: seq<nat>, subsamples: seq<Subsample>, i: nat)
    requires Tabled(ivSize, list, ivs, subFirst, subsamples) && |subFirst| == |list| && |subsamples| == SubTotal(list)
    ensures var subs := AuxTable(ivSize, ivs, subFirst + [|subsamples|], subsamples).Subs(i);
            subs == (if i < |list| then list[i].subs else []) && (subsamples == [] ==> subs == [])
    ensures AuxTable(ivSize, ivs, [], []).Subs(i) == []
  {
    hide AllIvs, AllSubs, SubTotal;
    if i < |list| {
      SubsAt(list, i);
      assert list[..|list|] == list;
      assert (subFirst + [|subsamples|])[i + 1] == SubTotal(list[..i + 1]);
    }
  }

  lemma {:induction false} BeyondIvs(ivSize: nat, n: nat, i: nat)
    requires n <= i
    ensures ivSize * n <= i * ivSize
  {
  }

  /** The IV of a sample: 8 bytes are padded with zeros after them, 16 taken as they are, none is the constant one. */
  lemma {:induction false} IvIs(s: SourceProtection, ivSize: nat, list: seq<SampleAux>, i: nat)
    requires Gives(s.aux, ivSize, list) && i < |list| && |list[i].iv| == ivSize
    ensures ivSize == 0 ==> s.IvOf(i) == s.constantIv
    ensures ivSize == 16 ==> s.IvOf(i) == Some(list[i].iv)
    ensures ivSize == 8 ==> s.IvOf(i).Some? && |s.IvOf(i).value| == 16 && s.IvOf(i).value == list[i].iv + seq(8, k => 0)
  {
  }

  /**
   `cenc` with IVs of 8 bytes: the protected byte of rank r in sample i is XORed with byte r mod 16 of
   the encrypted block made of that sample's IV and the number r / 16 in 8 bytes.
   */
  lemma {:induction false} CencSample(s: SourceProtection, list: seq<SampleAux>, i: nat, data: seq<byte>, o: nat)
    requires Gives(s.aux, 8, list) && i < |list| && |list[i].iv| == 8 && s.key.scheme.Cenc?
    requires (list[i].subs == [] || Span(list[i].subs) == |data|) && o < |data| <= U32_MAX
    ensures s.IvOf(i).Some?
    ensures var mask := ProtectedBytes(list[i].subs, |data|);
            var r := Rank(mask, o);
            SampleApplied(s.key, s.IvOf(i).value, false, data, s.aux.Subs(i))[o]
            == if mask[o] then Xor(data[o], s.key.cipher.encrypt(list[i].iv + ToBytes(r / 16, 8))[r % 16]) else data[o]
  {
    hide SampleApplied, ProtectedBytes, Rank, KeyBlock, ToBytes, Span, Limit;
    IvIs(s, 8, list, i);
    CencByRank(s.key, s.IvOf(i).value, false, data, list[i].subs, o);
    var r := Rank(ProtectedBytes(list[i].subs, |data|), o);
    RankBound(ProtectedBytes(list[i].subs, |data|), o);
    assert Limit(8) == U64_MAX + 1 by {
      Limits();
    }
    CounterBlock(s.key.cipher, list[i].iv, r / 16);
  }

  lemma {:induction false} RankBound(mask: seq<bool>, i: nat)
    requires i <= |mask|
    ensures Rank(mask, i) <= i
  {
    if i > 0 {
      RankBound(mask, i - 1);
    }
  }

  // ----- Reading back what the packager writes -----

  /** The samples of the packager's own fragments: a constant IV, and these maps. */
  function OwnAux(maps: seq<seq<Subsample>>): (r: seq<SampleAux>)
    ensures |r| == |maps|
  {
    seq(|maps|, i requires 0 <= i < |maps| => SampleAux([], maps[i]))
  }

  lemma {:induction false} PairsCodePush(subs: seq<Subsample>, x: Subsample)
    ensures PairsCode(subs + [x]) == PairsCode(subs) + PairBytes(x)
  {
    hide ToBytes;
    if subs == [] {
      assert [x][1..] == [] && PairsCode([]) == [];
    } else {
      PairsCodePush(subs[1..], x);
      assert (subs + [x])[1..] == subs[1..] + [x];
    }
  }

  lemma {:induction false} SamePairs(subs: seq<Subsample>)
    ensures PairsCode(subs) == PairsBytes(subs)
  {
    hide PairBytes;
    if subs != [] {
      var n := |subs| - 1;
      SamePairs(subs[..n]);
      PairsCodePush(subs[..n], subs[n]);
      assert subs == subs[..n] + [subs[n]];
    }
  }

  lemma {:induction false} AllCodePush(list: seq<SampleAux>, x: SampleAux, with: bool)
    ensures AllCode(list + [x], with) == AllCode(list, with) + OneCode(x, with)
  {
    hide OneCode;
    if list == [] {
      assert [x][1..] == [] && AllCode([], with) == [];
    } else {
      AllCodePush(list[1..], x, with);
      assert (list + [x])[1..] == list[1..] + [x];
    }
  }

  lemma {:induction false} SameEntries(maps: seq<seq<Subsample>>, use: bool)
    ensures AuxEntries(maps, use) == AllCode(OwnAux(maps), use)
  {
    hide PairsCode, PairsBytes, ToBytes;
    if maps != [] {
      var n := |maps| - 1;
      SameEntries(maps[..n], use);
      SamePairs(maps[n]);
      AllCodePush(OwnAux(maps[..n]), SampleAux([], maps[n]), use);
      assert OwnAux(maps) == OwnAux(maps[..n]) + [SampleAux([], maps[n])];
      assert OneCode(SampleAux([], maps[n]), use) == AuxEntry(maps[n], use);
    }
  }

  /** The packager's own `senc`, read as a source's, gives back every map. */
  lemma {:induction false} OwnSencReads(maps: seq<seq<Subsample>>)
    requires Describable(maps) && MapsTyped(maps)
    ensures SencRead(SencPayload(maps), 0) == Some(OwnAux(maps))
  {
    hide AllCode, AuxEntries, SencRead, ToBytes, FullBoxFields, SencCode;
    var use := UsesSubsamples(maps);
    FitsByte(maps);
    SameEntries(maps, use);
    SencWritten(OwnAux(maps), 0, use, []);
    assert SencCode(OwnAux(maps), use) + [] == SencCode(OwnAux(maps), use);
    SencCodeIs(OwnAux(maps), use);
    Regroup(FullBoxFields(0, if use then 2 else 0), ToBytes(|maps|, 4), AuxEntries(maps, use), []);
    assert SencPayload(maps) == SencCode(OwnAux(maps), use);
  }

  lemma {:induction false} SencCodeIs(list: seq<SampleAux>, with: bool)
    ensures SencCode(list, with) == FullBoxFields(0, if with then 2 else 0) + (ToBytes(|list|, 4) + AllCode(list, with))
  {
    hide ToBytes, FullBoxFields, AllCode;
  }

  /**
   What the packager encrypts it can take as a source: tables that list a segment's samples from
   `first` on with the maps it was encrypted under give its payload back.
   */
  lemma {:induction false} OwnOutputReads<P(!new)>(t: TrackProtection<P>, payload: seq<byte>, sizes: seq<nat>, plan: Plan,
                                                   s: SourceProtection, list: seq<SampleAux>, first: nat)
    requires t.Valid() && t.cipher.Valid() && MapsOf(t, payload, sizes, plan) && PlanFits(plan, sizes)
    requires s.key == t.Key() && s.constantIv == Some(t.iv) && s.aux.ivSize == 0 && Gives(s.aux, 0, list)
    requires forall i :: 0 <= i < |plan| ==> first + i < |list| && list[first + i].subs == plan[i].1
    ensures Readable(s, first, sizes)
    ensures var sealed := SegmentApplied(t.Key(), true, payload, sizes, plan);
            PlanFits(SourcePlan(s, first, |sizes|), sizes) && Opened(s, first, sealed, sizes) == payload
  {
    hide SegmentApplied, AuxTable.Subs, MapsOf, PayloadSize, Readable, PlanFits, SourcePlan;
    forall i | 0 <= i < |plan| ensures s.aux.Subs(first + i) == plan[i].1 {
      var subs := plan[i].1;
      assert list[first + i].subs == subs;
    }
    CbcsRoundTrip(t, payload, sizes, plan, s, first);
    ReadablePlan(s, first, sizes);
    AllOfIt(t, payload, sizes, plan);
    var sealed := SegmentApplied(t.Key(), true, payload, sizes, plan);
    assert sealed[..|sealed|] == sealed && sealed[|sealed|..] == [];
    assert payload + [] == payload;
  }

  lemma {:induction false} AllOfIt<P(!new)>(t: TrackProtection<P>, payload: seq<byte>, sizes: seq<nat>, plan: Plan)
    requires t.Valid() && MapsOf(t, payload, sizes, plan)
    ensures PayloadSize(sizes) == |payload| && |plan| == |sizes|
  {
  }
}
