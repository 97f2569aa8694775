/**
 Undoing the protection of a source file (src/cenc/source.rs): the four schemes of ISO/IEC 23001-7,
 applied in place to one sample at a time.
 */
module Decryption {
  import opened Common
  import opened Cipher

  datatype Scheme = Cenc | Cens | Cbc1 | Cbcs

  datatype Subsample = Subsample(clear: nat, protected: nat)

  // ----- The counter keystream -----

  const COUNTER_LIMIT: nat := 0x1_0000_0000_0000_0000_0000_0000_0000_0000

  /** Keystream block `k`: the counter block `iv + k`, wrapping at 2^128, encrypted. */
  function KeyBlock(c: BlockCipher, iv: Block, k: nat): Block {
    c.encrypt(ToBytes((FromBytes(iv) + k) % COUNTER_LIMIT, 16))
  }

  function KeyByte(c: BlockCipher, iv: Block, i: nat): byte {
    KeyBlock(c, iv, i / 16)[i % 16]
  }

  /** The protected bytes from position `at` on, each under its own keystream byte. */
  function Streamed(c: BlockCipher, iv: Block, at: nat, data: seq<byte>): (r: seq<byte>)
    ensures |r| == |data|
  {
    seq(|data|, i requires 0 <= i < |data| => Xor(data[i], KeyByte(c, iv, at + i)))
  }

  lemma {:induction false} StreamedTwice(c: BlockCipher, iv: Block, at: nat, data: seq<byte>)
    ensures Streamed(c, iv, at, Streamed(c, iv, at, data)) == data
  {
    hide KeyByte;
    var once := Streamed(c, iv, at, data);
    forall i | 0 <= i < |data| ensures Streamed(c, iv, at, once)[i] == data[i] {
      XorTwice(data[i], KeyByte(c, iv, at + i), 0x100);
    }
  }

  /** One stream over two runs is one stream over both together. */
  lemma {:induction false} StreamedSplit(c: BlockCipher, iv: Block, at: nat, a: seq<byte>, b: seq<byte>)
    ensures Streamed(c, iv, at, a + b) == Streamed(c, iv, at, a) + Streamed(c, iv, at + |a|, b)
  {
  }

  /** `CtrStream`: a keystream that carries on from one call to the next, partial blocks included. */
  class CtrStream {
    const cipher: BlockCipher
    ghost const iv: Block
    var counter: nat
    var keystream: Block
    var used: nat
    /** How many bytes the stream has covered. */
    ghost var position: nat

    ghost predicate Valid()
      reads this
    {
      && 0 < used <= 16
      && counter == (FromBytes(iv) + (position + 15) / 16) % COUNTER_LIMIT
      && position % 16 == used % 16
      && (used < 16 ==> keystream == KeyBlock(cipher, iv, position / 16))
    }

    constructor (cipher: BlockCipher, iv: Block)
      ensures Valid() && position == 0 && this.cipher == cipher && this.iv == iv
    {
      this.cipher := cipher;
      this.iv := iv;
      counter := FromBytes(iv) % COUNTER_LIMIT;
      keystream := seq(16, i => 0);
      used := 16;
      position := 0;
    }

    /** Covers `data[lo..hi]` in place. */
    method Apply(data: array<byte>, lo: nat, hi: nat)
      requires Valid() && lo <= hi <= data.Length
      modifies data, this
      ensures Valid() && position == old(position) + (hi - lo)
      ensures data[..] == Spliced(old(data[..]), lo, Streamed(cipher, iv, old(position), old(data[..])[lo..hi]))
    {
      hide Spliced, Streamed, KeyBlock, FromBytes, XorBytes, Valid;
      var at := lo;
      ghost var pre, start := data[..], position;
      SpliceNothing(pre, lo);
      StreamedNothing(cipher, iv, start);
      assert pre[lo..lo] == [];
      while at < hi
        invariant lo <= at <= hi && Valid() && position == start + (at - lo)
        invariant data[..] == Spliced(pre, lo, Streamed(cipher, iv, start, pre[lo..at]))
      {
        Refill();
        var take: nat := Min(16 - used, hi - at);
        ghost var run := pre[at..at + take];
        SpliceAgain(pre, lo, Streamed(cipher, iv, start, pre[lo..at]), XorBytes(run, keystream[used..used + take]));
        RunAhead(pre, lo, Streamed(cipher, iv, start, pre[lo..at]), take);
        KeyRun(cipher, iv, position, keystream, used, run);
        StreamedSplit(cipher, iv, start, pre[lo..at], run);
        XorRun(data, at, take, keystream, used);
        Advance(take);
        at := at + take;
      }
    }

    /** A block with bytes left to use. */
    ghost predicate Ready()
      reads this
    {
      && used < 16 && position % 16 == used
      && keystream == KeyBlock(cipher, iv, position / 16)
      && counter == (FromBytes(iv) + position / 16 + 1) % COUNTER_LIMIT
    }

    method Refill()
      requires Valid()
      modifies this
      ensures Ready() && position == old(position)
      ensures used < 16 && position % 16 == used && keystream == KeyBlock(cipher, iv, position / 16)
    {
      hide FromBytes, ToBytes, KeyBlock;
      if used == 16 {
        keystream := cipher.encrypt(ToBytes(counter, 16));
        KeyBlockIs(cipher, iv, position / 16);
        NextCounter(FromBytes(iv) + position / 16);
        counter := (counter + 1) % COUNTER_LIMIT;
        used := 0;
      }
    }

    method Advance(take: nat)
      requires Ready() && 0 < take <= 16 - used
      modifies this
      ensures Valid() && position == old(position) + take
    {
      hide FromBytes, KeyBlock;
      used := used + take;
      position := position + take;
    }
  }

  lemma {:induction false} KeyBlockIs(c: BlockCipher, iv: Block, k: nat)
    ensures KeyBlock(c, iv, k) == c.encrypt(ToBytes((FromBytes(iv) + k) % COUNTER_LIMIT, 16))
  {
  }

  lemma {:induction false} NextCounter(n: nat)
    ensures (n % COUNTER_LIMIT + 1) % COUNTER_LIMIT == (n + 1) % COUNTER_LIMIT
  {
  }

  /** The bytes after what is done are still the old ones. */
  lemma {:induction false} RunAhead(pre: seq<byte>, lo: nat, done: seq<byte>, take: nat)
    requires lo + |done| + take <= |pre|
    ensures var at := lo + |done|;
            Spliced(pre, lo, done)[at..at + take] == pre[at..at + take] && pre[lo..at + take] == pre[lo..at] + pre[at..at + take]
  {
    var at, now := lo + |done|, Spliced(pre, lo, done);
    assert now[at..] == pre[at..];
    SliceOfTail(now, at, 0, take);
    SliceOfTail(pre, at, 0, take);
  }

  lemma {:induction false} StreamedNothing(c: BlockCipher, iv: Block, at: nat)
    ensures Streamed(c, iv, at, []) == []
  {
  }

  /** Within one block, the keystream bytes are the block's. */
  lemma {:induction false} KeyRun(c: BlockCipher, iv: Block, at: nat, keystream: Block, used: nat, run: seq<byte>)
    requires at % 16 == used && used + |run| <= 16 && keystream == KeyBlock(c, iv, at / 16)
    ensures XorBytes(run, keystream[used..used + |run|]) == Streamed(c, iv, at, run)
  {
    hide KeyBlock;
    var streamed := Streamed(c, iv, at, run);
    forall k | 0 <= k < |run| ensures streamed[k] == Xor(run[k], keystream[used + k]) {
      assert (at + k) / 16 == at / 16 && (at + k) % 16 == used + k;
    }
  }

  method XorRun(data: array<byte>, at: nat, take: nat, keystream: Block, used: nat)
    requires at + take <= data.Length && used + take <= 16
    modifies data
    ensures data[..] == Spliced(old(data[..]), at, XorBytes(old(data[..])[at..at + take], keystream[used..used + take]))
  {
    forall k | 0 <= k < take {
      data[at + k] := Xor(data[at + k], keystream[used + k]);
    }
  }

  // ----- What a scheme does to a range, and to a sample -----

  /** What the schemes carry from one range of a sample to the next. */
  datatype Carry = Carry(position: nat, chain: Block)

  datatype Applied = Applied(bytes: seq<byte>, carry: Carry)

  datatype Protection = Protection(cipher: BlockCipher, scheme: Scheme, pattern: Pattern)

  /** `cens`: the keystream over the selected whole blocks. */
  function SelectedStream(c: BlockCipher, iv: Block, at: nat, data: seq<byte>, index: nat, p: Pattern): (r: (seq<byte>, nat))
    ensures |r.0| == |data|
    decreases |data|
  {
    if |data| < 16 then (data, at)
    else
      var out := if p.Selects(index) then Streamed(c, iv, at, data[..16]) else data[..16];
      var rest := SelectedStream(c, iv, if p.Selects(index) then at + 16 else at, data[16..], index + 1, p);
      (out + rest.0, rest.1)
  }

  /** One protected range, encrypted (`seal`) or decrypted. */
  function RangeApplied(k: Protection, iv: Block, seal: bool, carry: Carry, data: seq<byte>): (r: Applied)
    ensures |r.bytes| == |data|
  {
    match k.scheme
    case Cenc =>
      Applied(Streamed(k.cipher, iv, carry.position, data), carry.(position := carry.position + |data|))
    case Cens =>
      var r := SelectedStream(k.cipher, iv, carry.position, data, 0, k.pattern);
      Applied(r.0, carry.(position := r.1))
    case Cbc1 =>
      var r := if seal then Encrypted(k.cipher, data, 0, carry.chain, Pattern(0, 0))
               else Decrypted(k.cipher, data, 0, carry.chain, Pattern(0, 0));
      Applied(r.bytes, carry.(chain := r.chain))
    case Cbcs =>
      var r := if seal then Encrypted(k.cipher, data, 0, iv, k.pattern)
               else Decrypted(k.cipher, data, 0, iv, k.pattern);
      Applied(r.bytes, carry)
  }

  function Span(subsamples: seq<Subsample>): nat {
    if subsamples == [] then 0 else subsamples[0].clear + subsamples[0].protected + Span(subsamples[1..])
  }

  function SubsApplied(k: Protection, iv: Block, seal: bool, carry: Carry, data: seq<byte>, subs: seq<Subsample>): (r: seq<byte>)
    requires Span(subs) == |data|
    ensures |r| == |data|
    decreases |subs|
  {
    if subs == [] then []
    else
      var from, to := subs[0].clear, subs[0].clear + subs[0].protected;
      var r := RangeApplied(k, iv, seal, carry, data[from..to]);
      data[..from] + r.bytes + SubsApplied(k, iv, seal, r.carry, data[to..], subs[1..])
  }

  /** A whole sample; with no subsamples all of it is protected. */
  function SampleApplied(k: Protection, iv: Block, seal: bool, data: seq<byte>, subs: seq<Subsample>): (r: seq<byte>)
    requires subs == [] || Span(subs) == |data|
    ensures |r| == |data|
  {
    if subs == [] then RangeApplied(k, iv, seal, Carry(0, iv), data).bytes
    else SubsApplied(k, iv, seal, Carry(0, iv), data, subs)
  }

  // ----- Decryption undoes encryption -----

  lemma {:induction false} SelectedStreamTwice(c: BlockCipher, iv: Block, at: nat, data: seq<byte>, index: nat, p: Pattern)
    ensures var r := SelectedStream(c, iv, at, data, index, p);
            SelectedStream(c, iv, at, r.0, index, p) == (data, r.1)
    decreases |data|
  {
    hide Streamed, Pattern.Selects;
    if |data| >= 16 {
      var out := if p.Selects(index) then Streamed(c, iv, at, data[..16]) else data[..16];
      var next := if p.Selects(index) then at + 16 else at;
      var rest := SelectedStream(c, iv, next, data[16..], index + 1, p);
      assert (out + rest.0)[..16] == out && (out + rest.0)[16..] == rest.0;
      SelectedStreamTwice(c, iv, next, data[16..], index + 1, p);
      StreamedTwice(c, iv, at, data[..16]);
      assert data == data[..16] + data[16..];
    }
  }

  /** The counter schemes are their own inverse; the chained ones undo encryption. */
  lemma {:induction false} RangeRoundTrip(k: Protection, iv: Block, seal: bool, carry: Carry, data: seq<byte>)
    requires k.cipher.Valid() && (seal || k.scheme.Cenc? || k.scheme.Cens?)
    ensures var r := RangeApplied(k, iv, seal, carry, data);
            RangeApplied(k, iv, !seal, carry, r.bytes) == Applied(data, r.carry)
  {
    hide Streamed, SelectedStream, Encrypted, Decrypted;
    match k.scheme {
      case Cenc => StreamedTwice(k.cipher, iv, carry.position, data);
      case Cens => SelectedStreamTwice(k.cipher, iv, carry.position, data, 0, k.pattern);
      case Cbc1 => DecryptInvertsEncrypt(k.cipher, data, 0, carry.chain, Pattern(0, 0));
      case Cbcs => DecryptInvertsEncrypt(k.cipher, data, 0, iv, k.pattern);
    }
  }

  lemma {:induction false} SubsRoundTrip(k: Protection, iv: Block, seal: bool, carry: Carry, data: seq<byte>, subs: seq<Subsample>)
    requires k.cipher.Valid() && (seal || k.scheme.Cenc? || k.scheme.Cens?)
    requires Span(subs) == |data|
    ensures SubsApplied(k, iv, !seal, carry, SubsApplied(k, iv, seal, carry, data, subs), subs) == data
    decreases |subs|
  {
    hide RangeApplied;
    if subs != [] {
      var from, to := subs[0].clear, subs[0].clear + subs[0].protected;
      var r := RangeApplied(k, iv, seal, carry, data[from..to]);
      var rest := SubsApplied(k, iv, seal, r.carry, data[to..], subs[1..]);
      var all := data[..from] + r.bytes + rest;
      assert all[..from] == data[..from] && all[from..to] == r.bytes && all[to..] == rest;
      RangeRoundTrip(k, iv, seal, carry, data[from..to]);
      SubsRoundTrip(k, iv, seal, r.carry, data[to..], subs[1..]);
      assert data == data[..from] + data[from..to] + data[to..];
    }
  }

  /** For every scheme, decrypting a sample gives back every byte that was encrypted. */
  lemma {:induction false} SampleRoundTrip(k: Protection, iv: Block, data: seq<byte>, subs: seq<Subsample>)
    requires k.cipher.Valid() && (subs == [] || Span(subs) == |data|)
    ensures SampleApplied(k, iv, false, SampleApplied(k, iv, true, data, subs), subs) == data
  {
    hide SubsApplied, RangeApplied;
    if subs == [] {
      RangeRoundTrip(k, iv, true, Carry(0, iv), data);
    } else {
      SubsRoundTrip(k, iv, true, Carry(0, iv), data, subs);
    }
  }

  /** Decrypting a counter scheme twice changes nothing. */
  lemma {:induction false} CounterDecryptTwice(k: Protection, iv: Block, data: seq<byte>, subs: seq<Subsample>)
    requires k.cipher.Valid() && (subs == [] || Span(subs) == |data|) && (k.scheme.Cenc? || k.scheme.Cens?)
    ensures SampleApplied(k, iv, false, SampleApplied(k, iv, false, data, subs), subs) == data
  {
    hide SubsApplied;
    SealIrrelevant(k, iv, Carry(0, iv), SampleApplied(k, iv, false, data, subs), subs);
    if subs == [] {
      RangeRoundTrip(k, iv, false, Carry(0, iv), data);
    } else {
      SubsRoundTrip(k, iv, false, Carry(0, iv), data, subs);
    }
  }

  lemma {:induction false} SealIrrelevant(k: Protection, iv: Block, carry: Carry, data: seq<byte>, subs: seq<Subsample>)
    requires k.scheme.Cenc? || k.scheme.Cens?
    ensures RangeApplied(k, iv, true, carry, data) == RangeApplied(k, iv, false, carry, data)
    ensures Span(subs) == |data| ==> SubsApplied(k, iv, true, carry, data, subs) == SubsApplied(k, iv, false, carry, data, subs)
    decreases |subs|
  {
    hide Streamed, SelectedStream;
    if subs != [] && Span(subs) == |data| {
      var from, to := subs[0].clear, subs[0].clear + subs[0].protected;
      SealIrrelevant(k, iv, carry, data[from..to], []);
      SealIrrelevant(k, iv, RangeApplied(k, iv, true, carry, data[from..to]).carry, data[to..], subs[1..]);
    }
  }

  /** Which bytes of a sample its subsamples protect. */
  function Mask(subs: seq<Subsample>): (r: seq<bool>)
    ensures |r| == Span(subs)
  {
    if subs == [] then []
    else seq(subs[0].clear, i => false) + seq(subs[0].protected, i => true) + Mask(subs[1..])
  }

  /** No scheme touches a byte outside the protected ranges. */
  lemma {:induction false} UnmaskedStay(k: Protection, iv: Block, seal: bool, carry: Carry, data: seq<byte>, subs: seq<Subsample>, i: nat)
    requires Span(subs) == |data| && i < |data| && !Mask(subs)[i]
    ensures SubsApplied(k, iv, seal, carry, data, subs)[i] == data[i]
    decreases |subs|
  {
    hide RangeApplied, Mask;
    var from, to := subs[0].clear, subs[0].clear + subs[0].protected;
    MaskAt(subs, i);
    if i >= from {
      var r := RangeApplied(k, iv, seal, carry, data[from..to]);
      UnmaskedStay(k, iv, seal, r.carry, data[to..], subs[1..], i - to);
    }
  }

  lemma {:induction false} MaskAt(subs: seq<Subsample>, i: nat)
    requires i < |Mask(subs)|
    ensures subs != []
    ensures var from, to := subs[0].clear, subs[0].clear + subs[0].protected;
            && i < Span(subs) == to + |Mask(subs[1..])|
            && Mask(subs)[i] == if i < from then false else if i < to then true else Mask(subs[1..])[i - to]
  {
  }

  // ----- One keystream for the protected bytes of a sample -----

  /** How many protected bytes come before byte `i`. */
  function Rank(mask: seq<bool>, i: nat): nat
    requires i <= |mask|
  {
    if i == 0 then 0 else Rank(mask, i - 1) + if mask[i - 1] then 1 else 0
  }

  /** Which bytes of a sample are protected; without subsamples, all. */
  function ProtectedBytes(subs: seq<Subsample>, length: nat): (r: seq<bool>)
    requires subs == [] || Span(subs) == length
    ensures |r| == length
  {
    if subs == [] then seq(length, i => true) else Mask(subs)
  }

  lemma {:induction false} RankAll(length: nat, i: nat)
    requires i <= length
    ensures Rank(seq(length, j => true), i) == i
  {
    if i > 0 {
      RankAll(length, i - 1);
    }
  }

  lemma {:induction false} RankAcross(subs: seq<Subsample>, i: nat)
    requires subs != [] && i <= Span(subs)
    ensures var from, to := subs[0].clear, subs[0].clear + subs[0].protected;
            && |Mask(subs[1..])| == Span(subs) - to
            && Rank(Mask(subs), i) == if i <= from then 0 else if i <= to then i - from
                                      else subs[0].protected + Rank(Mask(subs[1..]), i - to)
    decreases i
  {
    hide Mask;
    if i > 0 {
      RankAcross(subs, i - 1);
      MaskAt(subs, i - 1);
      assert i - 1 == subs[0].clear + subs[0].protected ==> Rank(Mask(subs[1..]), 0) == 0;
    }
  }

  lemma {:induction false} SubsByRank(k: Protection, iv: Block, seal: bool, carry: Carry, data: seq<byte>, subs: seq<Subsample>, i: nat)
    requires k.scheme.Cenc? && Span(subs) == |data| && i < |data|
    ensures SubsApplied(k, iv, seal, carry, data, subs)[i]
            == if Mask(subs)[i] then Xor(data[i], KeyByte(k.cipher, iv, carry.position + Rank(Mask(subs), i))) else data[i]
    decreases |subs|
  {
    hide Mask, Rank, KeyByte;
    var from, to := subs[0].clear, subs[0].clear + subs[0].protected;
    MaskAt(subs, i);
    RankAcross(subs, i);
    if i >= to {
      SubsByRank(k, iv, seal, RangeApplied(k, iv, seal, carry, data[from..to]).carry, data[to..], subs[1..], i - to);
      if i == to {
        RankStart(Mask(subs[1..]));
      }
    }
  }

  lemma {:induction false} RankStart(mask: seq<bool>)
    ensures Rank(mask, 0) == 0
  {
  }

  /**
   `cenc`: the protected byte with r protected bytes before it in its sample is XORed with keystream
   byte r of iv, iv + 1, ..; no other byte changes.
   */
  lemma {:induction false} CencByRank(k: Protection, iv: Block, seal: bool, data: seq<byte>, subs: seq<Subsample>, i: nat)
    requires k.scheme.Cenc? && (subs == [] || Span(subs) == |data|) && i < |data|
    ensures var mask := ProtectedBytes(subs, |data|);
            SampleApplied(k, iv, seal, data, subs)[i]
            == if mask[i] then Xor(data[i], KeyByte(k.cipher, iv, Rank(mask, i))) else data[i]
  {
    hide Mask, Rank, KeyByte, SubsApplied;
    if subs == [] {
      RankAll(|data|, i);
    } else {
      SubsByRank(k, iv, seal, Carry(0, iv), data, subs, i);
    }
  }

  /** How the protected bytes are split into subsamples makes no difference under `cenc`. */
  lemma {:induction false} SplitIsIrrelevant(k: Protection, iv: Block, seal: bool, data: seq<byte>, a: seq<Subsample>, b: seq<Subsample>)
    requires k.scheme.Cenc? && (a == [] || Span(a) == |data|) && (b == [] || Span(b) == |data|)
    requires ProtectedBytes(a, |data|) == ProtectedBytes(b, |data|)
    ensures SampleApplied(k, iv, seal, data, a) == SampleApplied(k, iv, seal, data, b)
  {
    hide SampleApplied, ProtectedBytes, KeyByte, Rank;
    var x, y := SampleApplied(k, iv, seal, data, a), SampleApplied(k, iv, seal, data, b);
    forall i | 0 <= i < |data| ensures x[i] == y[i] {
      CencByRank(k, iv, seal, data, a, i);
      CencByRank(k, iv, seal, data, b, i);
    }
  }

  // ----- In place -----

  /** `protected_ranges`: the protected byte ranges of a sample, which the subsamples must cover. */
  function RangesFrom(subs: seq<Subsample>, at: nat): (r: seq<(nat, nat)>)
    ensures |r| == |subs|
  {
    if subs == [] then []
    else
      var end := at + subs[0].clear + subs[0].protected;
      [(at + subs[0].clear, end)] + RangesFrom(subs[1..], end)
  }

  lemma {:induction false} RangesAt(subs: seq<Subsample>, at: nat, i: nat)
    requires i < |subs|
    ensures var from := at + Span(subs[..i]);
            RangesFrom(subs, at)[i] == (from + subs[i].clear, from + subs[i].clear + subs[i].protected)
            && Span(subs[..i + 1]) == Span(subs[..i]) + subs[i].clear + subs[i].protected
    decreases |subs|
  {
    if i > 0 {
      RangesAt(subs[1..], at + subs[0].clear + subs[0].protected, i - 1);
      assert subs[1..][..i - 1] == subs[..i][1..] && subs[1..][..i] == subs[..i + 1][1..];
    } else {
      assert subs[..1][1..] == [];
    }
  }

  lemma {:induction false} SpanPrefix(subs: seq<Subsample>, i: nat)
    requires i <= |subs|
    ensures Span(subs) == Span(subs[..i]) + Span(subs[i..])
  {
    if i > 0 {
      SpanPrefix(subs[1..], i - 1);
      assert subs[1..][..i - 1] == subs[..i][1..] && subs[1..][i - 1..] == subs[i..];
    } else {
      assert subs[0..] == subs;
    }
  }

  method ProtectedRanges(length: nat, subs: seq<Subsample>) returns (r: Result<seq<(nat, nat)>>)
    ensures r.Ok? <==> subs == [] || Span(subs) == length
    ensures r.Ok? ==> r.value == if subs == [] then [(0, length)] else RangesFrom(subs, 0)
  {
    if subs == [] {
      return Ok([(0, length)]);
    }
    var ranges: seq<(nat, nat)> := [];
    var at := 0;
    for i := 0 to |subs|
      invariant at == Span(subs[..i]) <= length
      invariant ranges == RangesFrom(subs, 0)[..i]
    {
      RangesAt(subs, 0, i);
      SpanPrefix(subs, i + 1);
      var start := at + subs[i].clear;
      var end := start + subs[i].protected;
      if end > length {
        return Err;
      }
      ranges := ranges + [(start, end)];
      at := end;
    }
    assert subs[..|subs|] == subs;
    if at != length {
      return Err;
    }
    return Ok(ranges);
  }

  lemma {:induction false} DecryptedStep(c: BlockCipher, data: seq<byte>, index: nat, chain: Block, p: Pattern)
    ensures |data| < 16 ==> Decrypted(c, data, index, chain, p) == Chained(data, chain)
    ensures |data| >= 16 ==>
              var out: Block := if p.Selects(index) then XorBytes(c.decrypt(data[..16]), chain) else data[..16];
              var rest := Decrypted(c, data[16..], index + 1, if p.Selects(index) then data[..16] else chain, p);
              Decrypted(c, data, index, chain, p) == Chained(out + rest.bytes, rest.chain)
  {
  }

  /** The blocks of a `cbc1` or `cbcs` range, each opened with the ciphertext block before it. */
  method OpenCbc(c: BlockCipher, data: array<byte>, lo: nat, hi: nat, chain: Block, p: Pattern) returns (chain': Block)
    requires lo <= hi <= data.Length
    modifies data
    ensures var r := Decrypted(c, old(data[..])[lo..hi], 0, chain, p);
            data[..] == Spliced(old(data[..]), lo, r.bytes) && chain' == r.chain
  {
    hide XorBytes, Spliced, Decrypted, Pattern.Selects;
    chain' := chain;
    var index, at := 0, lo;
    ghost var pre := data[..];
    ghost var done: seq<byte> := [];
    SpliceNothing(pre, lo);
    while at + 16 <= hi
      invariant at <= hi && at == lo + |done|
      invariant data[..] == Spliced(pre, lo, done)
      invariant var rest := Decrypted(c, pre[at..hi], index, chain', p);
                Chained(done + rest.bytes, rest.chain) == Decrypted(c, pre[lo..hi], 0, chain, p)
    {
      DecryptedStep(c, pre[at..hi], index, chain', p);
      FirstBlock(pre, at, hi);
      SpliceBlock(pre, lo, done, pre[at..at + 16]);
      assert data[at..at + 16] == data[..][at..at + 16];
      if p.Selects(index) {
        var ciphertext: Block := data[at..at + 16];
        var block: Block := XorBytes(c.decrypt(ciphertext), chain');
        SpliceBlock(pre, lo, done, block);
        WriteBlock(data, at, block);
        chain' := ciphertext;
        done := done + block;
      } else {
        done := done + pre[at..at + 16];
      }
      index, at := index + 1, at + 16;
    }
    DecryptedStep(c, pre[at..hi], index, chain', p);
    SpliceRest(pre, lo, done, hi);
  }

  lemma {:induction false} SelectedStep(c: BlockCipher, iv: Block, at: nat, data: seq<byte>, index: nat, p: Pattern)
    ensures |data| < 16 ==> SelectedStream(c, iv, at, data, index, p) == (data, at)
    ensures |data| >= 16 ==>
              var out: Block := if p.Selects(index) then Streamed(c, iv, at, data[..16]) else data[..16];
              var rest := SelectedStream(c, iv, if p.Selects(index) then at + 16 else at, data[16..], index + 1, p);
              SelectedStream(c, iv, at, data, index, p) == (out + rest.0, rest.1)
  {
  }

  /** The selected blocks of a `cens` range, under a stream that runs on. */
  method OpenCens(stream: CtrStream, data: array<byte>, lo: nat, hi: nat, p: Pattern)
    requires lo <= hi <= data.Length && stream.Valid()
    modifies data, stream
    ensures var r := SelectedStream(stream.cipher, stream.iv, old(stream.position), old(data[..])[lo..hi], 0, p);
            stream.Valid() && data[..] == Spliced(old(data[..]), lo, r.0) && stream.position == r.1
  {
    hide Streamed, Spliced, SelectedStream, Pattern.Selects, CtrStream.Valid;
    var index, at := 0, lo;
    ghost var pre := data[..];
    ghost var done: seq<byte> := [];
    SpliceNothing(pre, lo);
    while at + 16 <= hi
      invariant at <= hi && at == lo + |done| && stream.Valid()
      invariant data[..] == Spliced(pre, lo, done)
      invariant var rest := SelectedStream(stream.cipher, stream.iv, stream.position, pre[at..hi], index, p);
                var all := SelectedStream(stream.cipher, stream.iv, old(stream.position), pre[lo..hi], 0, p);
                done + rest.0 == all.0 && rest.1 == all.1
    {
      SelectedStep(stream.cipher, stream.iv, stream.position, pre[at..hi], index, p);
      FirstBlock(pre, at, hi);
      SpliceBlock(pre, lo, done, pre[at..at + 16]);
      if p.Selects(index) {
        ghost var out := Streamed(stream.cipher, stream.iv, stream.position, pre[at..at + 16]);
        SpliceAgain(pre, lo, done, out);
        stream.Apply(data, at, at + 16);
        done := done + out;
      } else {
        done := done + pre[at..at + 16];
      }
      index, at := index + 1, at + 16;
    }
    SelectedStep(stream.cipher, stream.iv, stream.position, pre[at..hi], index, p);
    SpliceRest(pre, lo, done, hi);
  }

  method OpenRange(k: Protection, iv: Block, stream: CtrStream, chain: Block, data: array<byte>, lo: nat, hi: nat)
    returns (chain': Block)
    requires lo <= hi <= data.Length && stream.Valid() && stream.cipher == k.cipher && stream.iv == iv
    modifies data, stream
    ensures var r := RangeApplied(k, iv, false, Carry(old(stream.position), chain), old(data[..])[lo..hi]);
            && stream.Valid() && data[..] == Spliced(old(data[..]), lo, r.bytes)
            && Carry(stream.position, chain') == r.carry
  {
    hide Streamed, Spliced, SelectedStream, Decrypted, CtrStream.Valid;
    chain' := chain;
    match k.scheme {
      case Cenc => stream.Apply(data, lo, hi);
      case Cens => OpenCens(stream, data, lo, hi, k.pattern);
      case Cbc1 => chain' := OpenCbc(k.cipher, data, lo, hi, chain, Pattern(0, 0));
      case Cbcs => var _ := OpenCbc(k.cipher, data, lo, hi, iv, k.pattern);
    }
  }

  lemma {:induction false} SubsStep(k: Protection, iv: Block, seal: bool, carry: Carry, data: seq<byte>, subs: seq<Subsample>)
    requires Span(subs) == |data|
    ensures subs == [] ==> SubsApplied(k, iv, seal, carry, data, subs) == []
    ensures subs != [] ==>
              var from, to := subs[0].clear, subs[0].clear + subs[0].protected;
              && Span(subs[1..]) == |data| - to
              && var r := RangeApplied(k, iv, seal, carry, data[from..to]);
                 SubsApplied(k, iv, seal, carry, data, subs)
                 == data[..from] + r.bytes + SubsApplied(k, iv, seal, r.carry, data[to..], subs[1..])
  {
  }

  lemma {:induction false} WholeIsOneRange(k: Protection, iv: Block, seal: bool, data: seq<byte>)
    ensures Span([Subsample(0, |data|)]) == |data|
    ensures SubsApplied(k, iv, seal, Carry(0, iv), data, [Subsample(0, |data|)]) == SampleApplied(k, iv, seal, data, [])
    ensures RangesFrom([Subsample(0, |data|)], 0) == [(0, |data|)]
  {
    hide RangeApplied;
    assert [Subsample(0, |data|)][1..] == [] && data[0..|data|] == data;
  }

  /** After `i` ranges: `done` stands for the bytes from `lo` on, and the rest is still to do. */
  ghost predicate OpenedTo(k: Protection, iv: Block, seal: bool, carry: Carry, pre: seq<byte>, lo: nat, hi: nat,
                           done: seq<byte>, subs: seq<Subsample>, i: nat, target: seq<byte>) {
    && i <= |subs| && lo + |done| <= hi <= |pre|
    && |done| == Span(subs[..i]) && |done| + Span(subs[i..]) == hi - lo
    && done + SubsApplied(k, iv, seal, carry, pre[lo + |done|..hi], subs[i..]) == target
  }

  lemma {:induction false} OpenStep(k: Protection, iv: Block, seal: bool, carry: Carry, pre: seq<byte>, lo: nat, hi: nat,
                                    done: seq<byte>, subs: seq<Subsample>, i: nat, target: seq<byte>)
    requires OpenedTo(k, iv, seal, carry, pre, lo, hi, done, subs, i, target) && i < |subs|
    ensures var (start, end) := RangesFrom(subs, 0)[i];
            && |done| <= start <= end && lo + end <= hi
            && var r := RangeApplied(k, iv, seal, carry, pre[lo + start..lo + end]);
               OpenedTo(k, iv, seal, r.carry, pre, lo, hi, done + pre[lo + |done|..lo + start] + r.bytes, subs, i + 1, target)
  {
    hide RangeApplied, SubsApplied, Span, RangesFrom;
    RangesAt(subs, 0, i);
    assert subs[i..][0] == subs[i] && subs[i..][1..] == subs[i + 1..];
    var rest := pre[lo + |done|..hi];
    SubsStep(k, iv, seal, carry, rest, subs[i..]);
    var (start, end) := RangesFrom(subs, 0)[i];
    ThreeParts(pre, lo + |done|, hi, lo + start, lo + end);
  }

  lemma {:induction false} ThreeParts(pre: seq<byte>, lo: nat, hi: nat, from: nat, to: nat)
    requires lo <= from <= to <= hi <= |pre|
    ensures var rest := pre[lo..hi];
            && rest[..from - lo] == pre[lo..from] && rest[from - lo..to - lo] == pre[from..to] && rest[to - lo..] == pre[to..hi]
  {
    SliceOfSlice(pre, lo, hi, 0, from - lo);
    SliceOfSlice(pre, lo, hi, from - lo, to - lo);
    SliceOfSlice(pre, lo, hi, to - lo, hi - lo);
  }

  /** What the array holds while the ranges are opened. */
  lemma {:induction false} SpliceRange(pre: seq<byte>, lo: nat, done: seq<byte>, from: nat, to: nat, bytes: seq<byte>)
    requires lo + |done| <= from && from + |bytes| == to <= |pre|
    ensures var now := Spliced(pre, lo, done);
            && |now| == |pre| && now[from..to] == pre[from..to]
            && Spliced(now, from, bytes) == Spliced(pre, lo, done + pre[lo + |done|..from] + bytes)
  {
  }

  /** `SampleDecryptor::decrypt`: one sample, in place; nothing changes when the subsamples do not fit. */
  method DecryptSample(k: Protection, iv: Block, data: array<byte>, lo: nat, hi: nat, subs: seq<Subsample>)
    returns (r: Result<()>)
    requires lo <= hi <= data.Length
    modifies data
    ensures r.Ok? <==> subs == [] || Span(subs) == hi - lo
    ensures data[..] == if r.Ok? then Spliced(old(data[..]), lo, SampleApplied(k, iv, false, old(data[..])[lo..hi], subs))
                        else old(data[..])
  {
    hide Spliced, RangeApplied, SubsApplied, CtrStream.Valid, RangesFrom, OpenedTo, SampleApplied, Span;
    ghost var pre := data[..];
    var ranges :- ProtectedRanges(hi - lo, subs);
    ghost var all := if subs == [] then [Subsample(0, hi - lo)] else subs;
    ghost var target := SampleApplied(k, iv, false, pre[lo..hi], subs);
    OpenStart(k, iv, false, pre, lo, hi, subs);
    var stream := new CtrStream(k.cipher, iv);
    var chain := iv;
    ghost var done: seq<byte> := [];
    SpliceNothing(pre, lo);
    for i := 0 to |ranges|
      invariant fresh(stream) && stream.Valid() && stream.cipher == k.cipher && stream.iv == iv
      invariant ranges == RangesFrom(all, 0) && lo + |done| <= |pre| && data[..] == Spliced(pre, lo, done)
      invariant OpenedTo(k, iv, false, Carry(stream.position, chain), pre, lo, hi, done, all, i, target)
    {
      var (start, end) := ranges[i];
      ghost var carry := Carry(stream.position, chain);
      OpenStep(k, iv, false, carry, pre, lo, hi, done, all, i, target);
      ghost var bytes := RangeApplied(k, iv, false, carry, pre[lo + start..lo + end]).bytes;
      SpliceRange(pre, lo, done, lo + start, lo + end, bytes);
      chain := OpenRange(k, iv, stream, chain, data, lo + start, lo + end);
      done := done + pre[lo + |done|..lo + start] + bytes;
    }
    OpenEnd(k, iv, false, Carry(stream.position, chain), pre, lo, hi, done, all, target);
    return Ok(());
  }

  lemma {:induction false} OpenStart(k: Protection, iv: Block, seal: bool, pre: seq<byte>, lo: nat, hi: nat, subs: seq<Subsample>)
    requires lo <= hi <= |pre| && (subs == [] || Span(subs) == hi - lo)
    ensures var all := if subs == [] then [Subsample(0, hi - lo)] else subs;
            && OpenedTo(k, iv, seal, Carry(0, iv), pre, lo, hi, [], all, 0, SampleApplied(k, iv, seal, pre[lo..hi], subs))
            && RangesFrom(all, 0) == if subs == [] then [(0, hi - lo)] else RangesFrom(subs, 0)
  {
    hide SubsApplied, RangesFrom;
    var all := if subs == [] then [Subsample(0, hi - lo)] else subs;
    WholeIsOneRange(k, iv, seal, pre[lo..hi]);
    assert all[0..] == all && all[..0] == [];
  }

  lemma {:induction false} OpenEnd(k: Protection, iv: Block, seal: bool, carry: Carry, pre: seq<byte>, lo: nat, hi: nat,
                                   done: seq<byte>, subs: seq<Subsample>, target: seq<byte>)
    requires OpenedTo(k, iv, seal, carry, pre, lo, hi, done, subs, |subs|, target)
    ensures done == target
  {
    assert subs[|subs|..] == [];
  }

  // ----- What a source file says about a sample -----

  /** `AuxTable`: the per-sample IVs and subsample maps of one track, as flat tables. */
  datatype AuxTable = AuxTable(ivSize: nat, ivs: seq<byte>, subFirst: seq<nat>, subsamples: seq<Subsample>) {
    function Iv(index: nat): Option<seq<byte>> {
      var start := index * ivSize;
      if ivSize == 0 || start + ivSize > |ivs| then None else Some(ivs[start..start + ivSize])
    }

    function Subs(index: nat): seq<Subsample> {
      if index + 1 >= |subFirst| then []
      else if subFirst[index] <= subFirst[index + 1] <= |subsamples| then subsamples[subFirst[index]..subFirst[index + 1]]
      else []
    }
  }

  datatype SourceProtection = SourceProtection(key: Protection, constantIv: Option<Block>, aux: AuxTable) {
    /** The IV of a sample: its own, of 8 (padded with zeros) or 16 bytes, or the constant one. */
    function IvOf(index: nat): Option<Block> {
      match aux.Iv(index)
      case Some(iv) =>
        if |iv| == 16 then Some(iv)
        else if |iv| == 8 then Some(iv + seq(8, i => 0))
        else None
      case None => constantIv
    }
  }
}
