/**
 Block ciphers used raw (src/cenc/cipher.rs, src/cenc/source.rs): `cbcs` pattern encryption in
 place, the four decryption schemes of ISO/IEC 23001-7, and the counter keystream.

 AES is any permutation of 16-byte blocks together with its inverse.
 */
module Cipher {
  import opened Common

  type Block = b: seq<byte> | |b| == 16 witness seq(16, i => 0)

  datatype BlockCipher = BlockCipher(encrypt: Block -> Block, decrypt: Block -> Block) {
    ghost predicate Valid() {
      forall b: Block :: decrypt(encrypt(b)) == b
    }
  }

  /** How many blocks are encrypted, then skipped, repeating across a protected range. */
  datatype Pattern = Pattern(crypt: nat, skip: nat) {
    predicate Selects(index: nat) {
      crypt + skip == 0 || index % (crypt + skip) < crypt
    }

    /** The encryptor's own test. */
    predicate Skips(index: nat) {
      crypt + skip != 0 && index % (crypt + skip) >= crypt
    }

    lemma {:induction false} SkipsUnselected(index: nat)
      ensures Skips(index) <==> !Selects(index)
    {
    }
  }

  const VIDEO := Pattern(1, 9)
  const FULL := Pattern(0, 0)

  // ----- Exclusive or -----

  /** Exclusive or, bit by bit, of numbers below `limit`, a power of two. */
  function XorBelow(a: nat, b: nat, limit: nat): (r: nat)
    requires a < limit && b < limit
    ensures r < limit
  {
    if limit == 1 then 0
    else if limit % 2 == 1 then a
    else 2 * XorBelow(a / 2, b / 2, limit / 2) + (a + b) % 2
  }

  lemma {:induction false} XorTwice(a: nat, b: nat, limit: nat)
    requires a < limit && b < limit
    ensures XorBelow(XorBelow(a, b, limit), b, limit) == a
  {
    if limit > 1 && limit % 2 == 0 {
      var x, odd := XorBelow(a / 2, b / 2, limit / 2), (a + b) % 2;
      XorTwice(a / 2, b / 2, limit / 2);
      assert (2 * x + odd) / 2 == x && (2 * x + odd + b) % 2 == a % 2;
    }
  }

  /** Half of a number `j` times over. */
  function Halved(n: nat, j: nat): nat {
    if j == 0 then n else Halved(n / 2, j - 1)
  }

  /** Every bit of the result says whether the bits of the two differ. */
  lemma {:induction false} XorIsBitwise(a: nat, b: nat, limit: nat, width: nat, j: nat)
    requires a < limit && b < limit && limit == Doubled(width) && j < width
    ensures Halved(XorBelow(a, b, limit), j) % 2 == 1 <==> Halved(a, j) % 2 != Halved(b, j) % 2
    decreases width
  {
    var x := XorBelow(a / 2, b / 2, limit / 2);
    assert XorBelow(a, b, limit) == 2 * x + (a + b) % 2;
    if j > 0 {
      XorIsBitwise(a / 2, b / 2, limit / 2, width - 1, j - 1);
      assert (2 * x + (a + b) % 2) / 2 == x;
    }
  }

  function Doubled(width: nat): (r: nat)
    ensures r >= 1 && (width > 0 ==> r % 2 == 0)
  {
    if width == 0 then 1 else 2 * Doubled(width - 1)
  }

  lemma {:induction false} XorOfBytes(a: byte, b: byte, j: nat)
    requires j < 8
    ensures Halved(Xor(a, b), j) % 2 == 1 <==> Halved(a, j) % 2 != Halved(b, j) % 2
  {
    hide Halved, XorBelow;
    assert Doubled(8) == 0x100 by {
      assert Doubled(4) == 0x10;
    }
    XorIsBitwise(a, b, 0x100, 8, j);
  }

  function Xor(a: byte, b: byte): byte {
    XorBelow(a, b, 0x100)
  }

  function XorBytes(a: seq<byte>, b: seq<byte>): (r: seq<byte>)
    requires |a| == |b|
    ensures |r| == |a|
  {
    seq(|a|, i requires 0 <= i < |a| => Xor(a[i], b[i]))
  }

  lemma {:induction false} XorBytesTwice(a: seq<byte>, b: seq<byte>)
    requires |a| == |b|
    ensures XorBytes(XorBytes(a, b), b) == a
  {
    forall i | 0 <= i < |a| ensures XorBytes(XorBytes(a, b), b)[i] == a[i] {
      XorTwice(a[i], b[i], 0x100);
    }
  }

  // ----- CBC with a pattern -----

  /** The bytes of a range after `index` blocks, and the chain a later range would carry on from. */
  datatype Chained = Chained(bytes: seq<byte>, chain: Block)

  /** Section 10.4: the selected whole blocks chained and encrypted, all other bytes clear. */
  function Encrypted(c: BlockCipher, data: seq<byte>, index: nat, chain: Block, p: Pattern): (r: Chained)
    ensures |r.bytes| == |data|
  {
    if |data| < 16 then Chained(data, chain)
    else
      var out := if p.Selects(index) then c.encrypt(XorBytes(data[..16], chain)) else data[..16];
      var rest := Encrypted(c, data[16..], index + 1, if p.Selects(index) then out else chain, p);
      Chained(out + rest.bytes, rest.chain)
  }

  function Decrypted(c: BlockCipher, data: seq<byte>, index: nat, chain: Block, p: Pattern): (r: Chained)
    ensures |r.bytes| == |data|
  {
    if |data| < 16 then Chained(data, chain)
    else
      var out := if p.Selects(index) then XorBytes(c.decrypt(data[..16]), chain) else data[..16];
      var rest := Decrypted(c, data[16..], index + 1, if p.Selects(index) then data[..16] else chain, p);
      Chained(out + rest.bytes, rest.chain)
  }

  /** Decrypting a range undoes encrypting it, and both leave the same chain behind. */
  lemma {:induction false} DecryptInvertsEncrypt(c: BlockCipher, data: seq<byte>, index: nat, chain: Block, p: Pattern)
    requires c.Valid()
    ensures var e := Encrypted(c, data, index, chain, p);
            Decrypted(c, e.bytes, index, chain, p) == Chained(data, e.chain)
    decreases |data|
  {
    if |data| >= 16 {
      var e := Encrypted(c, data, index, chain, p);
      var out: Block := if p.Selects(index) then c.encrypt(XorBytes(data[..16], chain)) else data[..16];
      var next := if p.Selects(index) then out else chain;
      assert e.bytes[..16] == out && e.bytes[16..] == Encrypted(c, data[16..], index + 1, next, p).bytes;
      DecryptInvertsEncrypt(c, data[16..], index + 1, next, p);
      XorBytesTwice(data[..16], chain);
      assert data == data[..16] + data[16..];
    }
  }

  /** Bytes outside the selected whole blocks are never changed. */
  lemma {:induction false} ClearBytesStay(c: BlockCipher, data: seq<byte>, index: nat, chain: Block, p: Pattern, i: nat)
    requires i < |data|
    requires i / 16 >= |data| / 16 || !p.Selects(index + i / 16)
    ensures Encrypted(c, data, index, chain, p).bytes[i] == data[i]
    decreases |data|
  {
    hide XorBytes;
    if |data| >= 16 && i >= 16 {
      var out := if p.Selects(index) then c.encrypt(XorBytes(data[..16], chain)) else data[..16];
      assert (i - 16) / 16 == i / 16 - 1 && (|data| - 16) / 16 == |data| / 16 - 1;
      ClearBytesStay(c, data[16..], index + 1, if p.Selects(index) then out else chain, p, i - 16);
    }
  }

  // ----- Block by block -----

  function BlockOf(data: seq<byte>, i: nat): Block
    requires 16 * i + 16 <= |data|
  {
    data[16 * i..16 * i + 16]
  }

  lemma {:induction false} BlockOfTail(data: seq<byte>, i: nat)
    requires i > 0 && 16 * i + 16 <= |data|
    ensures BlockOf(data[16..], i - 1) == BlockOf(data, i)
  {
    SliceOfTail(data, 16, 16 * (i - 1), 16 * (i - 1) + 16);
  }

  /** A selected block is chained to the selected block before it, `k`, or to what the range began with. */
  lemma {:induction false} SelectedBlock(c: BlockCipher, data: seq<byte>, index: nat, chain: Block, p: Pattern, k: int, i: nat)
    requires 16 * i + 16 <= |data| && p.Selects(index + i) && -1 <= k < i && (k >= 0 ==> p.Selects(index + k))
    requires forall b: nat :: index <= b && index + k < b < index + i ==> !p.Selects(b)
    ensures var out := Encrypted(c, data, index, chain, p).bytes;
            BlockOf(out, i) == c.encrypt(XorBytes(BlockOf(data, i), if k < 0 then chain else BlockOf(out, k)))
    decreases |data|
  {
    hide XorBytes, Pattern.Selects, BlockOf;
    EncryptedStep(c, data, index, chain, p);
    var first: Block := if p.Selects(index) then c.encrypt(XorBytes(data[..16], chain)) else data[..16];
    var next := if p.Selects(index) then first else chain;
    var out := Encrypted(c, data, index, chain, p).bytes;
    var rest := Encrypted(c, data[16..], index + 1, next, p).bytes;
    FirstOf(data);
    FirstOf(out);
    assert out == first + rest && out[..16] == first && out[16..] == rest;
    if i > 0 {
      SelectedBlock(c, data[16..], index + 1, next, p, if k < 0 then -1 else k - 1, i - 1);
      BlockOfTail(data, i);
      BlockOfTail(out, i);
      if k > 0 {
        BlockOfTail(out, k);
      }
    }
  }

  lemma {:induction false} FirstOf(data: seq<byte>)
    requires |data| >= 16
    ensures BlockOf(data, 0) == data[..16]
  {
  }

  /** `cbcs` video, 1:9: every tenth block from the first on is encrypted, chained to the one ten before it. */
  lemma {:induction false} OneInTen(c: BlockCipher, data: seq<byte>, iv: Block, i: nat)
    requires 16 * i + 16 <= |data|
    ensures var out := Encrypted(c, data, 0, iv, VIDEO).bytes;
            BlockOf(out, i) == if i % 10 != 0 then BlockOf(data, i)
                               else c.encrypt(XorBytes(BlockOf(data, i), if i == 0 then iv else BlockOf(out, i - 10)))
  {
    hide Encrypted, XorBytes, BlockOf;
    if i % 10 == 0 {
      forall b: nat | i - 10 < b < i ensures !VIDEO.Selects(b) {
        assert b % 10 == 10 - (i - b);
      }
      SelectedBlock(c, data, 0, iv, VIDEO, if i == 0 then -1 else i - 10, i);
    } else {
      SkippedBlock(c, data, iv, VIDEO, i);
    }
  }

  lemma {:induction false} SkippedBlock(c: BlockCipher, data: seq<byte>, iv: Block, p: Pattern, i: nat)
    requires 16 * i + 16 <= |data| && !p.Selects(i)
    ensures BlockOf(Encrypted(c, data, 0, iv, p).bytes, i) == BlockOf(data, i)
  {
    hide Encrypted, Pattern.Selects;
    var out := Encrypted(c, data, 0, iv, p).bytes;
    forall j | 16 * i <= j < 16 * i + 16 ensures out[j] == data[j] {
      assert j / 16 == i;
      ClearBytesStay(c, data, 0, iv, p, j);
    }
  }

  /** `cbcs` audio: every whole block is encrypted, chained to the one before it. */
  lemma {:induction false} EveryBlock(c: BlockCipher, data: seq<byte>, iv: Block, i: nat)
    requires 16 * i + 16 <= |data|
    ensures var out := Encrypted(c, data, 0, iv, FULL).bytes;
            BlockOf(out, i) == c.encrypt(XorBytes(BlockOf(data, i), if i == 0 then iv else BlockOf(out, i - 1)))
  {
    hide Encrypted, XorBytes, BlockOf;
    SelectedBlock(c, data, 0, iv, FULL, i - 1, i);
  }

  // ----- In place -----

  method WriteBlock(data: array<byte>, at: nat, block: Block)
    requires at + 16 <= data.Length
    modifies data
    ensures data[..] == old(data[..])[..at] + block + old(data[..])[at + 16..]
  {
    forall k | 0 <= k < 16 {
      data[at + k] := block[k];
    }
  }

  lemma {:induction false} EncryptedStep(c: BlockCipher, data: seq<byte>, index: nat, chain: Block, p: Pattern)
    requires |data| >= 16
    ensures var out: Block := if p.Selects(index) then c.encrypt(XorBytes(data[..16], chain)) else data[..16];
            Encrypted(c, data, index, chain, p).bytes
            == out + Encrypted(c, data[16..], index + 1, if p.Selects(index) then out else chain, p).bytes
  {
  }

  lemma {:induction false} EncryptedEnd(c: BlockCipher, data: seq<byte>, index: nat, chain: Block, p: Pattern)
    requires |data| < 16
    ensures Encrypted(c, data, index, chain, p).bytes == data
  {
  }

  /** `pre` with everything from `lo` on replaced by `done`, as far as `done` reaches. */
  function Spliced(pre: seq<byte>, lo: nat, done: seq<byte>): seq<byte>
    requires lo + |done| <= |pre|
  {
    pre[..lo] + done + pre[lo + |done|..]
  }

  lemma {:induction false} SpliceBlock(pre: seq<byte>, lo: nat, done: seq<byte>, block: Block)
    requires lo + |done| + 16 <= |pre|
    ensures var at, now := lo + |done|, Spliced(pre, lo, done);
            && now[at..at + 16] == pre[at..at + 16]
            && now[..at] + block + now[at + 16..] == Spliced(pre, lo, done + block)
            && now == Spliced(pre, lo, done + pre[at..at + 16])
  {
  }

  lemma {:induction false} FirstBlock(pre: seq<byte>, at: nat, hi: nat)
    requires at + 16 <= hi <= |pre|
    ensures pre[at..hi][..16] == pre[at..at + 16] && pre[at..hi][16..] == pre[at + 16..hi]
  {
  }

  /** `encrypt_range`: one protected range encrypted in place, starting the chain from `iv`. */
  method EncryptRange(c: BlockCipher, iv: Block, data: array<byte>, lo: nat, hi: nat, p: Pattern)
    requires lo <= hi <= data.Length
    modifies data
    ensures data[..] == Spliced(old(data[..]), lo, Encrypted(c, old(data[lo..hi]), 0, iv, p).bytes)
  {
    hide XorBytes, Spliced, Encrypted, Pattern.Selects, Pattern.Skips;
    var chain := iv;
    var index, at := 0, lo;
    ghost var pre := data[..];
    ghost var done: seq<byte> := [];
    SpliceNothing(pre, lo);
    while at + 16 <= hi
      invariant at <= hi && at == lo + |done|
      invariant data[..] == Spliced(pre, lo, done)
      invariant done + Encrypted(c, pre[at..hi], index, chain, p).bytes == Encrypted(c, pre[lo..hi], 0, iv, p).bytes
    {
      EncryptedStep(c, pre[at..hi], index, chain, p);
      FirstBlock(pre, at, hi);
      SpliceBlock(pre, lo, done, pre[at..at + 16]);
      assert data[at..at + 16] == data[..][at..at + 16];
      p.SkipsUnselected(index);
      if p.Skips(index) {
        done := done + pre[at..at + 16];
      } else {
        var block: Block := c.encrypt(XorBytes(data[at..at + 16], chain));
        SpliceBlock(pre, lo, done, block);
        WriteBlock(data, at, block);
        chain := block;
        done := done + block;
      }
      index, at := index + 1, at + 16;
    }
    EncryptedEnd(c, pre[at..hi], index, chain, p);
    SpliceRest(pre, lo, done, hi);
  }

  lemma {:induction false} SpliceNothing(pre: seq<byte>, lo: nat)
    requires lo <= |pre|
    ensures Spliced(pre, lo, []) == pre
  {
  }

  lemma {:induction false} SpliceRest(pre: seq<byte>, lo: nat, done: seq<byte>, hi: nat)
    requires lo + |done| <= hi <= |pre|
    ensures Spliced(pre, lo, done) == Spliced(pre, lo, done + pre[lo + |done|..hi])
  {
  }

  lemma {:induction false} SpliceAgain(pre: seq<byte>, lo: nat, done: seq<byte>, more: seq<byte>)
    requires lo + |done| + |more| <= |pre|
    ensures var at, now := lo + |done|, Spliced(pre, lo, done);
            && now[at..] == pre[at..]
            && Spliced(now, at, more) == Spliced(pre, lo, done + more)
  {
  }
}
