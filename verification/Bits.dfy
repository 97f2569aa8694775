/**
 The RBSP of a NAL unit (src/cenc/bits.rs): emulation-prevention bytes removed with a map back to
 NAL bytes, and a bit reader with the exp-Golomb codes of ITU-T H.264 section 9.1.

 Every read has a specification on a `tape` of bits. A reader holds the first bytes of some longer
 tape, and each of its methods agrees with the specification exactly as far as its bytes reach, so
 two readers over a shorter and a longer prefix of one tape can be compared directly.
 */
module Bits {
  import opened Common

  // ----- Emulation prevention -----

  /** What unescaping has produced so far, and the zero bytes seen since the last other byte. */
  datatype Scan = Scan(bytes: seq<byte>, origin: seq<nat>, zeros: nat)

  function ScanByte(s: Scan, index: nat, b: byte): Scan {
    if s.zeros >= 2 && b == 3 then s.(zeros := 0)
    else Scan(s.bytes + [b], s.origin + [index], if b == 0 then Min(s.zeros + 1, 255) else 0)
  }

  function Unescaped(nal: seq<byte>): (s: Scan)
    ensures |s.bytes| == |s.origin| <= |nal|
  {
    if nal == [] then Scan([], [], 0)
    else ScanByte(Unescaped(nal[..|nal| - 1]), |nal| - 1, nal[|nal| - 1])
  }

  lemma {:induction false} UnescapedPush(nal: seq<byte>, b: byte)
    ensures Unescaped(nal + [b]) == ScanByte(Unescaped(nal), |nal|, b)
  {
    assert (nal + [b])[..|nal|] == nal;
  }

  /** Unescaping a prefix gives a prefix. */
  lemma {:induction false} UnescapedPrefix(nal: seq<byte>, k: nat)
    requires k <= |nal|
    ensures Unescaped(nal[..k]).bytes <= Unescaped(nal).bytes
    ensures Unescaped(nal[..k]).origin <= Unescaped(nal).origin
  {
    if k < |nal| {
      var init := nal[..|nal| - 1];
      UnescapedPrefix(init, k);
      assert init[..k] == nal[..k];
    } else {
      assert nal[..k] == nal;
    }
  }

  /** Unescaping removes at most one byte in three. */
  lemma {:induction false} UnescapedKeeps(nal: seq<byte>)
    ensures 3 * |Unescaped(nal).bytes| >= 2 * |nal| + Min(Unescaped(nal).zeros, 2)
  {
    if nal != [] {
      UnescapedKeeps(nal[..|nal| - 1]);
    }
  }

  ghost predicate MapsBack(s: Scan, nal: seq<byte>) {
    && |s.origin| == |s.bytes|
    && (forall i :: 0 <= i < |s.origin| ==> s.origin[i] < |nal| && nal[s.origin[i]] == s.bytes[i])
    && (forall i, j :: 0 <= i < j < |s.origin| ==> s.origin[i] < s.origin[j])
  }

  /** The origins increase strictly, stay inside the NAL unit, and name equal bytes. */
  lemma {:induction false} OriginMapsBack(nal: seq<byte>)
    ensures MapsBack(Unescaped(nal), nal)
  {
    if nal != [] {
      var init := nal[..|nal| - 1];
      OriginMapsBack(init);
    }
  }

  /** Escaping as section 7.3.1 of ITU-T H.264 asks: a 3 before any byte up to 3 after two zeros. */
  datatype Escape = Escape(bytes: seq<byte>, zeros: nat)

  function EscapeByte(e: Escape, b: byte): Escape {
    var guarded := e.zeros >= 2 && b <= 3;
    var zeros := if guarded then 0 else e.zeros;
    Escape(e.bytes + (if guarded then [3] else []) + [b], if b == 0 then zeros + 1 else 0)
  }

  function Escaped(rbsp: seq<byte>): (e: Escape) {
    if rbsp == [] then Escape([], 0)
    else EscapeByte(Escaped(rbsp[..|rbsp| - 1]), rbsp[|rbsp| - 1])
  }

  /** Unescaping undoes escaping. */
  lemma {:induction false} UnescapeInvertsEscape(rbsp: seq<byte>)
    ensures Unescaped(Escaped(rbsp).bytes).bytes == rbsp
    ensures Escaped(rbsp).zeros <= 2
    ensures Unescaped(Escaped(rbsp).bytes).zeros == Escaped(rbsp).zeros
  {
    if rbsp != [] {
      var init, b := rbsp[..|rbsp| - 1], rbsp[|rbsp| - 1];
      UnescapeInvertsEscape(init);
      var e := Escaped(init);
      assert rbsp == init + [b];
      EscapeStep(e, b, init);
    }
  }

  lemma {:induction false} EscapeStep(e: Escape, b: byte, rbsp: seq<byte>)
    requires Unescaped(e.bytes).bytes == rbsp && Unescaped(e.bytes).zeros == e.zeros <= 2
    ensures var next := EscapeByte(e, b);
            && Unescaped(next.bytes).bytes == rbsp + [b]
            && Unescaped(next.bytes).zeros == next.zeros <= 2
  {
    if e.zeros >= 2 && b <= 3 {
      UnescapedPush(e.bytes, 3);
      UnescapedPush(e.bytes + [3], b);
      assert EscapeByte(e, b).bytes == (e.bytes + [3]) + [b];
    } else {
      UnescapedPush(e.bytes, b);
      assert EscapeByte(e, b).bytes == e.bytes + [b];
    }
  }

  function Covering(origin: seq<nat>, bits: nat): Option<nat> {
    if bits == 0 then Some(0)
    else if (bits - 1) / 8 < |origin| then Some(origin[(bits - 1) / 8] + 1)
    else None
  }

  /** `Rbsp`: at most `limit` NAL bytes, unescaped. */
  class Rbsp {
    const bytes: seq<byte>
    const origin: seq<nat>

    constructor (nal: seq<byte>, limit: nat)
      ensures bytes == Unescaped(nal[..Min(|nal|, limit)]).bytes
      ensures origin == Unescaped(nal[..Min(|nal|, limit)]).origin
    {
      var size := Min(|nal|, limit);
      var out: seq<byte>, from: seq<nat>, zeros: nat := [], [], 0;
      for index := 0 to size
        invariant Unescaped(nal[..index]) == Scan(out, from, zeros)
      {
        assert nal[..index + 1] == nal[..index] + [nal[index]];
        UnescapedPush(nal[..index], nal[index]);
        if zeros >= 2 && nal[index] == 3 {
          zeros := 0;
          continue;
        }
        zeros := if nal[index] == 0 then Min(zeros + 1, 255) else 0;
        out := out + [nal[index]];
        from := from + [index];
      }
      bytes := out;
      origin := from;
    }

    function NalBytesCovering(bits: nat): Option<nat> {
      Covering(origin, bits)
    }
  }

  /** The covering count is the shortest NAL prefix that unescapes to all the bytes asked for. */
  lemma {:induction false} CoveringIsShortest(nal: seq<byte>, bits: nat)
    ensures var n := (bits + 7) / 8; var c := Covering(Unescaped(nal).origin, bits);
            && (c.None? <==> |Unescaped(nal).bytes| < n)
            && (c.Some? ==> c.value <= |nal| && |Unescaped(nal[..c.value]).bytes| == n)
            && (c.Some? ==> forall k: nat :: k < c.value ==> |Unescaped(nal[..k]).bytes| < n)
  {
    hide Unescaped;
    var n := (bits + 7) / 8;
    var c := Covering(Unescaped(nal).origin, bits);
    if bits > 0 && c.Some? {
      assert (bits - 1) / 8 == n - 1;
      OriginMapsBack(nal);
      PrefixCount(nal, c.value, n);
      forall k: nat | k < c.value ensures |Unescaped(nal[..k]).bytes| < n {
        PrefixCount(nal, k, n);
      }
    } else if bits == 0 {
      assert |Unescaped(nal[..0]).bytes| <= |nal[..0]|;
    }
  }

  /** A prefix of `k` bytes yields exactly the RBSP bytes whose origin is below `k`. */
  lemma {:induction false} PrefixCount(nal: seq<byte>, k: nat, n: nat)
    requires k <= |nal| && 0 < n <= |Unescaped(nal).bytes|
    ensures n <= |Unescaped(nal[..k]).bytes| <==> Unescaped(nal).origin[n - 1] < k
    ensures Unescaped(nal).origin[n - 1] + 1 == k ==> |Unescaped(nal[..k]).bytes| == n
  {
    var all, some := Unescaped(nal).origin, Unescaped(nal[..k]).origin;
    UnescapedPrefix(nal, k);
    OriginMapsBack(nal);
    OriginMapsBack(nal[..k]);
    LaterOrigins(nal, k);
    if n < |some| {
      assert all[n - 1] < all[n] && all[n] == some[n] < k;
    }
    if n <= |some| {
      assert all[n - 1] == some[n - 1];
    }
  }

  lemma {:induction false} LaterOrigins(nal: seq<byte>, k: nat)
    requires k <= |nal|
    ensures forall i :: |Unescaped(nal[..k]).bytes| <= i < |Unescaped(nal).origin| ==> Unescaped(nal).origin[i] >= k
  {
    if k < |nal| {
      LaterOrigins(nal[..|nal| - 1], k);
      assert nal[..|nal| - 1][..k] == nal[..k];
    } else {
      assert nal[..k] == nal;
    }
  }

  // ----- Bits -----

  function Pow2(n: nat): (r: nat)
    ensures r >= 1
  {
    if n == 0 then 1 else 2 * Pow2(n - 1)
  }

  function BitAt(bytes: seq<byte>, i: nat): bool
    requires i < 8 * |bytes|
  {
    (bytes[i / 8] / Pow2(7 - i % 8)) % 2 == 1
  }

  function BitsOf(bytes: seq<byte>): (bits: seq<bool>)
    ensures |bits| == 8 * |bytes|
  {
    seq(8 * |bytes|, i requires 0 <= i < 8 * |bytes| => BitAt(bytes, i))
  }

  lemma {:induction false} BitsOfPrefix(a: seq<byte>, b: seq<byte>)
    requires a <= b
    ensures BitsOf(a) <= BitsOf(b)
  {
    forall i | 0 <= i < 8 * |a| ensures BitsOf(a)[i] == BitsOf(b)[i] {
      assert a[i / 8] == b[i / 8];
    }
  }

  /** The number `bits` spell, most significant first. */
  function Value(bits: seq<bool>): nat {
    if bits == [] then 0
    else 2 * Value(bits[..|bits| - 1]) + (if bits[|bits| - 1] then 1 else 0)
  }

  function Binary(value: nat, width: nat): (bits: seq<bool>)
    ensures |bits| == width
  {
    if width == 0 then [] else Binary(value / 2, width - 1) + [value % 2 == 1]
  }

  lemma {:induction false} ValueOfBinary(value: nat, width: nat)
    requires value < Pow2(width)
    ensures Value(Binary(value, width)) == value
  {
    if width > 0 {
      ValueOfBinary(value / 2, width - 1);
      assert Binary(value, width)[..width - 1] == Binary(value / 2, width - 1);
    }
  }

  lemma {:induction false} BinaryOfValue(bits: seq<bool>)
    ensures Value(bits) < Pow2(|bits|)
    ensures Binary(Value(bits), |bits|) == bits
  {
    if bits != [] {
      BinaryOfValue(bits[..|bits| - 1]);
      assert bits == bits[..|bits| - 1] + [bits[|bits| - 1]];
    }
  }

  /** Whole bytes holding `bits`. */
  function Packed(bits: seq<bool>): (r: seq<byte>)
    requires |bits| % 8 == 0
    ensures |r| == |bits| / 8
  {
    seq(|bits| / 8, i requires 0 <= i < |bits| / 8 => PackedByte(bits[8 * i..8 * i + 8]))
  }

  function PackedByte(bits: seq<bool>): byte
    requires |bits| == 8
  {
    BinaryOfValue(bits);
    assert Pow2(4) == 0x10 && Pow2(8) == 0x100;
    Value(bits)
  }

  lemma {:induction false} MoreOf(x: nat, y: nat, d: nat)
    requires x < y
    ensures x * d + d <= y * d
  {
    assert (x + 1) * d <= y * d;
  }

  lemma {:induction false} DivisionIs(n: nat, d: nat, q: nat)
    requires d > 0 && q * d <= n < q * d + d
    ensures n / d == q
  {
    var r := n / d;
    assert r * d <= n < r * d + d;
    if r < q {
      MoreOf(r, q, d);
    } else if q < r {
      MoreOf(q, r, d);
    }
  }

  lemma {:induction false} HalveBoth(a: nat, b: nat, c: nat)
    requires b < 2 && c > 0
    ensures (2 * a + b) / (2 * c) == a / c
  {
    var q := a / c;
    assert q * c <= a < q * c + c;
    assert q * (2 * c) == 2 * (q * c);
    DivisionIs(2 * a + b, 2 * c, q);
  }

  lemma {:induction false} ValueBit(bits: seq<bool>, j: nat)
    requires j < |bits|
    ensures Value(bits) / Pow2(|bits| - 1 - j) % 2 == (if bits[j] then 1 else 0)
  {
    var n := |bits| - 1;
    if j < n {
      ValueBit(bits[..n], j);
      HalveBoth(Value(bits[..n]), if bits[n] then 1 else 0, Pow2(n - 1 - j));
    }
  }

  lemma {:induction false} PackedHolds(bits: seq<bool>)
    requires |bits| % 8 == 0
    ensures BitsOf(Packed(bits)) == bits
  {
    hide Value, Pow2;
    forall k | 0 <= k < |bits| ensures BitAt(Packed(bits), k) == bits[k] {
      var i, j := k / 8, k % 8;
      ValueBit(bits[8 * i..8 * i + 8], j);
    }
  }

  lemma {:induction false} ValueOfNone(t: seq<bool>, p: nat)
    requires p <= |t|
    ensures Value(t[p..p]) == 0
  {
  }

  lemma {:induction false} ValueOfLonger(t: seq<bool>, p: nat, n: nat)
    requires p + n < |t|
    ensures Value(t[p..p + n + 1]) == 2 * Value(t[p..p + n]) + (if t[p + n] then 1 else 0)
  {
    assert t[p..p + n + 1][..n] == t[p..p + n];
  }

  /** What reading from a tape gives: a value and the position after it, or nothing. */
  datatype Read<+T> = Got(value: T, at: nat) | Bad {
    predicate IsFailure() {
      Bad?
    }

    function PropagateFailure<U>(): Read<U>
      requires Bad?
    {
      Bad
    }

    function Extract(): (T, nat)
      requires Got?
    {
      (value, at)
    }
  }

  /** Whether `code` is on the tape at `p`. */
  ghost predicate On(t: seq<bool>, p: nat, code: seq<bool>) {
    p + |code| <= |t| && t[p..p + |code|] == code
  }

  lemma {:induction false} OnSplit(t: seq<bool>, p: nat, a: seq<bool>, b: seq<bool>)
    ensures On(t, p, a + b) <==> On(t, p, a) && On(t, p + |a|, b)
    ensures On(t, p, a) ==> p + |a| <= |t|
    ensures |a + b| == |a| + |b|
  {
    var whole := a + b;
    if On(t, p, whole) {
      assert t[p..p + |a|] == t[p..p + |whole|][..|a|] == whole[..|a|] == a;
      assert t[p + |a|..p + |whole|] == t[p..p + |whole|][|a|..] == whole[|a|..] == b;
    }
    if On(t, p, a) && On(t, p + |a|, b) {
      assert t[p..p + |whole|] == t[p..p + |a|] + t[p + |a|..p + |a| + |b|];
    }
  }

  lemma {:induction false} OnPrefix(a: seq<bool>, b: seq<bool>, code: seq<bool>)
    requires a <= b
    ensures On(a, 0, code) <==> On(b, 0, code) && |code| <= |a|
  {
    if |code| <= |a| {
      assert a[0..0 + |code|] == b[0..0 + |code|];
    }
  }

  /** What an exact parser of one code does: it reads `v` precisely where the code of `v` lies. */
  ghost predicate Reads<T>(r: Read<T>, t: seq<bool>, p: nat, v: T, writable: bool, code: seq<bool>) {
    && ((r.Got? && r.value == v) <==> (writable && On(t, p, code)))
    && (r.Got? && r.value == v ==> r.at == p + |code|)
  }

  function BitReadAt(t: seq<bool>, p: nat): (r: Read<bool>)
    ensures r.Got? ==> p <= r.at <= |t|
  {
    if p < |t| then Got(t[p], p + 1) else Bad
  }

  function SkipAt(t: seq<bool>, p: nat, count: nat): (r: Read<seq<bool>>)
    ensures r.Got? ==> p <= r.at <= |t| && |r.value| == count
  {
    if p + count <= |t| then Got(t[p..p + count], p + count) else Bad
  }

  function BitsAt(t: seq<bool>, p: nat, count: nat): (r: Read<nat>)
    ensures r.Got? ==> p <= r.at <= |t|
  {
    if count <= 32 && p + count <= |t| then Got(Value(t[p..p + count]), p + count) else Bad
  }

  function LeadingZeros(t: seq<bool>, p: nat): nat
    decreases |t| - p
  {
    if p < |t| && !t[p] then 1 + LeadingZeros(t, p + 1) else 0
  }

  function UeAt(t: seq<bool>, p: nat): (r: Read<nat>)
    ensures r.Got? ==> p < r.at <= |t|
  {
    var zeros := LeadingZeros(t, p);
    if zeros > 31 || p + zeros >= |t| then Bad
    else
      var (suffix, at) :- BitsAt(t, p + zeros + 1, zeros);
      Got(Pow2(zeros) - 1 + suffix, at)
  }

  function SeAt(t: seq<bool>, p: nat): (r: Read<int>)
    ensures r.Got? ==> p < r.at <= |t|
  {
    var (code, at) :- UeAt(t, p);
    Got(if code % 2 == 1 then (code + 1) / 2 else -((code + 1) / 2), at)
  }

  // ----- The codes, and that reading inverts writing -----

  const UE_MAX := 0xFFFF_FFFE
  const SE_MAX := 0x7FFF_FFFF

  function Log2(n: nat): (r: nat)
    requires n >= 1
    ensures Pow2(r) <= n < Pow2(r + 1)
  {
    if n == 1 then 0 else Log2(n / 2) + 1
  }

  function Zeros(n: nat): seq<bool> {
    seq(n, i => false)
  }

  /** Section 9.1: as many zeros as `v + 1` has bits after its first, then `v + 1`. */
  function UeCode(v: nat): seq<bool> {
    var n := Log2(v + 1);
    Zeros(n) + ([true] + Binary(v + 1 - Pow2(n), n))
  }

  /** Section 9.1.1. */
  function SeCode(v: int): seq<bool> {
    UeCode(if v > 0 then 2 * v - 1 else -2 * v)
  }

  lemma {:induction false} LeadingZerosIs(t: seq<bool>, p: nat, n: nat)
    requires p + n <= |t| && forall i :: p <= i < p + n ==> !t[i]
    ensures LeadingZeros(t, p) == n + LeadingZeros(t, p + n)
    decreases n
  {
    if n > 0 {
      LeadingZerosIs(t, p + 1, n - 1);
    }
  }

  lemma {:induction false} LeadingZerosAre(t: seq<bool>, p: nat)
    ensures var n := LeadingZeros(t, p);
            && (p <= |t| ==> p + n <= |t|)
            && (forall i :: p <= i < p + n ==> i < |t| && !t[i])
            && (p + n < |t| ==> t[p + n])
    decreases |t| - p
  {
    if p < |t| && !t[p] {
      LeadingZerosAre(t, p + 1);
    }
  }

  lemma {:induction false} Pow2Monotone(a: nat, b: nat)
    requires a <= b
    ensures Pow2(a) <= Pow2(b)
  {
    if a < b {
      Pow2Monotone(a, b - 1);
    }
  }

  lemma {:induction false} Pow2Values()
    ensures Pow2(16) == 0x1_0000 && Pow2(31) == 0x8000_0000 && Pow2(32) == 0x1_0000_0000
  {
    assert Pow2(8) == 0x100;
    Pow2Sum(8, 8);
    Pow2Sum(16, 16);
    assert Pow2(32) == 2 * Pow2(31);
  }

  lemma {:induction false} Pow2Double(n: nat)
    ensures Pow2(n + 1) == 2 * Pow2(n)
  {
  }

  lemma {:induction false} Pow2Sum(a: nat, b: nat)
    ensures Pow2(a + b) == Pow2(a) * Pow2(b)
  {
    if b > 0 {
      Pow2Sum(a, b - 1);
      assert Pow2(a + b) == 2 * Pow2(a + b - 1);
    }
  }

  lemma {:induction false} Log2Of(n: nat, r: nat)
    requires Pow2(r) <= n < Pow2(r + 1)
    ensures Log2(n) == r
  {
    if Log2(n) < r {
      Pow2Monotone(Log2(n) + 1, r);
    } else if Log2(n) > r {
      Pow2Monotone(r + 1, Log2(n));
    }
  }

  /** `ue` reads `v` exactly where its code is; every value to 2^32 - 2 has one. */
  lemma {:induction false} UeExact(t: seq<bool>, p: nat, v: nat)
    ensures Reads(UeAt(t, p), t, p, v, v <= UE_MAX, UeCode(v))
  {
    if v <= UE_MAX && On(t, p, UeCode(v)) {
      UeReads(t, p, v);
    }
    if UeAt(t, p).Got? && UeAt(t, p).value == v {
      UeWrites(t, p, v);
    }
  }

  lemma {:induction false} UeReads(t: seq<bool>, p: nat, v: nat)
    requires v <= UE_MAX && On(t, p, UeCode(v))
    ensures UeAt(t, p) == Got(v, p + |UeCode(v)|)
  {
    hide Pow2, Value, Binary, LeadingZeros;
    var n := Log2(v + 1);
    var suffix := Binary(v + 1 - Pow2(n), n);
    OnSplit(t, p, Zeros(n), [true] + suffix);
    OnSplit(t, p + n, [true], suffix);
    UePrefix(t, p, n);
    Log2Small(v + 1);
    Pow2Double(n);
    ValueOfBinary(v + 1 - Pow2(n), n);
  }

  lemma {:induction false} UePrefix(t: seq<bool>, p: nat, n: nat)
    requires On(t, p, Zeros(n)) && On(t, p + n, [true])
    ensures LeadingZeros(t, p) == n
  {
    forall i | p <= i < p + n ensures !t[i] {
      assert t[p..p + n][i - p] == Zeros(n)[i - p];
    }
    LeadingZerosIs(t, p, n);
    assert t[p + n..p + n + 1][0];
  }

  lemma {:induction false} Log2Small(n: nat)
    requires 1 <= n < 0x1_0000_0000
    ensures Log2(n) <= 31
  {
    hide Pow2;
    if Log2(n) > 31 {
      Pow2Monotone(32, Log2(n));
      Pow2Values();
    }
  }

  /** Zeros, a one, and as many bits as there were zeros are a code. */
  lemma {:induction false} CodePlaced(t: seq<bool>, p: nat, z: nat)
    requires p + z + 1 + z <= |t| && (forall i :: p <= i < p + z ==> !t[i]) && t[p + z]
    ensures var bits := t[p + z + 1..p + z + 1 + z]; On(t, p, Zeros(z) + ([true] + bits))
  {
    var bits := t[p + z + 1..p + z + 1 + z];
    assert t[p..p + z] == Zeros(z);
    assert t[p + z..p + z + 1] == [true];
    OnSplit(t, p, Zeros(z), [true] + bits);
    OnSplit(t, p + z, [true], bits);
  }

  lemma {:induction false} UeWrites(t: seq<bool>, p: nat, v: nat)
    requires UeAt(t, p).Got? && UeAt(t, p).value == v
    ensures v <= UE_MAX && On(t, p, UeCode(v)) && UeAt(t, p).at == p + |UeCode(v)|
  {
    hide Pow2, Value, Binary, LeadingZeros, On;
    var z := LeadingZeros(t, p);
    LeadingZerosAre(t, p);
    CodePlaced(t, p, z);
    BinaryOfValue(t[p + z + 1..p + z + 1 + z]);
    Pow2Double(z);
    Log2Of(v + 1, z);
    Pow2Monotone(z, 31);
    Pow2Values();
  }

  /** `se` reads `v` exactly where its code is. */
  lemma {:induction false} SeExact(t: seq<bool>, p: nat, v: int)
    ensures Reads(SeAt(t, p), t, p, v, -SE_MAX <= v <= SE_MAX, SeCode(v))
  {
    hide UeAt, UeCode, On;
    UeExact(t, p, if v > 0 then 2 * v - 1 else -2 * v);
  }

  lemma {:induction false} SkipExact(t: seq<bool>, p: nat, count: nat, v: seq<bool>)
    ensures Reads(SkipAt(t, p, count), t, p, v, |v| == count, v)
  {
  }

  lemma {:induction false} BitExact(t: seq<bool>, p: nat, v: bool)
    ensures Reads(BitReadAt(t, p), t, p, v, true, [v])
  {
    if p < |t| {
      assert t[p..p + 1] == [t[p]];
    }
  }

  lemma {:induction false} BitsExact(t: seq<bool>, p: nat, count: nat, v: nat)
    requires count <= 32
    ensures Reads(BitsAt(t, p, count), t, p, v, v < Pow2(count), Binary(v, count))
  {
    if p + count <= |t| {
      BinaryOfValue(t[p..p + count]);
      if v < Pow2(count) {
        ValueOfBinary(v, count);
      }
    }
  }

  // ----- The reader -----

  /** A reader over `data`, the first bytes of the ghost `tape`. */
  class BitReader {
    const data: seq<byte>
    ghost const tape: seq<bool>
    var bit: nat

    ghost predicate Valid()
      reads this
    {
      BitsOf(data) <= tape && bit <= 8 * |data|
    }

    /** Agreement with the specification: the same value and position while the bytes reach. */
    ghost predicate Follows<T>(r: Result<T>, spec: Read<T>)
      reads this
    {
      if spec.Got? && spec.at <= 8 * |data| then r == Ok(spec.value) && bit == spec.at else r.Err?
    }

    /** As `Follows`, for reads whose value is not kept whole. */
    ghost predicate Passes<T, U>(r: Result<U>, spec: Read<T>)
      reads this
    {
      if spec.Got? && spec.at <= 8 * |data| then r.Ok? && bit == spec.at else r.Err?
    }

    constructor (data: seq<byte>, ghost tape: seq<bool>)
      requires BitsOf(data) <= tape
      ensures Valid() && bit == 0 && this.data == data && this.tape == tape
    {
      this.data := data;
      this.tape := tape;
      bit := 0;
    }

    method Bit() returns (r: Result<bool>)
      requires Valid()
      modifies this
      ensures Valid() && Follows(r, BitReadAt(tape, old(bit)))
    {
      if bit / 8 >= |data| {
        return Err;
      }
      var value := (data[bit / 8] / Pow2(7 - bit % 8)) % 2;
      assert BitsOf(data)[bit] == tape[bit];
      bit := bit + 1;
      return Ok(value == 1);
    }

    method Bits(count: nat) returns (r: Result<nat>)
      requires Valid()
      modifies this
      ensures Valid() && Follows(r, BitsAt(tape, old(bit), count))
    {
      hide BitsOf, Value;
      if count > 32 {
        return Err;
      }
      var value := 0;
      ValueOfNone(tape, bit);
      for i := 0 to count
        invariant Valid() && bit == old(bit) + i <= |tape|
        invariant value == Value(tape[old(bit)..bit])
      {
        var b :- Bit();
        value := 2 * value + (if b then 1 else 0);
        ValueOfLonger(tape, old(bit), i);
      }
      return Ok(value);
    }

    method Skip(count: nat) returns (r: Result<()>)
      requires Valid()
      modifies this
      ensures Valid() && Passes(r, SkipAt(tape, old(bit), count))
    {
      if bit + count > |data| * 8 {
        return Err;
      }
      bit := bit + count;
      return Ok(());
    }

    method Ue() returns (r: Result<nat>)
      requires Valid()
      modifies this
      ensures Valid() && Follows(r, UeAt(tape, old(bit)))
    {
      hide Pow2, Value, BitsOf;
      ghost var p := bit;
      var zeros := 0;
      var b :- Bit();
      while !b
        invariant Valid() && bit == p + zeros + 1 && zeros <= 31
        invariant LeadingZeros(tape, p) == zeros + LeadingZeros(tape, p + zeros)
        invariant b == tape[p + zeros]
        decreases 32 - zeros
      {
        zeros := zeros + 1;
        if zeros > 31 {
          return Err;
        }
        b :- Bit();
      }
      var suffix :- Bits(zeros);
      return Ok(Pow2(zeros) - 1 + suffix);
    }

    method Se() returns (r: Result<int>)
      requires Valid()
      modifies this
      ensures Valid() && Follows(r, SeAt(tape, old(bit)))
    {
      hide UeAt, BitsOf;
      var code :- Ue();
      var magnitude: int := (code + 1) / 2;
      return Ok(if code % 2 == 1 then magnitude else -magnitude);
    }
  }
}
