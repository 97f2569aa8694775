/** Small shared vocabulary: bytes, results, and concatenation of byte strings. */
module Common {
  type byte = x: int | 0 <= x < 0x100
  type u32 = x: int | 0 <= x < 0x1_0000_0000
  const U32_MAX := 0xFFFF_FFFF
  const U64_MAX := 0xFFFF_FFFF_FFFF_FFFF

  datatype Option<+T> = None | Some(value: T)

  /** The outcome of an operation; the source's error kinds and messages are not kept. */
  datatype Result<+T> = Ok(value: T) | Err {
    predicate IsFailure() {
      Err?
    }

    function PropagateFailure<U>(): Result<U>
      requires Err?
    {
      Err
    }

    function Extract(): T
      requires Ok?
    {
      value
    }
  }

  function Min(a: int, b: int): int {
    if a <= b then a else b
  }

  function Max(a: int, b: int): int {
    if a >= b then a else b
  }

  /** All of `parts`, one after the other. */
  function Concat<T>(parts: seq<seq<T>>): seq<T> {
    if parts == [] then [] else Concat(parts[..|parts| - 1]) + parts[|parts| - 1]
  }

  lemma {:induction false} ConcatPush<T>(parts: seq<seq<T>>, last: seq<T>)
    ensures Concat(parts + [last]) == Concat(parts) + last
  {
    assert (parts + [last])[..|parts|] == parts;
  }

  lemma {:induction false} ConcatNone<T>()
    ensures Concat<T>([]) == []
  {
  }

  lemma {:induction false} ConcatAppend<T>(a: seq<seq<T>>, b: seq<seq<T>>)
    ensures Concat(a + b) == Concat(a) + Concat(b)
  {
    hide Concat;
    if b == [] {
      ConcatNone<T>();
      assert a + b == a;
    } else {
      var init, last := b[..|b| - 1], b[|b| - 1];
      ConcatAppend(a, init);
      assert b == init + [last] && a + b == (a + init) + [last];
      ConcatPush(init, last);
      ConcatPush(a + init, last);
    }
  }

  lemma {:induction false} SliceOfSlice<T>(s: seq<T>, a: nat, b: nat, c: nat, d: nat)
    requires a <= b <= |s| && c <= d <= b - a
    ensures s[a..b][c..d] == s[a + c..a + d]
  {
    forall i | 0 <= i < d - c ensures s[a..b][c..d][i] == s[a + c..a + d][i] {
      assert s[a..b][c + i] == s[a + c + i];
    }
  }

  lemma {:induction false} SliceOfTail<T>(s: seq<T>, a: nat, c: nat, d: nat)
    requires a <= |s| && c <= d <= |s| - a
    ensures s[a..][c..d] == s[a + c..a + d] && s[a..][d..] == s[a + d..]
    ensures c == 0 ==> s[a..][..d] == s[a..a + d]
  {
    forall i | 0 <= i < d - c ensures s[a..][c..d][i] == s[a + c..a + d][i] {
      assert s[a..][c + i] == s[a + c + i];
    }
  }

  lemma {:induction false} Regroup<T>(a: seq<T>, b: seq<T>, c: seq<T>, d: seq<T>)
    ensures [] + a + b + c + d == a + (b + (c + d))
  {
  }

  // ----- Big-endian numbers -----

  function FromBytes(bytes: seq<byte>): nat {
    if bytes == [] then 0 else 0x100 * FromBytes(bytes[..|bytes| - 1]) + bytes[|bytes| - 1]
  }

  function ToBytes(n: nat, width: nat): (r: seq<byte>)
    ensures |r| == width
  {
    if width == 0 then [] else ToBytes(n / 0x100, width - 1) + [n % 0x100]
  }

  /** How many numbers `width` bytes can tell apart. */
  function Limit(width: nat): nat {
    if width == 0 then 1 else 0x100 * Limit(width - 1)
  }

  lemma {:induction false} Limits()
    ensures Limit(1) == 0x100 && Limit(2) == 0x1_0000 && Limit(3) == 0x100_0000 && Limit(4) == 0x1_0000_0000
    ensures Limit(8) == U64_MAX + 1
  {
    assert Limit(4) == 0x1_0000_0000;
    assert Limit(5) == 0x100_0000_0000 && Limit(6) == 0x100 * Limit(5) && Limit(7) == 0x100 * Limit(6);
  }

  lemma {:induction false} FromBytesBound(bytes: seq<byte>)
    ensures FromBytes(bytes) < Limit(|bytes|)
  {
    if bytes != [] {
      FromBytesBound(bytes[..|bytes| - 1]);
    }
  }

  lemma {:induction false} BytesRoundTrip(n: nat, width: nat)
    requires n < Limit(width)
    ensures FromBytes(ToBytes(n, width)) == n
  {
    if width > 0 {
      BytesRoundTrip(n / 0x100, width - 1);
      assert ToBytes(n, width)[..width - 1] == ToBytes(n / 0x100, width - 1);
    }
  }
}
