/**
 Pieces of slice header syntax that H.264 and H.265 share: optional elements, runs of elements and
 flagged runs. Each has a parser on a tape, the code it is written as, and an exactness lemma: the
 parser reads a value precisely where that value's code lies, and then stops at the code's end.
 */
module Syntax {
  import opened Common
  import opened Bits

  // ----- Optional elements; an absent one is inferred to be zero -----

  function FlagAt(t: seq<bool>, p: nat, present: bool): (r: Read<bool>)
    ensures r.Got? ==> p <= r.at
  {
    if present then BitReadAt(t, p) else Got(false, p)
  }

  function FlagCode(present: bool, v: bool): seq<bool> {
    if present then [v] else []
  }

  lemma {:induction false} FlagExact(t: seq<bool>, p: nat, present: bool, v: bool)
    requires p <= |t|
    ensures Reads(FlagAt(t, p, present), t, p, v, present || !v, FlagCode(present, v))
  {
    if present {
      BitExact(t, p, v);
    } else {
      assert t[p..p] == [];
    }
  }

  function OptUeAt(t: seq<bool>, p: nat, present: bool): (r: Read<nat>)
    ensures r.Got? ==> p <= r.at
  {
    if present then UeAt(t, p) else Got(0, p)
  }

  function OptUeCode(present: bool, v: nat): seq<bool> {
    if present then UeCode(v) else []
  }

  predicate OptUeOk(present: bool, v: nat) {
    if present then v <= UE_MAX else v == 0
  }

  lemma {:induction false} OptUeExact(t: seq<bool>, p: nat, present: bool, v: nat)
    requires p <= |t|
    ensures Reads(OptUeAt(t, p, present), t, p, v, OptUeOk(present, v), OptUeCode(present, v))
  {
    hide UeAt, UeCode;
    if present {
      UeExact(t, p, v);
    } else {
      assert t[p..p] == [];
    }
  }

  function OptSeAt(t: seq<bool>, p: nat, present: bool): (r: Read<int>)
    ensures r.Got? ==> p <= r.at
  {
    if present then SeAt(t, p) else Got(0, p)
  }

  function OptSeCode(present: bool, v: int): seq<bool> {
    if present then SeCode(v) else []
  }

  predicate OptSeOk(present: bool, v: int) {
    if present then -SE_MAX <= v <= SE_MAX else v == 0
  }

  lemma {:induction false} OptSeExact(t: seq<bool>, p: nat, present: bool, v: int)
    requires p <= |t|
    ensures Reads(OptSeAt(t, p, present), t, p, v, OptSeOk(present, v), OptSeCode(present, v))
  {
    hide SeAt, SeCode;
    if present {
      SeExact(t, p, v);
    } else {
      assert t[p..p] == [];
    }
  }

  // ----- Runs -----

  function UesAt(t: seq<bool>, p: nat, n: nat): (r: Read<seq<nat>>)
    ensures r.Got? ==> p <= r.at && |r.value| == n
    decreases n
  {
    if n == 0 then Got([], p)
    else
      var (first, at) :- UeAt(t, p);
      var (rest, end) :- UesAt(t, at, n - 1);
      Got([first] + rest, end)
  }

  function UesCode(v: seq<nat>): seq<bool> {
    if v == [] then [] else UeCode(v[0]) + UesCode(v[1..])
  }

  predicate UesOk(v: seq<nat>, n: nat) {
    |v| == n && forall i :: 0 <= i < n ==> v[i] <= UE_MAX
  }

  lemma {:induction false} UesExact(t: seq<bool>, p: nat, n: nat, v: seq<nat>)
    requires p <= |t|
    ensures Reads(UesAt(t, p, n), t, p, v, UesOk(v, n), UesCode(v))
    decreases n
  {
    hide UeAt, UeCode;
    if n == 0 || v == [] {
      assert t[p..p] == [];
    } else {
      var code := UeCode(v[0]);
      UeExact(t, p, v[0]);
      OnSplit(t, p, code, UesCode(v[1..]));
      if p + |code| <= |t| {
        UesExact(t, p + |code|, n - 1, v[1..]);
      }
      assert v == [v[0]] + v[1..];
      forall rest: seq<nat> | [v[0]] + rest == v ensures rest == v[1..] {
        assert ([v[0]] + rest)[1..] == rest;
      }
    }
  }

  function SesAt(t: seq<bool>, p: nat, n: nat): (r: Read<seq<int>>)
    ensures r.Got? ==> p <= r.at && |r.value| == n
    decreases n
  {
    if n == 0 then Got([], p)
    else
      var (first, at) :- SeAt(t, p);
      var (rest, end) :- SesAt(t, at, n - 1);
      Got([first] + rest, end)
  }

  function SesCode(v: seq<int>): seq<bool> {
    if v == [] then [] else SeCode(v[0]) + SesCode(v[1..])
  }

  predicate SesOk(v: seq<int>, n: nat) {
    |v| == n && forall i :: 0 <= i < n ==> -SE_MAX <= v[i] <= SE_MAX
  }

  lemma {:induction false} SesExact(t: seq<bool>, p: nat, n: nat, v: seq<int>)
    requires p <= |t|
    ensures Reads(SesAt(t, p, n), t, p, v, SesOk(v, n), SesCode(v))
    decreases n
  {
    hide SeAt, SeCode;
    if n == 0 || v == [] {
      assert t[p..p] == [];
    } else {
      var code := SeCode(v[0]);
      SeExact(t, p, v[0]);
      OnSplit(t, p, code, SesCode(v[1..]));
      if p + |code| <= |t| {
        SesExact(t, p + |code|, n - 1, v[1..]);
      }
      assert v == [v[0]] + v[1..];
      forall rest: seq<int> | [v[0]] + rest == v ensures rest == v[1..] {
        assert ([v[0]] + rest)[1..] == rest;
      }
    }
  }

  /** A flag, where it is present, and `n` signed elements if it is set. */
  function FlaggedSesAt(t: seq<bool>, p: nat, present: bool, n: nat): (r: Read<seq<int>>)
    ensures r.Got? ==> p <= r.at
  {
    var (flag, at) :- FlagAt(t, p, present);
    SesAt(t, at, if flag then n else 0)
  }

  function FlaggedSesCode(present: bool, v: seq<int>): seq<bool> {
    FlagCode(present, v != []) + SesCode(v)
  }

  predicate FlaggedSesOk(present: bool, n: nat, v: seq<int>) {
    v == [] || (present && SesOk(v, n))
  }

  lemma {:induction false} FlaggedSesExact(t: seq<bool>, p: nat, present: bool, n: nat, v: seq<int>)
    requires p <= |t| && n > 0
    ensures Reads(FlaggedSesAt(t, p, present, n), t, p, v, FlaggedSesOk(present, n, v), FlaggedSesCode(present, v))
  {
    hide FlagAt, SesAt, SesCode;
    FlagExact(t, p, present, v != []);
    FlagExact(t, p, present, v == []);
    var flag := FlagCode(present, v != []);
    OnSplit(t, p, flag, SesCode(v));
    if p + |flag| <= |t| {
      SesExact(t, p + |flag|, if v != [] then n else 0, v);
    }
  }

  // ----- Runs of operations up to a terminator -----

  /** The two such runs: changes to a reference list, and reference markings. */
  datatype OpKind = Modification | Marking {
    function End(): nat {
      if Modification? then 3 else 0
    }

    /** How many arguments an operation takes; none for one that is malformed. */
    function Arguments(op: nat): Option<nat> {
      if Modification? then (if op <= 2 then Some(1) else None)
      else if op == 1 || op == 2 || op == 4 || op == 6 then Some(1)
      else if op == 3 then Some(2)
      else if op == 5 then Some(0)
      else None
    }
  }

  datatype Op = Op(code: nat, arguments: seq<nat>)

  /** At most `left` elements that say what follows, the terminator among them. */
  function OpsAt(t: seq<bool>, p: nat, kind: OpKind, left: nat): (r: Read<seq<Op>>)
    ensures r.Got? ==> p <= r.at
    decreases left
  {
    if left == 0 then Bad
    else
      var (op, at) :- UeAt(t, p);
      if op == kind.End() then Got([], at)
      else
        match kind.Arguments(op)
        case None => Bad
        case Some(n) =>
          var (arguments, next) :- UesAt(t, at, n);
          var (rest, end) :- OpsAt(t, next, kind, left - 1);
          Got([Op(op, arguments)] + rest, end)
  }

  function OpsCode(kind: OpKind, v: seq<Op>): seq<bool> {
    if v == [] then UeCode(kind.End())
    else (UeCode(v[0].code) + UesCode(v[0].arguments)) + OpsCode(kind, v[1..])
  }

  predicate OpOk(kind: OpKind, v: Op) {
    kind.Arguments(v.code).Some? && UesOk(v.arguments, kind.Arguments(v.code).value)
  }

  predicate OpsOk(kind: OpKind, left: nat, v: seq<Op>) {
    |v| < left && forall i :: 0 <= i < |v| ==> OpOk(kind, v[i])
  }

  lemma {:induction false} EndEnds(kind: OpKind)
    ensures kind.Arguments(kind.End()).None? && kind.End() <= UE_MAX
    ensures forall op: nat :: kind.Arguments(op).Some? ==> op <= UE_MAX
  {
  }

  lemma {:induction false} OpsExact(t: seq<bool>, p: nat, kind: OpKind, left: nat, v: seq<Op>)
    requires p <= |t|
    ensures Reads(OpsAt(t, p, kind, left), t, p, v, OpsOk(kind, left, v), OpsCode(kind, v))
    decreases left
  {
    hide On, UeAt, UeCode, UesAt, UesCode, UesOk, OpKind.End, OpKind.Arguments;
    EndEnds(kind);
    if left > 0 {
      if v == [] {
        UeExact(t, p, kind.End());
      } else {
        var first := v[0];
        var op, arguments := UeCode(first.code), UesCode(first.arguments);
        UeExact(t, p, first.code);
        OnSplit(t, p, op, arguments);
        OnSplit(t, p, op + arguments, OpsCode(kind, v[1..]));
        if p + |op| <= |t| && kind.Arguments(first.code).Some? {
          UesExact(t, p + |op|, kind.Arguments(first.code).value, first.arguments);
          if p + |op| + |arguments| <= |t| {
            OpsExact(t, p + |op| + |arguments|, kind, left - 1, v[1..]);
          }
        }
        Headed(v);
      }
    }
  }

  lemma {:induction false} Headed<T>(v: seq<T>)
    requires v != []
    ensures v == [v[0]] + v[1..]
    ensures forall x: T, rest: seq<T> :: [x] + rest == v ==> x == v[0] && rest == v[1..]
  {
    forall x: T, rest: seq<T> | [x] + rest == v ensures x == v[0] && rest == v[1..] {
      assert ([x] + rest)[0] == x && ([x] + rest)[1..] == rest;
    }
  }

  // ----- Reading runs -----

  /** Two reads that stop at the same place, or fail alike. */
  ghost predicate SameEnd<A, B>(a: Read<A>, b: Read<B>) {
    a.Got? == b.Got? && (a.Got? ==> a.at == b.at)
  }

  /** `count` signed elements in a row. */
  method SkipSes(r: BitReader, count: nat) returns (res: Result<()>)
    requires r.Valid()
    modifies r
    ensures r.Valid() && r.Passes(res, SesAt(r.tape, old(r.bit), count))
  {
    hide SeAt, BitsOf;
    for i := 0 to count
      invariant r.Valid() && SameEnd(SesAt(r.tape, old(r.bit), count), SesAt(r.tape, r.bit, count - i))
    {
      var _ :- r.Se();
    }
    return Ok(());
  }
}
