/** Byte ranges of the source file and byte intervals of a response (src/http/range.rs). */
module Ranges {
  import opened Common

  datatype ByteRange = ByteRange(offset: nat, length: nat) {
    function End(): nat {
      offset + length
    }
  }

  datatype ByteInterval = ByteInterval(start: nat, end: nat) {
    function Overlap(from: nat, to: nat): Option<ByteInterval> {
      var low, high := Max(start, from), Min(end, to);
      if low < high then Some(ByteInterval(low, high)) else None
    }
  }

  function BytesOf(source: seq<byte>, range: ByteRange): seq<byte> {
    if range.End() <= |source| then source[range.offset..range.End()] else []
  }

  /** The bytes of all the ranges, one after the other. */
  function Content(source: seq<byte>, ranges: seq<ByteRange>): seq<byte> {
    if ranges == [] then []
    else Content(source, ranges[..|ranges| - 1]) + BytesOf(source, ranges[|ranges| - 1])
  }

  function Total(ranges: seq<ByteRange>): nat {
    if ranges == [] then 0
    else Total(ranges[..|ranges| - 1]) + ranges[|ranges| - 1].length
  }

  ghost predicate Inside(source: seq<byte>, ranges: seq<ByteRange>) {
    forall i :: 0 <= i < |ranges| ==> ranges[i].End() <= |source|
  }

  lemma {:induction false} ContentNone(source: seq<byte>)
    ensures Content(source, []) == [] && Total([]) == 0
  {
  }

  lemma {:induction false} ContentPush(source: seq<byte>, ranges: seq<ByteRange>, r: ByteRange)
    ensures Content(source, ranges + [r]) == Content(source, ranges) + BytesOf(source, r)
    ensures Total(ranges + [r]) == Total(ranges) + r.length
  {
    hide BytesOf;
    assert (ranges + [r])[..|ranges|] == ranges;
  }

  lemma {:induction false} ContentAppend(source: seq<byte>, a: seq<ByteRange>, b: seq<ByteRange>)
    ensures Content(source, a + b) == Content(source, a) + Content(source, b)
    ensures Total(a + b) == Total(a) + Total(b)
  {
    hide *;
    if b == [] {
      assert a + b == a;
      ContentNone(source);
    } else {
      var init, last := b[..|b| - 1], b[|b| - 1];
      assert b == init + [last] && a + b == (a + init) + [last];
      ContentAppend(source, a, init);
      ContentPush(source, a + init, last);
      ContentPush(source, init, last);
    }
  }

  lemma {:induction false} ContentLength(source: seq<byte>, ranges: seq<ByteRange>)
    requires Inside(source, ranges)
    ensures |Content(source, ranges)| == Total(ranges)
  {
    if ranges != [] {
      ContentLength(source, ranges[..|ranges| - 1]);
    }
  }

  // ----- The Range header -----

  predicate IsDigit(c: char) {
    '0' <= c <= '9'
  }

  predicate AllDigits(s: string) {
    forall i :: 0 <= i < |s| ==> IsDigit(s[i])
  }

  function DecimalValue(s: string): nat
    requires AllDigits(s)
  {
    if s == [] then 0
    else 10 * DecimalValue(s[..|s| - 1]) + (s[|s| - 1] as int - '0' as int)
  }

  /** The standard library's parse of a `u64`: an optional plus sign, then digits that fit. */
  function ParseU64(s: string): Option<nat> {
    var digits := if s != [] && s[0] == '+' then s[1..] else s;
    if digits == [] || !AllDigits(digits) || DecimalValue(digits) > U64_MAX then None
    else Some(DecimalValue(digits))
  }

  function IndexOf(s: string, c: char): nat {
    if s == [] || s[0] == c then 0 else 1 + IndexOf(s[1..], c)
  }

  /** `requested_range`, with the values of `Range`, of `If-Range`, and of the current `ETag`. */
  function RequestedRange(header: Option<string>, ifRange: Option<string>, etag: string, total: nat): Result<Option<ByteInterval>> {
    if header.None? || (ifRange.Some? && ifRange.value != etag) then Ok(None)
    else
      var prefix := "bytes=";
      if !(prefix <= header.value) then Err
      else
        var range := header.value[|prefix|..];
        var dash := IndexOf(range, '-');
        if ',' in range || dash >= |range| then Err
        else
          var first, last := ParseU64(range[..dash]), ParseU64(range[dash + 1..]);
          if dash == 0 then
            if last.None? || last.value == 0 || total == 0 then Err
            else Accepted(Max(0, total - last.value), total, total)
          else if first.None? then Err
          else if dash + 1 == |range| then Accepted(first.value, total, total)
          else if last.None? || last.value == U64_MAX then Err
          else Accepted(first.value, Min(last.value + 1, total), total)
  }

  function Accepted(start: nat, end: nat, total: nat): Result<Option<ByteInterval>> {
    if start >= end || start >= total then Err else Ok(Some(ByteInterval(start, end)))
  }

  /** Every interval accepted is a non-empty part of the response. */
  lemma {:induction false} AcceptedIsInside(header: Option<string>, ifRange: Option<string>, etag: string, total: nat)
    ensures var r := RequestedRange(header, ifRange, etag, total);
            r.Ok? && r.value.Some? ==> r.value.value.start < r.value.value.end <= total
  {
    hide ParseU64, IndexOf;
  }

  /**
   The whole response is sent exactly when no range is asked for or it is asked for of another version;
   a condition that names the current version is as good as none, and a list of ranges is refused.
   */
  lemma {:induction false} StaleIsWhole(header: Option<string>, ifRange: Option<string>, etag: string, total: nat)
    ensures RequestedRange(header, ifRange, etag, total) == Ok(None)
            <==> header == None || (ifRange != None && ifRange != Some(etag))
    ensures RequestedRange(header, Some(etag), etag, total) == RequestedRange(header, None, etag, total)
    ensures header.Some? && ',' in header.value ==> RequestedRange(header, None, etag, total).Err?
  {
    hide ParseU64, IndexOf;
    var prefix := "bytes=";
    if header.Some? && prefix <= header.value {
      assert header.value == prefix + header.value[|prefix|..] && ',' !in prefix;
    }
  }

  function DigitOf(n: nat): (c: char)
    requires n < 10
    ensures IsDigit(c) && c as int == '0' as int + n
  {
    ('0' as int + n) as char
  }

  function Decimal(n: nat): string {
    (if n < 10 then [] else Decimal(n / 10)) + [DigitOf(n % 10)]
  }

  lemma {:induction false} DigitReads(s: string, n: nat)
    requires AllDigits(s) && n < 10
    ensures AllDigits(s + [DigitOf(n)]) && DecimalValue(s + [DigitOf(n)]) == 10 * DecimalValue(s) + n
    ensures DecimalValue([]) == 0
  {
    hide DigitOf;
    assert (s + [DigitOf(n)])[..|s|] == s;
  }

  lemma {:induction false} DecimalReads(n: nat)
    ensures AllDigits(Decimal(n)) && Decimal(n) != [] && DecimalValue(Decimal(n)) == n
  {
    hide DigitOf, DecimalValue;
    if n >= 10 {
      DecimalReads(n / 10);
      DigitReads(Decimal(n / 10), n % 10);
    } else {
      DigitReads([], n);
    }
  }

  lemma {:induction false} ParseDecimal(n: nat)
    requires n <= U64_MAX
    ensures ParseU64(Decimal(n)) == Some(n)
  {
    DecimalReads(n);
    assert IsDigit(Decimal(n)[0]);
  }

  lemma {:induction false} DashAfter(a: string, b: string)
    requires AllDigits(a) && AllDigits(b)
    ensures IndexOf(a + "-" + b, '-') == |a| && ',' !in a + "-" + b
  {
    if a != [] {
      DashAfter(a[1..], b);
      assert (a + "-" + b)[1..] == a[1..] + "-" + b;
      assert IsDigit(a[0]);
    }
  }

  /** A printed range `a-b` (inclusive), `a-`, or suffix `-n` is read as the interval it names. */
  lemma {:induction false} PrintedRangeReads(first: nat, last: nat, condition: Option<string>, etag: string, total: nat)
    requires first <= U64_MAX && last < U64_MAX && (condition == None || condition == Some(etag))
    ensures RequestedRange(Some("bytes=" + (Decimal(first) + "-" + Decimal(last))), condition, etag, total)
            == (if first <= last && first < total then Ok(Some(ByteInterval(first, Min(last + 1, total)))) else Err)
    ensures RequestedRange(Some("bytes=" + (Decimal(first) + "-" + [])), condition, etag, total)
            == (if first < total then Ok(Some(ByteInterval(first, total))) else Err)
    ensures RequestedRange(Some("bytes=" + ([] + "-" + Decimal(last))), condition, etag, total)
            == (if last > 0 && total > 0 then Ok(Some(ByteInterval(Max(0, total - last), total))) else Err)
  {
    hide DecimalValue, ParseU64, Decimal, IndexOf;
    DecimalReads(first);
    DecimalReads(last);
    ParseDecimal(first);
    ParseDecimal(last);
    DashAfter(Decimal(first), Decimal(last));
    DashAfter(Decimal(first), []);
    DashAfter([], Decimal(last));
    HeaderBody(Decimal(first), Decimal(last));
    HeaderBody(Decimal(first), []);
    HeaderBody([], Decimal(last));
  }

  /** Whatever is accepted reads `bytes=a-b` with the numbers of its interval, one of them left out or not. */
  lemma {:induction false} AcceptedIsRange(header: string, condition: Option<string>, etag: string, total: nat, interval: ByteInterval)
    requires RequestedRange(Some(header), condition, etag, total) == Ok(Some(interval))
    ensures exists a: string, b: string ::
              && header == "bytes=" + (a + "-" + b) && (a != [] ==> ParseU64(a).Some?) && (b != [] ==> ParseU64(b).Some?)
              && (a != [] || b != [])
              && interval.start == (if a == [] then Max(0, total - ParseU64(b).value) else ParseU64(a).value)
              && interval.end == (if a == [] || b == [] then total else Min(ParseU64(b).value + 1, total))
  {
    hide ParseU64, DecimalValue;
    var prefix := "bytes=";
    var range := header[|prefix|..];
    var dash := IndexOf(range, '-');
    DashIs(range);
    var a, b := range[..dash], range[dash + 1..];
    assert header == prefix + range && range == a + "-" + b;
    assert ParseU64([]) == None by {
      NothingParses();
    }
  }

  lemma {:induction false} NothingParses()
    ensures ParseU64([]) == None
  {
  }

  lemma {:induction false} DashIs(s: string)
    ensures IndexOf(s, '-') < |s| ==> s[IndexOf(s, '-')] == '-'
  {
    if s != [] && s[0] != '-' {
      DashIs(s[1..]);
    }
  }

  lemma {:induction false} HeaderBody(a: string, b: string)
    ensures var range := a + "-" + b;
            && "bytes=" <= "bytes=" + range && ("bytes=" + range)[|"bytes="|..] == range
            && |range| == |a| + 1 + |b| && range[..|a|] == a && range[|a| + 1..] == b
  {
  }
}
