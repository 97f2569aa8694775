/**
 Streaming one response body (src/http/stream.rs): the requested interval of the fragment header
 followed by scattered file ranges, sent in chunks.

 The surroundings may fail at any moment: `readsAllowed` source reads succeed before one fails, and
 `sendsAllowed` sends before the client is gone. Either failure ends the job.
 */
module Streaming {
  import opened Common
  import opened Ranges
  import opened Plans

  /** The whole virtual response. */
  function Response(header: seq<byte>, source: seq<byte>, ranges: seq<ByteRange>): seq<byte> {
    header + Content(source, ranges)
  }

  // ----- The requested pieces -----

  function Clamped(position: nat, at: nat, length: nat): nat {
    Max(0, Min(position - at, length))
  }

  /** The part of `interval` that lies in a body which starts at `at` in the response. */
  function Part(body: seq<byte>, at: nat, interval: ByteInterval): seq<byte> {
    var low, high := Clamped(interval.start, at, |body|), Clamped(interval.end, at, |body|);
    if low <= high then body[low..high] else []
  }

  /** The pieces hold the requested part of the body the ranges hold. */
  ghost predicate PiecesOf(source: seq<byte>, ranges: seq<ByteRange>, at: nat, interval: ByteInterval, pieces: seq<ByteRange>) {
    && Inside(source, pieces)
    && (forall i :: 0 <= i < |pieces| ==> pieces[i].length > 0)
    && Content(source, pieces) == Part(Content(source, ranges), at, interval)
  }

  method RequestedPieces(ghost source: seq<byte>, ranges: seq<ByteRange>, headerEnd: nat, interval: ByteInterval)
    returns (pieces: seq<ByteRange>)
    requires Inside(source, ranges) && interval.start <= interval.end
    ensures PiecesOf(source, ranges, headerEnd, interval, pieces)
  {
    hide *;
    pieces := [];
    var virtualOffset := headerEnd;
    NoPieces(source, headerEnd, interval);
    for i := 0 to |ranges|
      invariant PiecesOf(source, ranges[..i], headerEnd, interval, pieces)
      invariant virtualOffset == headerEnd + |Content(source, ranges[..i])|
    {
      var range := ranges[i];
      assert ranges[..i + 1] == ranges[..i] + [range];
      InsideAt(source, ranges, i);
      var sourceEnd := virtualOffset + range.length;
      var overlap := interval.Overlap(virtualOffset, sourceEnd);
      NextPiece(source, ranges[..i], headerEnd, interval, pieces, range);
      ContentPush(source, ranges[..i], range);
      BytesLength(source, range);
      if overlap.Some? {
        OverlapStarts(interval, virtualOffset, sourceEnd);
        pieces := pieces + [ByteRange(range.offset + overlap.value.start - virtualOffset, overlap.value.end - overlap.value.start)];
      }
      virtualOffset := sourceEnd;
    }
    assert ranges[..|ranges|] == ranges;
  }

  lemma {:induction false} InsideAt(source: seq<byte>, ranges: seq<ByteRange>, i: nat)
    requires Inside(source, ranges) && i < |ranges|
    ensures ranges[i].End() <= |source|
  {
  }

  lemma {:induction false} OverlapStarts(interval: ByteInterval, from: nat, to: nat)
    ensures var o := interval.Overlap(from, to); o.Some? ==> from <= o.value.start < o.value.end
  {
  }

  lemma {:induction false} BytesLength(source: seq<byte>, range: ByteRange)
    requires range.End() <= |source|
    ensures |BytesOf(source, range)| == range.length
  {
  }

  lemma {:induction false} NoPieces(source: seq<byte>, at: nat, interval: ByteInterval)
    requires interval.start <= interval.end
    ensures PiecesOf(source, [], at, interval, []) && |Content(source, [])| == 0
  {
  }

  lemma {:induction false} PiecesGrow(source: seq<byte>, ranges: seq<ByteRange>, at: nat, interval: ByteInterval,
                                      pieces: seq<ByteRange>, piece: ByteRange)
    requires Inside(source, pieces) && forall i :: 0 <= i < |pieces| ==> pieces[i].length > 0
    requires piece.End() <= |source| && piece.length > 0
    requires Content(source, pieces) + BytesOf(source, piece) == Part(Content(source, ranges), at, interval)
    ensures PiecesOf(source, ranges, at, interval, pieces + [piece])
  {
    hide Content, Part, BytesOf;
    ContentPush(source, pieces, piece);
  }

  lemma {:induction false} OverlapIsPart(bytes: seq<byte>, at: nat, interval: ByteInterval, o: ByteInterval)
    requires interval.Overlap(at, at + |bytes|) == Some(o)
    ensures at <= o.start < o.end <= at + |bytes| && Part(bytes, at, interval) == bytes[o.start - at..o.end - at]
  {
  }

  lemma {:induction false} NextPiece(source: seq<byte>, ranges: seq<ByteRange>, at: nat, interval: ByteInterval,
                                     pieces: seq<ByteRange>, range: ByteRange)
    requires PiecesOf(source, ranges, at, interval, pieces) && range.End() <= |source| && interval.start <= interval.end
    ensures var virtual := at + |Content(source, ranges)|;
            match interval.Overlap(virtual, virtual + range.length)
            case Some(o) =>
              virtual <= o.start < o.end &&
              PiecesOf(source, ranges + [range], at, interval,
                       pieces + [ByteRange(range.offset + o.start - virtual, o.end - o.start)])
            case None => PiecesOf(source, ranges + [range], at, interval, pieces)
  {
    hide Content, Part, BytesOf;
    var body, bytes := Content(source, ranges), BytesOf(source, range);
    ContentPush(source, ranges, range);
    BytesLength(source, range);
    PartAcross(body, bytes, at, interval);
    var virtual := at + |body|;
    match interval.Overlap(virtual, virtual + range.length) {
      case Some(o) =>
        var piece := ByteRange(range.offset + o.start - virtual, o.end - o.start);
        BytesWithin(source, range, o.start - virtual, o.end - virtual);
        OverlapIsPart(bytes, virtual, interval, o);
        PiecesGrow(source, ranges + [range], at, interval, pieces, piece);
      case None =>
    }
  }

  lemma {:induction false} BytesWithin(source: seq<byte>, range: ByteRange, from: nat, to: nat)
    requires from <= to <= range.length && range.End() <= |source|
    ensures |BytesOf(source, range)| == range.length
    ensures BytesOf(source, ByteRange(range.offset + from, to - from)) == BytesOf(source, range)[from..to]
  {
  }

  /** The requested part of two bodies is the requested part of the first, then of the second. */
  lemma {:induction false} PartAcross(body: seq<byte>, bytes: seq<byte>, at: nat, interval: ByteInterval)
    requires interval.start <= interval.end
    ensures var virtual := at + |body|;
            match interval.Overlap(virtual, virtual + |bytes|)
            case Some(o) =>
              virtual <= o.start < o.end <= virtual + |bytes| &&
              Part(body + bytes, at, interval) == Part(body, at, interval) + bytes[o.start - virtual..o.end - virtual]
            case None => Part(body + bytes, at, interval) == Part(body, at, interval)
  {
  }

  // ----- What the plans serve -----

  lemma {:induction false} CloseIsInside(source: seq<byte>, ps: seq<ByteRange>, start: nat, end: nat)
    requires Close(ps) && ps != [] && ps[0].offset == start && ps[|ps| - 1].End() == end <= |source|
    ensures forall i :: 0 <= i < |ps| ==> start <= ps[i].offset && ps[i].End() <= end
    decreases |ps|
  {
    if |ps| > 1 {
      var init := ps[..|ps| - 1];
      assert ps[|ps| - 2].End() <= ps[|ps| - 1].offset;
      CloseIsInside(source, init, start, init[|init| - 1].End());
    }
  }

  lemma {:induction false} ServedInside(source: seq<byte>, plan: seq<Read>, i: nat)
    requires Inside(source, Served(plan)) && i < |plan|
    ensures Inside(source, Pieces(plan[i]))
    ensures Served(plan[..i + 1]) == Served(plan[..i]) + Pieces(plan[i])
    ensures Served(plan[..i + 1]) <= Served(plan)
    decreases |plan|
  {
    assert plan[..i + 1][..i] == plan[..i];
    if i + 1 < |plan| {
      var init := plan[..|plan| - 1];
      assert init[..i + 1] == plan[..i + 1] && init[..i] == plan[..i];
      assert Inside(source, Served(init)) by {
        forall k | 0 <= k < |Served(init)| ensures Served(init)[k].End() <= |source| {
          assert Served(plan)[k] == Served(init)[k];
        }
      }
      ServedInside(source, init, i);
    } else {
      assert plan[..i + 1] == plan;
      forall k | 0 <= k < |Pieces(plan[i])| ensures Pieces(plan[i])[k].End() <= |source| {
        assert Served(plan)[|Served(plan[..i])| + k] == Pieces(plan[i])[k];
      }
    }
  }

  lemma {:induction false} ContentPrefix(source: seq<byte>, a: seq<ByteRange>, b: seq<ByteRange>)
    requires a <= b
    ensures Content(source, a) <= Content(source, b)
  {
    hide Content;
    assert b == a + b[|a|..];
    ContentAppend(source, a, b[|a|..]);
  }

  /** The bytes of the first `n` runs, one run after the other. */
  function InRuns(source: seq<byte>, tagged: seq<Tagged>, n: nat): seq<byte> {
    if n == 0 then [] else InRuns(source, tagged, n - 1) + Content(source, OfRun(tagged, n - 1))
  }

  lemma {:induction false} InRunsPush(source: seq<byte>, tagged: seq<Tagged>, x: Tagged, n: nat)
    requires forall run :: run > x.0 ==> OfRun(tagged, run) == []
    ensures InRuns(source, tagged + [x], n) == InRuns(source, tagged, n) + (if x.0 < n then BytesOf(source, x.1) else [])
  {
    hide OfRun, Content, BytesOf;
    if n > 0 {
      InRunsPush(source, tagged, x, n - 1);
      TaggedPush(tagged, x, n - 1);
      ContentPush(source, OfRun(tagged, n - 1), x.1);
      ContentNone(source);
      assert OfRun(tagged, n - 1) + [] == OfRun(tagged, n - 1);
    }
  }

  /** Run after run, the tagged pieces are the pieces in response order. */
  lemma {:induction false} RunsInOrder(source: seq<byte>, pieces: seq<ByteRange>, n: nat)
    requires pieces == [] || Runs(pieces)[|pieces| - 1].0 < n
    ensures InRuns(source, Runs(pieces), n) == Content(source, pieces)
    decreases |pieces|
  {
    hide BytesOf;
    if pieces == [] {
      EmptyRuns(source, n);
    } else {
      var k := |pieces| - 1;
      var before, x := Runs(pieces[..k]), Runs(pieces)[k];
      assert Runs(pieces) == before + [x];
      forall run: nat | run > x.0 ensures OfRun(before, run) == [] {
        RunsAreDisjoint(pieces[..k], run);
      }
      RunsInOrder(source, pieces[..k], n);
      InRunsPush(source, before, x, n);
    }
  }

  lemma {:induction false} EmptyRuns(source: seq<byte>, n: nat)
    ensures InRuns(source, [], n) == []
  {
    if n > 0 {
      EmptyRuns(source, n - 1);
      assert OfRun([], n - 1) == [];
    }
  }

  /** Two ways of tagging with the same runs hold the same bytes. */
  lemma {:induction false} SameRuns(source: seq<byte>, a: seq<Tagged>, b: seq<Tagged>, n: nat)
    requires forall run: nat :: run < n ==> OfRun(a, run) == OfRun(b, run)
    ensures InRuns(source, a, n) == InRuns(source, b, n)
  {
    if n > 0 {
      SameRuns(source, a, b, n - 1);
    }
  }

  /** Runs that hold nothing add nothing. */
  lemma {:induction false} ShortRuns(source: seq<byte>, tagged: seq<Tagged>, m: nat, n: nat)
    requires m <= n && forall run: nat :: m <= run ==> OfRun(tagged, run) == []
    ensures InRuns(source, tagged, n) == InRuns(source, tagged, m)
  {
    if m < n {
      ShortRuns(source, tagged, m, n - 1);
    }
  }

  lemma {:induction false} WindowPrefix(ws: seq<Window>, i: nat)
    requires i < |ws|
    ensures Members(ws[..i + 1]) == Members(ws[..i]) + ws[i].members
    ensures Members(ws[..i + 1]) <= Members(ws)
    decreases |ws|
  {
    assert ws[..i + 1][..i] == ws[..i];
    if i + 1 < |ws| {
      var init := ws[..|ws| - 1];
      assert init[..i + 1] == ws[..i + 1] && init[..i] == ws[..i];
      WindowPrefix(init, i);
    } else {
      assert ws[..i + 1] == ws;
    }
  }

  lemma {:induction false} MemberInside(members: seq<Tagged>, k: nat)
    requires k < |members|
    ensures members[k].1.End() <= Reach(members)
    decreases |members|
  {
    if k < |members| - 1 {
      MemberInside(members[..|members| - 1], k);
    }
  }

  lemma {:induction false} ReachBound(members: seq<Tagged>, bound: nat)
    requires forall x :: x in members ==> x.1.End() <= bound
    ensures Reach(members) <= bound
  {
    if members != [] {
      ReachBound(members[..|members| - 1], bound);
    }
  }

  lemma {:induction false} DisjointTotal(ps: seq<ByteRange>, start: nat, end: nat)
    requires Disjoint(ps) && start <= end && forall p :: p in ps ==> start <= p.offset && p.End() <= end
    ensures Total(ps) <= end - start
    decreases |ps|
  {
    if ps != [] {
      var init, last := ps[..|ps| - 1], ps[|ps| - 1];
      DisjointTotal(init, start, last.offset);
    }
  }

  lemma {:induction false} OfRunMembers(tagged: seq<Tagged>, run: nat)
    ensures forall p :: p in OfRun(tagged, run) ==> (run, p) in tagged
  {
    if tagged != [] {
      OfRunMembers(tagged[..|tagged| - 1], run);
    }
  }

  /** What a window sends at once fits in a chunk. */
  lemma {:induction false} ReadyFits(source: seq<byte>, all: seq<Tagged>, before: seq<Tagged>, w: Window, chunk: nat)
    requires before + w.members <= all && WindowOk(w, chunk) && w.end <= |source|
    requires Disjoint(OfRun(all, 0))
    ensures |Content(source, OfRun(w.members, 0))| <= chunk
  {
    hide Slack, Content, Total;
    var rest := all[|before + w.members|..];
    assert all == before + w.members + rest;
    TaggedAppend(before + w.members, rest, 0);
    TaggedAppend(before, w.members, 0);
    var ps := OfRun(w.members, 0);
    DisjointInit(OfRun(before, 0) + ps, OfRun(rest, 0));
    DisjointInit(OfRun(before, 0), ps);
    OfRunMembers(w.members, 0);
    forall p | p in ps ensures w.start <= p.offset && p.End() <= w.end {
      var k :| 0 <= k < |w.members| && w.members[k] == (0, p);
      MemberInside(w.members, k);
    }
    DisjointTotal(ps, w.start, w.end);
    ContentLength(source, ps);
  }

  lemma {:induction false} OnlyPiece(source: seq<byte>, pieces: seq<ByteRange>)
    requires |pieces| == 1
    ensures Content(source, pieces) == BytesOf(source, pieces[0])
  {
    ContentPush(source, [], pieces[0]);
    ContentNone(source);
    assert pieces == [] + [pieces[0]];
  }

  lemma {:induction false} TotalPositive(pieces: seq<ByteRange>)
    requires pieces != [] && forall i :: 0 <= i < |pieces| ==> pieces[i].length > 0
    ensures Total(pieces) > 0
  {
  }

  lemma {:induction false} StartPlan(source: seq<byte>, plan: seq<Read>)
    ensures Content(source, Served(plan[..0])) == [] && ReadBytes(plan[..0]) == 0
  {
  }

  /** What one read of a plan adds, and that the rest only follows it. */
  lemma {:induction false} PlanStep(source: seq<byte>, plan: seq<Read>, i: nat, chunk: nat)
    requires i < |plan| && Inside(source, Served(plan))
    requires forall p :: p in Served(plan) ==> p.length > 0
    requires forall k :: 0 <= k < |plan| ==> ReadOk(plan[k], chunk)
    ensures ReadOk(plan[i], chunk) && Inside(source, Pieces(plan[i]))
    ensures forall k :: 0 <= k < |Pieces(plan[i])| ==> Pieces(plan[i])[k].length > 0
    ensures Content(source, Served(plan[..i + 1])) == Content(source, Served(plan[..i])) + Content(source, Pieces(plan[i]))
    ensures plan[i].Split? ==> Content(source, Pieces(plan[i])) == BytesOf(source, plan[i].piece) && plan[i].piece.End() <= |source|
    ensures Content(source, Served(plan[..i + 1])) <= Content(source, Served(plan))
    ensures ReadBytes(plan[..i + 1]) == ReadBytes(plan[..i]) + Size(plan[i])
    ensures ReadBytes(plan[..i + 1]) <= ReadBytes(plan)
  {
    hide Content, Served, ReadBytes, ReadOk, BytesOf;
    ServedInside(source, plan, i);
    ContentAppend(source, Served(plan[..i]), Pieces(plan[i]));
    ContentPrefix(source, Served(plan[..i + 1]), Served(plan));
    if plan[i].Split? {
      OnlyPiece(source, Pieces(plan[i]));
      InsideAt(source, Pieces(plan[i]), 0);
    }
    forall k | 0 <= k < |Pieces(plan[i])| ensures Pieces(plan[i])[k].length > 0 {
      assert Served(plan)[|Served(plan[..i])| + k] == Pieces(plan[i])[k];
    }
    assert plan[..i + 1] == plan[..i] + [plan[i]];
    ReadsPush(plan[..i], plan[i]);
    ReadBytesGrow(plan, i + 1, chunk);
  }

  lemma {:induction false} ReadBytesGrow(plan: seq<Read>, i: nat, chunk: nat)
    requires i <= |plan| && forall k :: 0 <= k < |plan| ==> ReadOk(plan[k], chunk)
    ensures ReadBytes(plan[..i]) <= ReadBytes(plan)
    decreases |plan|
  {
    if i < |plan| {
      var init, last := plan[..|plan| - 1], plan[|plan| - 1];
      assert init[..i] == plan[..i];
      ReadBytesGrow(init, i, chunk);
      if last.Span? {
        CloseTotal(last.pieces);
      }
    } else {
      assert plan[..i] == plan;
    }
  }

  /** The pieces' bytes out of one span, in response order; no piece reaches past the span. */
  method Joined(ghost source: seq<byte>, span: seq<byte>, start: nat, end: nat, pieces: seq<ByteRange>) returns (chunk: seq<byte>)
    requires start <= end <= |source| && span == source[start..end] && pieces != []
    requires forall i :: 0 <= i < |pieces| ==> start <= pieces[i].offset && pieces[i].End() <= end
    ensures chunk == Content(source, pieces)
  {
    hide Content;
    if |pieces| == 1 && pieces[0].offset == start {
      OnlyPiece(source, pieces);
      return span[..pieces[0].length];
    }
    chunk := [];
    ContentNone(source);
    for i := 0 to |pieces|
      invariant chunk == Content(source, pieces[..i])
    {
      var from := pieces[i].offset - start;
      var to := pieces[i].offset - start + pieces[i].length;
      ContentPush(source, pieces[..i], pieces[i]);
      assert pieces[..i + 1] == pieces[..i] + [pieces[i]];
      SliceOfSlice(source, start, end, from, to);
      chunk := chunk + span[from..to];
    }
    assert pieces[..|pieces|] == pieces;
  }

  // ----- Routing a window's members -----

  /** Each run after the first is held back whole; `HeldBytes` is what that takes. */
  ghost predicate HeldOk(source: seq<byte>, flat: seq<Tagged>, held: seq<seq<byte>>) {
    && (forall k :: 0 <= k < |held| ==> held[k] == Content(source, OfRun(flat, k + 1)))
    && (forall run: nat :: run > |held| ==> OfRun(flat, run) == [])
    && |Concat(held)| == HeldBytes(flat)
  }

  lemma {:induction false} HeldSize(source: seq<byte>, flat: seq<Tagged>, held: seq<seq<byte>>)
    requires HeldOk(source, flat, held)
    ensures |Concat(held)| == HeldBytes(flat)
  {
  }

  /** `resize_with`: empty entries up to `count`. */
  function Padded(held: seq<seq<byte>>, count: nat): (r: seq<seq<byte>>)
    ensures |r| == Max(|held|, count)
    ensures forall k :: 0 <= k < |r| ==> r[k] == if k < |held| then held[k] else []
  {
    if |held| < count then held + seq(count - |held|, i => []) else held
  }

  lemma {:induction false} PaddedConcat(held: seq<seq<byte>>, count: nat)
    ensures Concat(Padded(held, count)) == Concat(held)
    decreases count
  {
    if |held| < count {
      PaddedConcat(held, count - 1);
      assert Padded(held, count) == Padded(held, count - 1) + [[]];
      ConcatPush(Padded(held, count - 1), []);
    }
  }

  lemma {:induction false} ConcatExtend(parts: seq<seq<byte>>, i: nat, more: seq<byte>)
    requires i < |parts|
    ensures |Concat(parts[i := parts[i] + more])| == |Concat(parts)| + |more|
    decreases |parts|
  {
    var n := |parts| - 1;
    var after := parts[i := parts[i] + more];
    if i < n {
      ConcatExtend(parts[..n], i, more);
      assert after[..n] == parts[..n][i := parts[i] + more];
    } else {
      assert after[..n] == parts[..n];
    }
  }

  lemma {:induction false} HoldPiece(source: seq<byte>, flat: seq<Tagged>, held: seq<seq<byte>>, x: Tagged)
    requires HeldOk(source, flat, held) && x.1.End() <= |source|
    ensures x.0 == 0 ==> HeldOk(source, flat + [x], held)
    ensures x.0 != 0 ==>
              var p := Padded(held, x.0);
              HeldOk(source, flat + [x], p[x.0 - 1 := p[x.0 - 1] + BytesOf(source, x.1)])
  {
    hide OfRun, Content, HeldBytes, Concat, BytesOf;
    forall run: nat ensures OfRun(flat + [x], run) == if x.0 == run then OfRun(flat, run) + [x.1] else OfRun(flat, run) {
      TaggedPush(flat, x, run);
      assert OfRun(flat, run) + [] == OfRun(flat, run);
    }
    TaggedPush(flat, x, 0);
    if x.0 != 0 {
      var p := Padded(held, x.0);
      var after := p[x.0 - 1 := p[x.0 - 1] + BytesOf(source, x.1)];
      PaddedConcat(held, x.0);
      ConcatExtend(p, x.0 - 1, BytesOf(source, x.1));
      BytesLength(source, x.1);
      ContentNone(source);
      ContentPush(source, OfRun(flat, x.0), x.1);
      forall k | 0 <= k < |after| ensures after[k] == Content(source, OfRun(flat + [x], k + 1)) {
      }
    }
  }

  /** The loop over one window's members. */
  method Route(source: seq<byte>, span: seq<byte>, w: Window, ghost flat: seq<Tagged>, held: seq<seq<byte>>)
    returns (ready: seq<byte>, held': seq<seq<byte>>)
    requires w.start <= w.end <= |source| && span == source[w.start..w.end]
    requires forall k :: 0 <= k < |w.members| ==> w.start <= w.members[k].1.offset && w.members[k].1.End() <= w.end
    requires HeldOk(source, flat, held)
    ensures HeldOk(source, flat + w.members, held') && ready == Content(source, OfRun(w.members, 0))
  {
    hide OfRun, Content, HeldOk;
    ready, held' := [], held;
    assert flat + w.members[..0] == flat;
    EmptyRoute(source, w.members);
    for k := 0 to |w.members|
      invariant HeldOk(source, flat + w.members[..k], held')
      invariant ready == Content(source, OfRun(w.members[..k], 0))
    {
      var (run, piece) := w.members[k];
      var from, to := piece.offset - w.start, piece.End() - w.start;
      var bytes := span[from..to];
      SliceOfSlice(source, w.start, w.end, from, to);
      assert w.members[..k + 1] == w.members[..k] + [w.members[k]];
      assert flat + w.members[..k + 1] == flat + w.members[..k] + [w.members[k]];
      HoldPiece(source, flat + w.members[..k], held', w.members[k]);
      TaggedPush(w.members[..k], w.members[k], 0);
      ContentPush(source, OfRun(w.members[..k], 0), piece);
      assert OfRun(w.members[..k], 0) + [] == OfRun(w.members[..k], 0);
      if run == 0 {
        ready := ready + bytes;
      } else {
        held' := Padded(held', run);
        held' := held'[run - 1 := held'[run - 1] + bytes];
      }
    }
    assert w.members[..|w.members|] == w.members;
  }

  lemma {:induction false} EmptyRoute(source: seq<byte>, members: seq<Tagged>)
    ensures Content(source, OfRun(members[..0], 0)) == []
  {
  }

  lemma {:induction false} StartWindows(source: seq<byte>, windows: seq<Window>)
    ensures HeldOk(source, Members(windows[..0]), [])
    ensures Content(source, OfRun(Members(windows[..0]), 0)) == [] && WindowBytes(windows[..0]) == 0
  {
    assert windows[..0] == [];
  }

  lemma {:induction false} WindowsForward(ws: seq<Window>, chunk: nat)
    requires forall k :: 0 <= k < |ws| ==> WindowOk(ws[k], chunk)
    ensures forall k :: 0 <= k < |ws| ==> ws[k].start <= ws[k].end
  {
  }

  lemma {:induction false} WindowBytesGrow(ws: seq<Window>, i: nat)
    requires i <= |ws| && forall k :: 0 <= k < |ws| ==> ws[k].start <= ws[k].end
    ensures WindowBytes(ws[..i]) <= WindowBytes(ws)
    decreases |ws|
  {
    if i < |ws| {
      WindowBytesGrow(ws[..|ws| - 1], i);
      assert ws[..|ws| - 1][..i] == ws[..i];
    } else {
      assert ws[..i] == ws;
    }
  }

  lemma {:induction false} HeldGrow(a: seq<Tagged>, b: seq<Tagged>)
    requires a <= b
    ensures HeldBytes(a) <= HeldBytes(b)
    decreases |b|
  {
    if |a| < |b| {
      HeldGrow(a, b[..|b| - 1]);
    } else {
      assert a == b;
    }
  }

  /** A window lies in the file, holds its members, and sends at most a chunk at once. */
  lemma {:induction false} WindowFits(source: seq<byte>, ws: seq<Window>, i: nat, chunk: nat)
    requires i < |ws| && WindowOk(ws[i], chunk)
    requires forall x :: x in Members(ws) ==> x.1.length > 0 && x.1.End() <= |source|
    requires Disjoint(OfRun(Members(ws), 0))
    ensures var w := ws[i];
            && w.members != [] && w.start < w.end <= |source| && w.end - w.start <= chunk
            && (forall k :: 0 <= k < |w.members| ==> w.start <= w.members[k].1.offset && w.members[k].1.End() <= w.end)
            && |Content(source, OfRun(w.members, 0))| <= chunk
  {
    hide Content, OfRun, Members, Disjoint;
    var w := ws[i];
    WindowPrefix(ws, i);
    var before := Members(ws[..i]);
    forall x | x in w.members ensures x.1.length > 0 && x.1.End() <= |source| {
      var k :| 0 <= k < |w.members| && w.members[k] == x;
      assert Members(ws)[|before| + k] == (before + w.members)[|before| + k] == x;
    }
    ReachBound(w.members, |source|);
    forall k | 0 <= k < |w.members| ensures w.members[k].1.End() <= w.end {
      MemberInside(w.members, k);
    }
    ReadyFits(source, Members(ws), before, w, chunk);
  }

  /** What one window adds to the plan. */
  lemma {:induction false} WindowStep(source: seq<byte>, ws: seq<Window>, i: nat)
    requires i < |ws| && forall k :: 0 <= k < |ws| ==> ws[k].start <= ws[k].end
    ensures Members(ws[..i + 1]) == Members(ws[..i]) + ws[i].members
    ensures Content(source, OfRun(Members(ws[..i + 1]), 0)) ==
            Content(source, OfRun(Members(ws[..i]), 0)) + Content(source, OfRun(ws[i].members, 0))
    ensures Content(source, OfRun(Members(ws[..i + 1]), 0)) <= Content(source, OfRun(Members(ws), 0))
    ensures HeldBytes(Members(ws[..i + 1])) <= HeldBytes(Members(ws))
    ensures WindowBytes(ws[..i + 1]) == WindowBytes(ws[..i]) + (ws[i].end - ws[i].start)
    ensures WindowBytes(ws[..i + 1]) <= WindowBytes(ws)
  {
    hide Content, OfRun, Members, HeldBytes, WindowBytes;
    var w := ws[i];
    WindowPrefix(ws, i);
    var all, flat := Members(ws), Members(ws[..i + 1]);
    TaggedAppend(Members(ws[..i]), w.members, 0);
    ContentAppend(source, OfRun(Members(ws[..i]), 0), OfRun(w.members, 0));
    assert all == flat + all[|flat|..];
    TaggedAppend(flat, all[|flat|..], 0);
    ContentPrefix(source, OfRun(flat, 0), OfRun(all, 0));
    HeldGrow(flat, all);
    assert ws[..i + 1] == ws[..i] + [w];
    WindowsPush(ws[..i], w);
    WindowBytesGrow(ws, i + 1);
  }

  /** The first run, then the held runs, are all the runs. */
  lemma {:induction false} HeldInRuns(source: seq<byte>, flat: seq<Tagged>, held: seq<seq<byte>>, j: nat)
    requires HeldOk(source, flat, held) && j <= |held|
    ensures InRuns(source, flat, j + 1) == Content(source, OfRun(flat, 0)) + Concat(held[..j])
    decreases j
  {
    hide Content, OfRun, HeldBytes, Concat;
    if j == 0 {
      InRunsOne(source, flat);
      NothingHeld(held);
    } else {
      HeldInRuns(source, flat, held, j - 1);
      assert held[..j] == held[..j - 1] + [held[j - 1]];
      ConcatPush(held[..j - 1], held[j - 1]);
    }
  }

  lemma {:induction false} InRunsGrow(source: seq<byte>, tagged: seq<Tagged>, m: nat, n: nat)
    requires m <= n
    ensures InRuns(source, tagged, m) <= InRuns(source, tagged, n)
  {
    if m < n {
      InRunsGrow(source, tagged, m, n - 1);
    }
  }

  lemma {:induction false} InRunsPushLength(source: seq<byte>, tagged: seq<Tagged>, x: Tagged, n: nat)
    requires x.1.End() <= |source|
    ensures |InRuns(source, tagged + [x], n)| == |InRuns(source, tagged, n)| + (if x.0 < n then x.1.length else 0)
  {
    hide OfRun, Content;
    if n > 0 {
      InRunsPushLength(source, tagged, x, n - 1);
      TaggedPush(tagged, x, n - 1);
      ContentPush(source, OfRun(tagged, n - 1), x.1);
      BytesLength(source, x.1);
      assert OfRun(tagged, n - 1) + [] == OfRun(tagged, n - 1);
    }
  }

  /** The first runs hold at most what is tagged, and all of it when there are no others. */
  lemma {:induction false} InRunsLength(source: seq<byte>, tagged: seq<Tagged>, n: nat)
    requires forall x :: x in tagged ==> x.1.End() <= |source|
    ensures |InRuns(source, tagged, n)| <= TotalTagged(tagged)
    ensures (forall x :: x in tagged ==> x.0 < n) ==> |InRuns(source, tagged, n)| == TotalTagged(tagged)
  {
    hide InRuns;
    if tagged == [] {
      EmptyRuns(source, n);
    } else {
      var init, x := tagged[..|tagged| - 1], tagged[|tagged| - 1];
      assert tagged == init + [x] && x in tagged;
      InRunsLength(source, init, n);
      InRunsPushLength(source, init, x, n);
    }
  }

  lemma {:induction false} TaggedGrow(a: seq<Tagged>, b: seq<Tagged>)
    requires a <= b && forall x :: x in b ==> x.1.length > 0
    ensures TotalTagged(a) <= TotalTagged(b) && (a < b ==> TotalTagged(a) < TotalTagged(b))
    decreases |b|
  {
    if |a| < |b| {
      TaggedGrow(a, b[..|b| - 1]);
    } else {
      assert a == b;
    }
  }

  lemma {:induction false} StillToSend(before: seq<byte>, source: seq<byte>, piece: ByteRange, offset: nat, length: nat)
    requires piece.offset <= offset && 0 < length && offset + length <= piece.End() <= |source|
    ensures before + source[piece.offset..offset] < before + BytesOf(source, piece)
    ensures before + source[piece.offset..offset] + source[offset..offset + length] == before + source[piece.offset..offset + length]
  {
  }

  lemma {:induction false} NextChunk(before: seq<byte>, bytes: seq<byte>, at: nat, next: nat)
    requires at < next <= |bytes|
    ensures before <= before + bytes[..at] < before + bytes
    ensures before + bytes[..at] + bytes[at..next] == before + bytes[..next]
  {
  }

  /** While a window is left to read, not everything is sent. */
  lemma {:induction false} Unsent(source: seq<byte>, ws: seq<Window>, i: nat, runs: nat)
    requires i < |ws| && ws[i].members != []
    requires forall x :: x in Members(ws) ==> x.1.length > 0 && x.1.End() <= |source| && x.0 < runs
    ensures |Content(source, OfRun(Members(ws[..i]), 0))| < |InRuns(source, Members(ws), runs)|
  {
    hide Content, OfRun, Members, InRuns, TotalTagged;
    WindowPrefix(ws, i);
    var before, all := Members(ws[..i]), Members(ws);
    assert before < all;
    TaggedGrow(before, all);
    InRunsOne(source, before);
    InRunsLength(source, before, 1);
    InRunsLength(source, all, runs);
  }

  lemma {:induction false} InRunsOne(source: seq<byte>, tagged: seq<Tagged>)
    ensures InRuns(source, tagged, 1) == Content(source, OfRun(tagged, 0))
  {
    assert InRuns(source, tagged, 0) == [];
  }

  lemma {:induction false} NoSuchRun(tagged: seq<Tagged>, run: nat)
    requires forall x :: x in tagged ==> x.0 < run || x.0 > run
    ensures OfRun(tagged, run) == []
  {
    if tagged != [] {
      NoSuchRun(tagged[..|tagged| - 1], run);
    }
  }

  /** Nothing is sent beyond the last run. */
  lemma {:induction false} HeldPrefix(source: seq<byte>, all: seq<Tagged>, held: seq<seq<byte>>, runs: nat, j: nat)
    requires HeldOk(source, all, held) && runs >= 1 && j <= |held|
    requires forall x :: x in all ==> x.0 < runs
    ensures InRuns(source, all, j + 1) <= InRuns(source, all, runs)
    ensures j == |held| ==> InRuns(source, all, j + 1) == InRuns(source, all, runs)
  {
    hide Content, OfRun, HeldBytes, Concat, InRuns;
    forall run: nat | run >= runs ensures OfRun(all, run) == [] {
      NoSuchRun(all, run);
    }
    var n := Max(runs, |held| + 1);
    ShortRuns(source, all, runs, n);
    ShortRuns(source, all, |held| + 1, n);
    InRunsGrow(source, all, j + 1, n);
  }

  /** What one held run adds, and that nothing is sent beyond the last. */
  lemma {:induction false} HeldStep(source: seq<byte>, all: seq<Tagged>, held: seq<seq<byte>>, runs: nat, j: nat)
    requires HeldOk(source, all, held) && runs >= 1 && j < |held|
    requires forall x :: x in all ==> x.0 < runs
    ensures InRuns(source, all, j + 2) == InRuns(source, all, j + 1) + held[j]
    ensures InRuns(source, all, j + 2) <= InRuns(source, all, runs)
  {
    hide Content, OfRun, HeldOk, InRuns, Concat;
    HeldPrefix(source, all, held, runs, j + 1);
    HeldInRuns(source, all, held, j);
    HeldInRuns(source, all, held, j + 1);
    ConcatPush(held[..j], held[j]);
    assert held[..j + 1] == held[..j] + [held[j]];
  }

  lemma {:induction false} NothingHeld(held: seq<seq<byte>>)
    ensures Concat(held[..0]) == []
  {
  }

  // ----- The whole of it -----

  function HeaderPart(header: seq<byte>, interval: ByteInterval): seq<byte> {
    match interval.Overlap(0, |header|)
    case Some(o) => if o.end <= |header| then header[o.start..o.end] else []
    case None => []
  }

  /** The interval of header and body is its part of the header, then its part of the body. */
  lemma {:induction false} WantedSplits(header: seq<byte>, body: seq<byte>, interval: ByteInterval)
    requires interval.start <= interval.end
    requires interval.end <= |header + body|
    ensures (header + body)[interval.start..interval.end] == HeaderPart(header, interval) + Part(body, |header|, interval)
    ensures |HeaderPart(header, interval)| + |Part(body, |header|, interval)| == interval.end - interval.start
  {
  }

  lemma {:induction false} OverlapWithin(interval: ByteInterval, end: nat)
    ensures var o := interval.Overlap(0, end); o.Some? ==> 0 <= o.value.start < o.value.end <= end
  {
  }

  lemma {:induction false} ResponseIs(header: seq<byte>, source: seq<byte>, ranges: seq<ByteRange>)
    ensures Response(header, source, ranges) == header + Content(source, ranges)
  {
  }

  lemma {:induction false} NothingSent()
    ensures Concat<byte>([]) == [] && SumOf([]) == 0
  {
  }

  lemma {:induction false} PiecesFit(source: seq<byte>, ranges: seq<ByteRange>, at: nat, interval: ByteInterval, pieces: seq<ByteRange>)
    requires PiecesOf(source, ranges, at, interval, pieces)
    ensures Content(source, pieces) == Part(Content(source, ranges), at, interval)
    ensures Inside(source, pieces) && Total(pieces) == |Part(Content(source, ranges), at, interval)|
    ensures forall p :: p in pieces ==> p.length > 0
  {
    hide Content, Part;
    ContentLength(source, pieces);
  }

  lemma {:induction false} CoalescedServes(pieces: seq<ByteRange>, chunk: nat, plan: seq<Read>)
    requires GreedyReads(pieces, chunk, plan)
    ensures Served(plan) == pieces && forall i :: 0 <= i < |plan| ==> ReadOk(plan[i], chunk)
    ensures ReadBytes(plan) <= Total(pieces) + GAP_BUDGET_BYTES
  {
    CoalescedBudget(pieces, chunk, plan);
  }

  lemma {:induction false} InterleavedServes(source: seq<byte>, pieces: seq<ByteRange>, chunk: nat, ws: seq<Window>)
    requires Eligible(pieces, chunk) && GreedyWindows(SortedByOffset(Runs(pieces)), chunk, ws)
    requires Inside(source, pieces) && forall p :: p in pieces ==> p.length > 0
    ensures forall i :: 0 <= i < |ws| ==> WindowOk(ws[i], chunk)
    ensures forall x :: x in Members(ws) ==> x.1.length > 0 && x.1.End() <= |source| && x.0 < MAX_RUNS
    ensures Disjoint(OfRun(Members(ws), 0))
    ensures InRuns(source, Members(ws), MAX_RUNS) == Content(source, pieces)
    ensures WindowBytes(ws) <= Total(pieces) + GAP_BUDGET_BYTES
    ensures HeldBytes(Members(ws)) <= HELD_CHUNKS * chunk
  {
    hide OfRun, Content, WindowOk, SortedByOffset, MaximalWindows, HeldBytes, InRuns, Disjoint;
    var tagged := Runs(pieces);
    forall run: nat ensures OfRun(Members(ws), run) == OfRun(tagged, run) && Disjoint(OfRun(tagged, run)) {
      RunsAreDisjoint(pieces, run);
      SortedOk(tagged, run);
    }
    RunsAreDisjoint(pieces, 0);
    SortedOk(tagged, 0);
    SameRuns(source, Members(ws), tagged, MAX_RUNS);
    RunsInOrder(source, pieces, MAX_RUNS);
    InterleavedBudget(pieces, chunk, ws);
    forall x | x in Members(ws) ensures x.1.length > 0 && x.1.End() <= |source| && x.0 < MAX_RUNS {
      assert x in tagged;
      var i :| 0 <= i < |tagged| && tagged[i] == x;
    }
  }

  // ----- The job -----

  function SumOf(lengths: seq<nat>): nat {
    if lengths == [] then 0 else SumOf(lengths[..|lengths| - 1]) + lengths[|lengths| - 1]
  }

  lemma {:induction false} SumPush(lengths: seq<nat>, length: nat)
    ensures SumOf(lengths + [length]) == SumOf(lengths) + length
  {
    assert (lengths + [length])[..|lengths|] == lengths;
  }

  /** Reads of at least a byte each are no more than the bytes read. */
  lemma {:induction false} CountedReads(lengths: seq<nat>)
    requires forall i :: 0 <= i < |lengths| ==> 0 < lengths[i]
    ensures |lengths| <= SumOf(lengths)
  {
    if lengths != [] {
      CountedReads(lengths[..|lengths| - 1]);
    }
  }

  lemma {:induction false} CountedChunks(chunks: seq<seq<byte>>)
    requires forall i :: 0 <= i < |chunks| ==> 0 < |chunks[i]|
    ensures |chunks| <= |Concat(chunks)|
  {
    if chunks != [] {
      CountedChunks(chunks[..|chunks| - 1]);
    }
  }

  class StreamJob {
    const source: seq<byte>
    const header: seq<byte>
    const ranges: seq<ByteRange>
    const interval: ByteInterval
    const chunkSize: nat
    const readsAllowed: nat
    const sendsAllowed: nat
    var sent: seq<seq<byte>>
    var fetched: seq<nat>

    constructor (source: seq<byte>, header: seq<byte>, ranges: seq<ByteRange>, interval: ByteInterval,
                 chunkSize: nat, readsAllowed: nat, sendsAllowed: nat)
      ensures this.source == source && this.header == header && this.ranges == ranges
      ensures this.interval == interval && this.chunkSize == chunkSize
      ensures this.readsAllowed == readsAllowed && this.sendsAllowed == sendsAllowed
      ensures sent == [] && fetched == []
    {
      this.source, this.header, this.ranges := source, header, ranges;
      this.interval, this.chunkSize := interval, chunkSize;
      this.readsAllowed, this.sendsAllowed := readsAllowed, sendsAllowed;
      sent, fetched := [], [];
    }

    /** The bytes the client asked for. */
    ghost function Wanted(): seq<byte>
      requires interval.start <= interval.end <= |Response(header, source, ranges)|
    {
      Response(header, source, ranges)[interval.start..interval.end]
    }

    /** Everything sent and read so far is within what is allowed, none of it empty or over a chunk. */
    ghost predicate Bounded()
      reads this
    {
      && |sent| <= sendsAllowed && (forall i :: 0 <= i < |sent| ==> 0 < |sent[i]| <= chunkSize)
      && |fetched| <= readsAllowed && (forall i :: 0 <= i < |fetched| ==> 0 < fetched[i] <= chunkSize)
    }

    /** The surroundings ended the job: it made every read, or every send, that they let succeed. */
    ghost predicate Interrupted()
      reads this
    {
      |fetched| == readsAllowed || |sent| == sendsAllowed
    }

    method Fetch(offset: nat, length: nat) returns (r: Result<seq<byte>>)
      requires offset + length <= |source|
      modifies this`fetched
      ensures r.Ok? <==> |old(fetched)| < readsAllowed
      ensures r.Ok? ==> r.value == source[offset..offset + length] && fetched == old(fetched) + [length]
      ensures r.Err? ==> fetched == old(fetched)
    {
      if |fetched| >= readsAllowed {
        return Err;
      }
      fetched := fetched + [length];
      return Ok(source[offset..offset + length]);
    }

    method Send(chunk: seq<byte>) returns (r: Result<()>)
      modifies this`sent
      ensures r.Ok? <==> |old(sent)| < sendsAllowed
      ensures sent == if r.Ok? then old(sent) + [chunk] else old(sent)
    {
      if |sent| >= sendsAllowed {
        return Err;
      }
      sent := sent + [chunk];
      return Ok(());
    }

    /** `bytes`, in order, in pieces of at most a chunk. */
    method SendInChunks(bytes: seq<byte>) returns (r: Result<()>)
      requires chunkSize > 0 && Bounded()
      modifies this`sent
      ensures Bounded()
      ensures Concat(old(sent)) <= Concat(sent)
      ensures if r.Ok? then Concat(sent) == Concat(old(sent)) + bytes
              else Concat(sent) < Concat(old(sent)) + bytes && |sent| == sendsAllowed
    {
      hide Concat;
      var at: nat := 0;
      while at < |bytes|
        invariant at <= |bytes| && Bounded()
        invariant Concat(sent) == Concat(old(sent)) + bytes[..at]
      {
        var next := Min(|bytes|, at + chunkSize);
        ConcatPush(sent, bytes[at..next]);
        NextChunk(Concat(old(sent)), bytes, at, next);
        var _ :- Send(bytes[at..next]);
        at := next;
      }
      assert bytes[..at] == bytes;
      return Ok(());
    }

    /** `Read::Split`: one piece larger than a chunk, read and sent a chunk at a time. */
    method SendSplit(piece: ByteRange) returns (r: Result<()>)
      requires chunkSize > 0 && Bounded() && piece.End() <= |source|
      modifies this`sent, this`fetched
      ensures Bounded()
      ensures if r.Ok? then Concat(sent) == Concat(old(sent)) + BytesOf(source, piece)
              else Concat(sent) < Concat(old(sent)) + BytesOf(source, piece) && Interrupted()
      ensures SumOf(fetched) <= SumOf(old(fetched)) + piece.length
    {
      hide Concat, SumOf;
      var offset: nat, remaining: nat := piece.offset, piece.length;
      while remaining != 0
        invariant offset + remaining == piece.End() && offset >= piece.offset && Bounded()
        invariant Concat(sent) == Concat(old(sent)) + source[piece.offset..offset]
        invariant SumOf(fetched) + remaining <= SumOf(old(fetched)) + piece.length
      {
        var length: nat := Min(remaining, chunkSize);
        SumPush(fetched, length);
        StillToSend(Concat(old(sent)), source, piece, offset, length);
        var chunk :- Fetch(offset, length);
        ConcatPush(sent, chunk);
        var _ :- Send(chunk);
        offset := offset + length;
        remaining := remaining - length;
      }
      return Ok(());
    }

    /** `Read::Span`: several nearby pieces from one read, joined into one chunk. */
    method SendSpan(start: nat, end: nat, pieces: seq<ByteRange>) returns (r: Result<()>)
      requires chunkSize > 0 && Bounded()
      requires ReadOk(Span(start, end, pieces), chunkSize) && Inside(source, pieces)
      requires forall i :: 0 <= i < |pieces| ==> pieces[i].length > 0
      modifies this`sent, this`fetched
      ensures Bounded()
      ensures if r.Ok? then Concat(sent) == Concat(old(sent)) + Content(source, pieces)
              else Concat(sent) < Concat(old(sent)) + Content(source, pieces) && Interrupted()
      ensures SumOf(fetched) <= SumOf(old(fetched)) + (end - start)
    {
      hide Content, Total, Concat, SumOf, BytesOf;
      CloseIsInside(source, pieces, start, end);
      CloseTotal(pieces);
      ContentLength(source, pieces);
      SumPush(fetched, end - start);
      TotalPositive(pieces);
      var span :- Fetch(start, end - start);
      var chunk := Joined(source, span, start, end, pieces);
      ConcatPush(sent, chunk);
      r := Send(chunk);
    }

    /** The coalesced plan, read after read. */
    method StreamCoalesced(plan: seq<Read>) returns (r: Result<()>)
      requires chunkSize > 0 && Bounded() && Inside(source, Served(plan))
      requires forall i :: 0 <= i < |plan| ==> ReadOk(plan[i], chunkSize)
      requires forall p :: p in Served(plan) ==> p.length > 0
      modifies this`sent, this`fetched
      ensures Bounded()
      ensures if r.Ok? then Concat(sent) == Concat(old(sent)) + Content(source, Served(plan))
              else Concat(sent) < Concat(old(sent)) + Content(source, Served(plan)) && Interrupted()
      ensures SumOf(fetched) <= SumOf(old(fetched)) + ReadBytes(plan)
    {
      hide Content, Total, Served, ReadBytes, ReadOk, SumOf, Concat;
      StartPlan(source, plan);
      for i := 0 to |plan|
        invariant Bounded()
        invariant Concat(sent) == Concat(old(sent)) + Content(source, Served(plan[..i]))
        invariant SumOf(fetched) <= SumOf(old(fetched)) + ReadBytes(plan[..i])
      {
        PlanStep(source, plan, i, chunkSize);
        match plan[i] {
          case Split(piece) =>
            var _ :- SendSplit(piece);
          case Span(start, end, pieces) =>
            var _ :- SendSpan(start, end, pieces);
        }
      }
      assert plan[..|plan|] == plan;
      return Ok(());
    }

    /** The interleaved plan: the first run goes out as it is read, the others are held back. */
    method StreamInterleaved(windows: seq<Window>, ghost runs: nat) returns (r: Result<()>, ghost peak: nat)
      requires chunkSize > 0 && Bounded() && runs >= 1
      requires forall i :: 0 <= i < |windows| ==> WindowOk(windows[i], chunkSize)
      requires forall x :: x in Members(windows) ==> x.1.length > 0 && x.1.End() <= |source| && x.0 < runs
      requires Disjoint(OfRun(Members(windows), 0))
      modifies this`sent, this`fetched
      ensures Bounded()
      ensures if r.Ok? then Concat(sent) == Concat(old(sent)) + InRuns(source, Members(windows), runs)
              else Concat(sent) < Concat(old(sent)) + InRuns(source, Members(windows), runs) && Interrupted()
      ensures SumOf(fetched) <= SumOf(old(fetched)) + WindowBytes(windows)
      ensures peak <= HeldBytes(Members(windows))
    {
      hide Content, OfRun, Members, HeldBytes, WindowBytes, WindowOk, InRuns, SumOf, Concat, HeldOk, Disjoint;
      WindowsForward(windows, chunkSize);
      ghost var all := Members(windows);
      var held: seq<seq<byte>> := [];
      peak := 0;
      StartWindows(source, windows);
      InRunsOne(source, all);
      InRunsGrow(source, all, 1, runs);
      for i := 0 to |windows|
        invariant Bounded()
        invariant HeldOk(source, Members(windows[..i]), held)
        invariant Concat(sent) == Concat(old(sent)) + Content(source, OfRun(Members(windows[..i]), 0))
        invariant Content(source, OfRun(Members(windows[..i]), 0)) <= InRuns(source, all, runs)
        invariant SumOf(fetched) <= SumOf(old(fetched)) + WindowBytes(windows[..i])
        invariant peak <= HeldBytes(all)
      {
        var w := windows[i];
        WindowFits(source, windows, i, chunkSize);
        WindowStep(source, windows, i);
        Unsent(source, windows, i, runs);
        SumPush(fetched, w.end - w.start);
        var span :- Fetch(w.start, w.end - w.start);
        var ready;
        ready, held := Route(source, span, w, Members(windows[..i]), held);
        HeldSize(source, Members(windows[..i + 1]), held);
        peak := Max(peak, |Concat(held)|);
        if ready != [] {
          ConcatPush(sent, ready);
          var _ :- Send(ready);
        }
      }
      assert windows[..|windows|] == windows;
      r := SendHeld(all, held, runs, Concat(old(sent)));
    }

    /** Once the first run is out, the held ones follow it. */
    method SendHeld(ghost all: seq<Tagged>, held: seq<seq<byte>>, ghost runs: nat, ghost before: seq<byte>)
      returns (r: Result<()>)
      requires chunkSize > 0 && Bounded() && runs >= 1 && HeldOk(source, all, held) && forall x :: x in all ==> x.0 < runs
      requires Concat(sent) == before + Content(source, OfRun(all, 0))
      modifies this`sent
      ensures Bounded()
      ensures if r.Ok? then Concat(sent) == before + InRuns(source, all, runs)
              else Concat(sent) < before + InRuns(source, all, runs) && Interrupted()
    {
      hide Content, OfRun, InRuns, Concat, HeldOk;
      HeldInRuns(source, all, held, 0);
      NothingHeld(held);
      for j := 0 to |held|
        invariant Bounded()
        invariant Concat(sent) == before + InRuns(source, all, j + 1)
      {
        HeldStep(source, all, held, runs, j);
        var _ :- SendInChunks(held[j]);
      }
      HeldPrefix(source, all, held, runs, |held|);
      return Ok(());
    }

    /**
     `stream`: whatever plan is taken, what is sent is what was asked for, in chunks within the size.
     Only when every allowed read or send was made, and more was needed, is it less: then it is a
     proper start. As many sends as bytes, and more reads than bytes to read, are always enough.
     */
    method Stream() returns (r: Result<()>, ghost peak: nat)
      requires chunkSize > 0 && sent == [] && fetched == []
      requires Inside(source, ranges) && interval.start <= interval.end <= |Response(header, source, ranges)|
      modifies this`sent, this`fetched
      ensures Bounded()
      ensures if r.Ok? then Concat(sent) == Wanted() else Concat(sent) < Wanted() && Interrupted()
      ensures readsAllowed > |Wanted()| + 256 * 1024 && sendsAllowed >= |Wanted()| ==> r.Ok?
      ensures SumOf(fetched) <= |Wanted()| + 256 * 1024
      ensures peak <= 4 * chunkSize
    {
      hide Content, PiecesOf, Concat, SumOf, HeldBytes, InRuns, Members, WindowBytes, GreedyReads, GreedyWindows;
      hide WindowOk, ReadOk, Served, ReadBytes, Total, Eligible, SortedByOffset, Disjoint, OfRun, Part, Runs, Bounded;
      peak := 0;
      var headerEnd := |header|;
      ghost var body := Content(source, ranges);
      NothingSent();
      WantedSplits(header, body, interval);
      ResponseIs(header, source, ranges);
      BoundedAtFirst();
      var overlap := interval.Overlap(0, headerEnd);
      if overlap.Some? {
        OverlapWithin(interval, headerEnd);
        r := SendInChunks(header[overlap.value.start..overlap.value.end]);
        if r.Err? {
          TooFewAllowed(Wanted());
          return;
        }
      }
      var pieces := RequestedPieces(source, ranges, headerEnd, interval);
      PiecesFit(source, ranges, headerEnd, interval, pieces);
      var windows := InterleavedWindows(pieces, chunkSize);
      if windows.Some? {
        InterleavedServes(source, pieces, chunkSize, windows.value);
        r, peak := StreamInterleaved(windows.value, MAX_RUNS);
        if r.Err? {
          TooFewAllowed(Wanted());
        }
        return;
      }
      var plan := Coalesce(pieces, chunkSize);
      CoalescedServes(pieces, chunkSize, plan);
      r := StreamCoalesced(plan);
      if r.Err? {
        TooFewAllowed(Wanted());
      }
    }

    lemma {:induction false} BoundedAtFirst()
      requires sent == [] && fetched == []
      ensures Bounded()
    {
    }

    /** A job ended before all was sent was allowed fewer reads or sends than there are bytes. */
    lemma {:induction false} TooFewAllowed(wanted: seq<byte>)
      requires Bounded() && Interrupted() && Concat(sent) < wanted && SumOf(fetched) <= |wanted| + GAP_BUDGET_BYTES
      ensures readsAllowed <= |wanted| + GAP_BUDGET_BYTES || sendsAllowed < |wanted|
    {
      CountedReads(fetched);
      CountedChunks(sent);
    }
  }
}
