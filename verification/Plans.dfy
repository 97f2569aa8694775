/**
 The two ways a response body is read from the file (src/http/stream.rs): pieces coalesced into
 spans, or the interleaved pieces of several tracks read together in windows.

 Each plan is specified as the greedy one: it serves the pieces in order, it keeps the limits, and
 no read could have taken in the first piece of the read after it.
 */
module Plans {
  import opened Common
  import opened Ranges

  const MAX_GAP_BYTES: nat := 64 * 1024
  const GAP_BUDGET_BYTES: nat := 256 * 1024
  const MAX_RUNS: nat := 4
  const HELD_CHUNKS: nat := 4

  // ----- Coalesced reads -----

  datatype Read =
    | Split(piece: ByteRange)
    | Span(start: nat, end: nat, pieces: seq<ByteRange>)

  function Pieces(r: Read): seq<ByteRange> {
    match r
    case Split(piece) => [piece]
    case Span(_, _, pieces) => pieces
  }

  function Size(r: Read): int {
    match r
    case Split(piece) => piece.length
    case Span(start, end, _) => end - start
  }

  function Served(plan: seq<Read>): seq<ByteRange> {
    if plan == [] then [] else Served(plan[..|plan| - 1]) + Pieces(plan[|plan| - 1])
  }

  /** How many bytes the plan reads from the file. */
  function ReadBytes(plan: seq<Read>): int {
    if plan == [] then 0 else ReadBytes(plan[..|plan| - 1]) + Size(plan[|plan| - 1])
  }

  /** The bytes read for nobody. */
  function Gaps(plan: seq<Read>): int {
    ReadBytes(plan) - Total(Served(plan))
  }

  /** Pieces that move forward through the file with small gaps between them. */
  ghost predicate Close(ps: seq<ByteRange>) {
    forall k :: 0 < k < |ps| ==> ps[k - 1].End() <= ps[k].offset <= ps[k - 1].End() + MAX_GAP_BYTES
  }

  ghost predicate ReadOk(r: Read, chunk: nat) {
    match r
    case Split(piece) => piece.length > chunk
    case Span(start, end, ps) =>
      && ps != [] && start == ps[0].offset && end == ps[|ps| - 1].End()
      && Close(ps) && end - start <= chunk
  }

  /** Whether a read may take in `piece` as well, `spent` gap bytes having been read so far. */
  predicate Joins(r: Read, piece: ByteRange, spent: int, chunk: nat) {
    && r.Span?
    && r.end <= piece.offset <= r.end + 64 * 1024
    && spent + piece.offset - r.end <= 256 * 1024
    && piece.End() - r.start <= chunk
  }

  ghost predicate Maximal(plan: seq<Read>, chunk: nat) {
    forall i :: 0 < i < |plan| ==>
      Pieces(plan[i]) != [] && !Joins(plan[i - 1], Pieces(plan[i])[0], Gaps(plan[..i]), chunk)
  }

  ghost predicate GreedyReads(pieces: seq<ByteRange>, chunk: nat, plan: seq<Read>) {
    && Served(plan) == pieces
    && (forall i :: 0 <= i < |plan| ==> ReadOk(plan[i], chunk))
    && Gaps(plan) <= GAP_BUDGET_BYTES
    && Maximal(plan, chunk)
  }

  lemma {:induction false} ReadsPush(plan: seq<Read>, r: Read)
    ensures Served(plan + [r]) == Served(plan) + Pieces(r)
    ensures ReadBytes(plan + [r]) == ReadBytes(plan) + Size(r)
    ensures Gaps(plan + [r]) == Gaps(plan) + Size(r) - Total(Pieces(r))
  {
    assert (plan + [r])[..|plan|] == plan;
    ContentAppend([], Served(plan), Pieces(r));
  }

  lemma {:induction false} MaximalPush(plan: seq<Read>, r: Read, chunk: nat)
    requires Maximal(plan, chunk) && Pieces(r) != []
    requires plan != [] ==> !Joins(plan[|plan| - 1], Pieces(r)[0], Gaps(plan), chunk)
    ensures Maximal(plan + [r], chunk)
  {
    hide Gaps, Joins;
    var all := plan + [r];
    forall i | 0 < i < |all|
      ensures Pieces(all[i]) != [] && !Joins(all[i - 1], Pieces(all[i])[0], Gaps(all[..i]), chunk)
    {
      assert all[..i] == plan[..i];
      assert plan[..|plan|] == plan;
    }
  }

  /** Whether the last read is replaced does not matter to the reads before it. */
  lemma {:induction false} MaximalReplace(plan: seq<Read>, old_: Read, new_: Read, chunk: nat)
    requires Maximal(plan + [old_], chunk)
    requires Pieces(old_) != [] && Pieces(new_) != [] && Pieces(old_)[0] == Pieces(new_)[0]
    ensures Maximal(plan + [new_], chunk)
  {
    hide Gaps, Joins;
    var before, after := plan + [old_], plan + [new_];
    forall i | 0 < i < |after|
      ensures Pieces(after[i]) != [] && !Joins(after[i - 1], Pieces(after[i])[0], Gaps(after[..i]), chunk)
    {
      assert after[..i] == before[..i];
      assert Pieces(before[i])[0] == Pieces(after[i])[0];
    }
  }

  lemma {:induction false} StartRead(pieces: seq<ByteRange>, chunk: nat, plan: seq<Read>, piece: ByteRange)
    requires GreedyReads(pieces, chunk, plan)
    requires plan != [] ==> !Joins(plan[|plan| - 1], piece, Gaps(plan), chunk)
    ensures var r := if piece.length > chunk then Split(piece) else Span(piece.offset, piece.End(), [piece]);
            && GreedyReads(pieces + [piece], chunk, plan + [r])
            && Gaps(plan + [r]) == Gaps(plan)
  {
    hide Gaps, Joins, Maximal, ReadOk, Served, ReadBytes, Total;
    var r := if piece.length > chunk then Split(piece) else Span(piece.offset, piece.End(), [piece]);
    ReadsPush(plan, r);
    OnePiece(piece, chunk);
    MaximalPush(plan, r, chunk);
  }

  lemma {:induction false} OnePiece(piece: ByteRange, chunk: nat)
    ensures var r := if piece.length > chunk then Split(piece) else Span(piece.offset, piece.End(), [piece]);
            ReadOk(r, chunk) && Total(Pieces(r)) == piece.length
  {
    ContentPush([], [], piece);
    ContentNone([]);
    assert [] + [piece] == [piece];
  }

  lemma {:induction false} SpanGrows(s: Read, piece: ByteRange, spent: int, chunk: nat)
    requires ReadOk(s, chunk) && Joins(s, piece, spent, chunk)
    ensures s.Span? && s.pieces != []
    ensures ReadOk(Span(s.start, piece.End(), s.pieces + [piece]), chunk)
    ensures spent + piece.offset - s.end <= GAP_BUDGET_BYTES
  {
  }

  lemma {:induction false} ExtendSpan(pieces: seq<ByteRange>, chunk: nat, plan: seq<Read>, s: Read, piece: ByteRange)
    requires s.Span? && GreedyReads(pieces, chunk, plan + [s]) && Joins(s, piece, Gaps(plan + [s]), chunk)
    ensures var r := Span(s.start, piece.End(), s.pieces + [piece]);
            && GreedyReads(pieces + [piece], chunk, plan + [r])
            && Gaps(plan + [r]) == Gaps(plan + [s]) + piece.offset - s.end
  {
    hide Gaps, Maximal, Joins, ReadOk, Served;
    assert (plan + [s])[|plan|] == s;
    SpanGrows(s, piece, Gaps(plan + [s]), chunk);
    var r := Span(s.start, piece.End(), s.pieces + [piece]);
    ReadsPush(plan, s);
    ReadsPush(plan, r);
    ContentPush([], s.pieces, piece);
    MaximalReplace(plan, s, r, chunk);
    assert Served(plan) + Pieces(r) == (Served(plan) + Pieces(s)) + [piece];
    forall i | 0 <= i < |plan + [r]| ensures ReadOk((plan + [r])[i], chunk) {
      assert i < |plan| ==> (plan + [s])[i] == (plan + [r])[i];
    }
  }

  /** `coalesce`: the greedy reads. */
  method Coalesce(pieces: seq<ByteRange>, chunk: nat) returns (plan: seq<Read>)
    ensures GreedyReads(pieces, chunk, plan)
  {
    hide Gaps, ReadOk, GreedyReads;
    var spent: int := 0;
    var current: Option<Read> := None;
    plan := [];
    ghost var all: seq<Read> := [];
    EmptyPlan(chunk);
    for i := 0 to |pieces|
      invariant all == plan + (if current.Some? then [current.value] else [])
      invariant current.Some? ==> current.value.Span?
      invariant current.None? && all != [] ==> all[|all| - 1].Split?
      invariant GreedyReads(pieces[..i], chunk, all) && spent == Gaps(all)
    {
      var piece := pieces[i];
      assert pieces[..i + 1] == pieces[..i] + [piece];
      if current.Some? && piece.offset >= current.value.end && piece.offset - current.value.end <= MAX_GAP_BYTES
         && spent + (piece.offset - current.value.end) <= GAP_BUDGET_BYTES && piece.End() - current.value.start <= chunk {
        ExtendSpan(pieces[..i], chunk, plan, current.value, piece);
        spent := spent + (piece.offset - current.value.end);
        current := Some(Span(current.value.start, piece.End(), current.value.pieces + [piece]));
        all := plan + [current.value];
        continue;
      }
      NoSplitJoins(all, piece, spent, chunk);
      StartRead(pieces[..i], chunk, all, piece);
      if current.Some? {
        plan := plan + [current.value];
        current := None;
      }
      assert plan == all;
      if piece.length > chunk {
        plan := plan + [Split(piece)];
        all := plan;
      } else {
        current := Some(Span(piece.offset, piece.End(), [piece]));
        all := plan + [current.value];
      }
    }
    assert pieces[..|pieces|] == pieces;
    if current.Some? {
      plan := plan + [current.value];
    }
    assert plan == all;
  }

  lemma {:induction false} EmptyPlan(chunk: nat)
    ensures GreedyReads([], chunk, []) && Gaps([]) == 0
  {
  }

  lemma {:induction false} NoSplitJoins(plan: seq<Read>, piece: ByteRange, spent: int, chunk: nat)
    ensures plan != [] && plan[|plan| - 1].Split? ==> !Joins(plan[|plan| - 1], piece, spent, chunk)
  {
  }

  /** Close pieces do not overlap, so together they fit between the first start and the last end. */
  lemma {:induction false} CloseTotal(ps: seq<ByteRange>)
    requires ps != [] && Close(ps)
    ensures Total(ps) <= ps[|ps| - 1].End() - ps[0].offset
  {
    if |ps| == 1 {
      assert Total(ps[..0]) == 0;
    } else {
      CloseTotal(ps[..|ps| - 1]);
    }
  }

  /** Read budget of the coalesced plan: payload plus 256 KiB in all. */
  lemma {:induction false} CoalescedBudget(pieces: seq<ByteRange>, chunk: nat, plan: seq<Read>)
    requires GreedyReads(pieces, chunk, plan)
    ensures ReadBytes(plan) <= Total(pieces) + GAP_BUDGET_BYTES
  {
  }

  // ----- Interleaved windows -----

  /** A piece and the run (track) of the response it belongs to. */
  type Tagged = (nat, ByteRange)

  datatype Window = Window(start: nat, end: nat, members: seq<Tagged>)

  /** Each piece with its run: a new one starts where a piece lies before the end of the last. */
  function Runs(pieces: seq<ByteRange>): (tagged: seq<Tagged>)
    ensures |tagged| == |pieces|
  {
    if pieces == [] then []
    else
      var n := |pieces| - 1;
      var before := Runs(pieces[..n]);
      before + [(NextRun(pieces[..n], before, pieces[n]), pieces[n])]
  }

  function NextRun(pieces: seq<ByteRange>, tagged: seq<Tagged>, piece: ByteRange): nat
    requires |tagged| == |pieces|
  {
    if pieces == [] then 0
    else tagged[|tagged| - 1].0 + (if piece.offset < pieces[|pieces| - 1].End() then 1 else 0)
  }

  /** The pieces of one run, in order. */
  function OfRun(tagged: seq<Tagged>, run: nat): seq<ByteRange> {
    if tagged == [] then []
    else
      var last := tagged[|tagged| - 1];
      OfRun(tagged[..|tagged| - 1], run) + (if last.0 == run then [last.1] else [])
  }

  function TotalTagged(tagged: seq<Tagged>): nat {
    if tagged == [] then 0 else TotalTagged(tagged[..|tagged| - 1]) + tagged[|tagged| - 1].1.length
  }

  /** The bytes that follow the first run in the response. */
  function HeldBytes(tagged: seq<Tagged>): nat {
    if tagged == [] then 0
    else
      var last := tagged[|tagged| - 1];
      HeldBytes(tagged[..|tagged| - 1]) + (if last.0 != 0 then last.1.length else 0)
  }

  lemma {:induction false} TaggedPush(tagged: seq<Tagged>, x: Tagged, run: nat)
    ensures OfRun(tagged + [x], run) == OfRun(tagged, run) + (if x.0 == run then [x.1] else [])
    ensures TotalTagged(tagged + [x]) == TotalTagged(tagged) + x.1.length
    ensures HeldBytes(tagged + [x]) == HeldBytes(tagged) + (if x.0 != 0 then x.1.length else 0)
  {
    assert (tagged + [x])[..|tagged|] == tagged;
  }

  lemma {:induction false} TaggedAppend(a: seq<Tagged>, b: seq<Tagged>, run: nat)
    ensures OfRun(a + b, run) == OfRun(a, run) + OfRun(b, run)
    ensures TotalTagged(a + b) == TotalTagged(a) + TotalTagged(b)
  {
    if b == [] {
      assert a + b == a;
    } else {
      var init, x := b[..|b| - 1], b[|b| - 1];
      TaggedAppend(a, init, run);
      assert a + b == (a + init) + [x];
      TaggedPush(a + init, x, run);
      TaggedPush(init, x, run);
      assert b == init + [x];
    }
  }

  /** The standard library's stable sort, by offset. */
  function Inserted(sorted: seq<Tagged>, x: Tagged): (r: seq<Tagged>)
    ensures |r| == |sorted| + 1
  {
    if sorted == [] || sorted[|sorted| - 1].1.offset <= x.1.offset then sorted + [x]
    else Inserted(sorted[..|sorted| - 1], x) + [sorted[|sorted| - 1]]
  }

  function SortedByOffset(tagged: seq<Tagged>): (r: seq<Tagged>)
    ensures |r| == |tagged|
  {
    if tagged == [] then []
    else Inserted(SortedByOffset(tagged[..|tagged| - 1]), tagged[|tagged| - 1])
  }

  ghost predicate Ascending(tagged: seq<Tagged>) {
    forall i, j :: 0 <= i < j < |tagged| ==> tagged[i].1.offset <= tagged[j].1.offset
  }

  /** Pieces in file order, none overlapping another. */
  ghost predicate Disjoint(ps: seq<ByteRange>) {
    forall i, j :: 0 <= i < j < |ps| ==> ps[i].End() <= ps[j].offset
  }

  lemma {:induction false} InsertedAscends(sorted: seq<Tagged>, x: Tagged)
    requires Ascending(sorted)
    ensures Ascending(Inserted(sorted, x))
    ensures forall y :: y in Inserted(sorted, x) <==> y == x || y in sorted
  {
    if sorted != [] && sorted[|sorted| - 1].1.offset > x.1.offset {
      var init := sorted[..|sorted| - 1];
      InsertedAscends(init, x);
      var last, r := sorted[|sorted| - 1], Inserted(init, x);
      assert sorted == init + [last];
      forall k | 0 <= k < |r| ensures r[k].1.offset <= last.1.offset {
        assert r[k] in r;
      }
    }
  }

  lemma {:induction false} InsertedCounts(sorted: seq<Tagged>, x: Tagged, run: nat)
    requires x.0 == run ==> forall p :: p in OfRun(sorted, run) ==> p.offset <= x.1.offset
    ensures OfRun(Inserted(sorted, x), run) == OfRun(sorted, run) + (if x.0 == run then [x.1] else [])
    ensures TotalTagged(Inserted(sorted, x)) == TotalTagged(sorted) + x.1.length
    ensures HeldBytes(Inserted(sorted, x)) == HeldBytes(sorted) + (if x.0 != 0 then x.1.length else 0)
  {
    hide OfRun, TotalTagged, HeldBytes;
    if sorted == [] || sorted[|sorted| - 1].1.offset <= x.1.offset {
      TaggedPush(sorted, x, run);
    } else {
      var init, last := sorted[..|sorted| - 1], sorted[|sorted| - 1];
      assert sorted == init + [last];
      TaggedPush(init, last, run);
      InsertedCounts(init, x, run);
      TaggedPush(Inserted(init, x), last, run);
    }
  }

  /** Sorting keeps every run whose pieces are already in file order as it was. */
  lemma {:induction false} SortedOk(tagged: seq<Tagged>, run: nat)
    requires Disjoint(OfRun(tagged, run))
    ensures Ascending(SortedByOffset(tagged))
    ensures OfRun(SortedByOffset(tagged), run) == OfRun(tagged, run)
    ensures TotalTagged(SortedByOffset(tagged)) == TotalTagged(tagged)
    ensures HeldBytes(SortedByOffset(tagged)) == HeldBytes(tagged)
    ensures forall y :: y in SortedByOffset(tagged) <==> y in tagged
  {
    if tagged != [] {
      var init, x := tagged[..|tagged| - 1], tagged[|tagged| - 1];
      assert tagged == init + [x];
      TaggedPush(init, x, run);
      DisjointInit(OfRun(init, run), if x.0 == run then [x.1] else []);
      SortedOk(init, run);
      InsertedAscends(SortedByOffset(init), x);
      InsertedCounts(SortedByOffset(init), x, run);
    }
  }

  lemma {:induction false} DisjointInit(a: seq<ByteRange>, b: seq<ByteRange>)
    requires Disjoint(a + b)
    ensures Disjoint(a) && Disjoint(b)
    ensures forall p, q :: p in a && q in b ==> p.offset <= q.offset
  {
    forall i, j | 0 <= i < j < |a| ensures a[i].End() <= a[j].offset {
      assert (a + b)[i] == a[i] && (a + b)[j] == a[j];
    }
    forall i, j | 0 <= i < j < |b| ensures b[i].End() <= b[j].offset {
      assert (a + b)[|a| + i] == b[i] && (a + b)[|a| + j] == b[j];
    }
    forall p, q | p in a && q in b ensures p.offset <= q.offset {
      var i :| 0 <= i < |a| && a[i] == p;
      var j :| 0 <= j < |b| && b[j] == q;
      assert (a + b)[i] == p && (a + b)[|a| + j] == q;
    }
  }

  /** Runs are numbered upwards, and within a run the pieces are disjoint and in file order. */
  ghost predicate RunsOk(pieces: seq<ByteRange>, tagged: seq<Tagged>, run: nat)
    requires |tagged| == |pieces|
  {
    var ps := OfRun(tagged, run);
    && Disjoint(ps)
    && (forall i :: 0 <= i < |tagged| ==> tagged[i].1 == pieces[i])
    && (forall i :: 0 <= i < |tagged| ==> tagged[i].0 <= tagged[|tagged| - 1].0)
    && (pieces != [] && run == tagged[|tagged| - 1].0 ==>
          forall i :: 0 <= i < |ps| ==> ps[i].End() <= pieces[|pieces| - 1].End())
    && (pieces != [] && run > tagged[|tagged| - 1].0 ==> ps == [])
    && (pieces == [] ==> ps == [])
  }

  lemma {:induction false} RunsAreDisjoint(pieces: seq<ByteRange>, run: nat)
    ensures RunsOk(pieces, Runs(pieces), run)
  {
    hide OfRun;
    if pieces == [] {
      assert OfRun([], run) == [] by { NoneOfRun(run); }
    } else {
      var n := |pieces| - 1;
      var before := Runs(pieces[..n]);
      var x := (NextRun(pieces[..n], before, pieces[n]), pieces[n]);
      RunsAreDisjoint(pieces[..n], run);
      TaggedPush(before, x, run);
      RunsPush(pieces[..n], before, pieces[n], run);
      assert pieces == pieces[..n] + [pieces[n]];
    }
  }

  lemma {:induction false} NoneOfRun(run: nat)
    ensures OfRun([], run) == []
  {
  }

  lemma {:induction false} RunsPush(pieces: seq<ByteRange>, tagged: seq<Tagged>, piece: ByteRange, run: nat)
    requires |tagged| == |pieces| && RunsOk(pieces, tagged, run)
    ensures RunsOk(pieces + [piece], tagged + [(NextRun(pieces, tagged, piece), piece)], run)
  {
    hide OfRun;
    var x := (NextRun(pieces, tagged, piece), piece);
    TaggedPush(tagged, x, run);
  }

  // ----- Windows -----

  function Reach(members: seq<Tagged>): nat {
    if members == [] then 0 else Max(Reach(members[..|members| - 1]), members[|members| - 1].1.End())
  }

  /** The bytes a window reads for nobody: what each member lies past the reach of those before. */
  function Slack(members: seq<Tagged>): nat {
    if |members| <= 1 then 0
    else
      var init := members[..|members| - 1];
      Slack(init) + Max(0, members[|members| - 1].1.offset - Reach(init))
  }

  function Members(windows: seq<Window>): seq<Tagged> {
    if windows == [] then [] else Members(windows[..|windows| - 1]) + windows[|windows| - 1].members
  }

  function WindowBytes(windows: seq<Window>): int {
    if windows == [] then 0
    else WindowBytes(windows[..|windows| - 1]) + (windows[|windows| - 1].end - windows[|windows| - 1].start)
  }

  function WindowSlack(windows: seq<Window>): nat {
    if windows == [] then 0 else WindowSlack(windows[..|windows| - 1]) + Slack(windows[|windows| - 1].members)
  }

  predicate WindowJoins(w: Window, piece: ByteRange, spent: nat, chunk: nat) {
    var gap := Max(0, piece.offset - w.end);
    && gap <= 64 * 1024
    && spent + gap <= 256 * 1024
    && Max(piece.End(), w.end) - w.start <= chunk
  }

  ghost predicate WindowOk(w: Window, chunk: nat) {
    && w.members != [] && w.start == w.members[0].1.offset && w.end == Reach(w.members)
    && (forall k :: 0 <= k < |w.members| ==> w.start <= w.members[k].1.offset)
    && (forall k :: 0 < k < |w.members| ==> w.members[k].1.offset <= Reach(w.members[..k]) + MAX_GAP_BYTES)
    && w.start <= w.end <= w.start + chunk
  }

  ghost predicate MaximalWindows(ws: seq<Window>, chunk: nat) {
    forall i :: 0 < i < |ws| ==>
      ws[i].members != [] && !WindowJoins(ws[i - 1], ws[i].members[0].1, WindowSlack(ws[..i]), chunk)
  }

  ghost predicate GreedyWindows(tagged: seq<Tagged>, chunk: nat, ws: seq<Window>) {
    && Members(ws) == tagged
    && (forall i :: 0 <= i < |ws| ==> WindowOk(ws[i], chunk))
    && WindowSlack(ws) <= GAP_BUDGET_BYTES
    && MaximalWindows(ws, chunk)
  }

  lemma {:induction false} WindowsPush(ws: seq<Window>, w: Window)
    ensures Members(ws + [w]) == Members(ws) + w.members
    ensures WindowBytes(ws + [w]) == WindowBytes(ws) + (w.end - w.start)
    ensures WindowSlack(ws + [w]) == WindowSlack(ws) + Slack(w.members)
  {
    assert (ws + [w])[..|ws|] == ws;
  }

  lemma {:induction false} MembersPush(members: seq<Tagged>, x: Tagged)
    requires members != []
    ensures Reach(members + [x]) == Max(Reach(members), x.1.End())
    ensures Slack(members + [x]) == Slack(members) + Max(0, x.1.offset - Reach(members))
  {
    assert (members + [x])[..|members|] == members;
  }

  lemma {:induction false} OneMember(x: Tagged, chunk: nat)
    requires x.1.length <= chunk
    ensures WindowOk(Window(x.1.offset, x.1.End(), [x]), chunk)
  {
    assert [x][..0] == [];
    assert Reach([x]) == Max(Reach([]), x.1.End());
  }

  lemma {:induction false} StartWindow(tagged: seq<Tagged>, chunk: nat, ws: seq<Window>, x: Tagged)
    requires GreedyWindows(tagged, chunk, ws) && x.1.length <= chunk
    requires ws != [] ==> !WindowJoins(ws[|ws| - 1], x.1, WindowSlack(ws), chunk)
    ensures var w := Window(x.1.offset, x.1.End(), [x]);
            && GreedyWindows(tagged + [x], chunk, ws + [w]) && WindowSlack(ws + [w]) == WindowSlack(ws)
  {
    hide WindowJoins, WindowSlack, WindowOk;
    var w := Window(x.1.offset, x.1.End(), [x]);
    WindowsPush(ws, w);
    OneMember(x, chunk);
    var all := ws + [w];
    forall i | 0 < i < |all|
      ensures all[i].members != [] && !WindowJoins(all[i - 1], all[i].members[0].1, WindowSlack(all[..i]), chunk)
    {
      assert all[..i] == ws[..i] && ws[..|ws|] == ws;
    }
  }

  lemma {:induction false} ExtendWindow(tagged: seq<Tagged>, chunk: nat, ws: seq<Window>, w: Window, x: Tagged)
    requires GreedyWindows(tagged, chunk, ws + [w]) && WindowJoins(w, x.1, WindowSlack(ws + [w]), chunk)
    requires w.start <= x.1.offset
    ensures var r := Window(w.start, Max(w.end, x.1.End()), w.members + [x]);
            && GreedyWindows(tagged + [x], chunk, ws + [r])
            && WindowSlack(ws + [r]) == WindowSlack(ws + [w]) + Max(0, x.1.offset - w.end)
  {
    hide WindowSlack, MaximalWindows;
    var r := Window(w.start, Max(w.end, x.1.End()), w.members + [x]);
    assert (ws + [w])[|ws|] == w;
    assert WindowOk(w, chunk);
    WindowsPush(ws, w);
    WindowsPush(ws, r);
    MembersPush(w.members, x);
    assert Members(ws) + r.members == (Members(ws) + w.members) + [x];
    ExtendedOk(w, x, chunk);
    forall i | 0 <= i < |ws + [r]| ensures WindowOk((ws + [r])[i], chunk) {
      assert i < |ws| ==> (ws + [w])[i] == (ws + [r])[i];
    }
    ReplaceWindow(ws, w, r, chunk);
  }

  lemma {:induction false} ExtendedOk(w: Window, x: Tagged, chunk: nat)
    requires WindowOk(w, chunk) && w.start <= x.1.offset <= w.end + MAX_GAP_BYTES
    requires Max(x.1.End(), w.end) - w.start <= chunk
    ensures WindowOk(Window(w.start, Max(w.end, x.1.End()), w.members + [x]), chunk)
  {
    var members := w.members + [x];
    MembersPush(w.members, x);
    forall k | 0 < k < |members| ensures members[k].1.offset <= Reach(members[..k]) + MAX_GAP_BYTES {
      assert members[..k] == w.members[..k] && w.members[..|w.members|] == w.members;
    }
  }

  lemma {:induction false} ReplaceWindow(ws: seq<Window>, w: Window, r: Window, chunk: nat)
    requires MaximalWindows(ws + [w], chunk) && w.members != [] && r.members != [] && w.members[0] == r.members[0]
    ensures MaximalWindows(ws + [r], chunk)
  {
    hide WindowJoins, WindowSlack;
    var before, after := ws + [w], ws + [r];
    forall i | 0 < i < |after|
      ensures after[i].members != [] && !WindowJoins(after[i - 1], after[i].members[0].1, WindowSlack(after[..i]), chunk)
    {
      assert after[..i] == before[..i];
      assert before[i].members[0] == after[i].members[0];
    }
  }

  /** Whether the pieces may be read together at all. */
  predicate Eligible(pieces: seq<ByteRange>, chunk: nat) {
    var tagged := Runs(pieces);
    && tagged != [] && 1 <= tagged[|tagged| - 1].0 < MAX_RUNS
    && (forall p :: p in pieces ==> p.length <= chunk)
    && HeldBytes(tagged) <= chunk * HELD_CHUNKS
  }

  /** Where the response goes back in the file: the pieces with which a new run starts. */
  function Backs(pieces: seq<ByteRange>): set<int> {
    set i | 0 < i < |pieces| && pieces[i].offset < pieces[i - 1].End()
  }

  lemma {:induction false} BacksPush(pieces: seq<ByteRange>)
    requires pieces != []
    ensures var n := |pieces| - 1;
            Backs(pieces) == Backs(pieces[..n]) + if n > 0 && pieces[n].offset < pieces[n - 1].End() then {n} else {}
  {
  }

  lemma {:induction false} RunsAreBacks(pieces: seq<ByteRange>)
    requires pieces != []
    ensures Runs(pieces)[|pieces| - 1].0 == |Backs(pieces)|
    decreases |pieces|
  {
    hide Backs;
    var n := |pieces| - 1;
    BacksPush(pieces);
    if n > 0 {
      RunsAreBacks(pieces[..n]);
      NotYet(pieces[..n]);
    } else {
      assert Backs(pieces[..0]) == {} by {
        NotYet(pieces[..0]);
      }
    }
  }

  lemma {:induction false} NotYet(pieces: seq<ByteRange>)
    ensures forall i :: i in Backs(pieces) ==> 0 < i < |pieces|
    ensures pieces == [] ==> Backs(pieces) == {}
    ensures Backs(pieces) == {} || exists i :: i in Backs(pieces)
  {
    if forall i :: i !in Backs(pieces) {
      assert Backs(pieces) == {};
    }
  }

  lemma {:induction false} NothingLater(pieces: seq<ByteRange>)
    ensures Total(pieces[|pieces|..]) == 0 && HeldBytes(Runs([])) == 0 && Total([]) == 0
  {
  }

  /** What follows the first run is what follows the first way back. */
  lemma {:induction false} HeldIsLater(pieces: seq<ByteRange>, first: nat)
    requires if Backs(pieces) == {} then first == |pieces| else first in Backs(pieces) && forall j :: j in Backs(pieces) ==> first <= j
    ensures first <= |pieces| && HeldBytes(Runs(pieces)) == Total(pieces[first..])
    decreases |pieces|
  {
    hide Backs, Total, HeldBytes, OfRun, TotalTagged, NextRun;
    NotYet(pieces);
    NothingLater(pieces);
    if pieces != [] {
      NothingLater(pieces[..|pieces| - 1]);
    }
    if pieces != [] {
      var n := |pieces| - 1;
      var x := Runs(pieces)[n];
      BacksPush(pieces);
      NotYet(pieces[..n]);
      RunsAreBacks(pieces);
      TaggedPush(Runs(pieces[..n]), x, 0);
      assert Runs(pieces) == Runs(pieces[..n]) + [x] && x.1 == pieces[n];
      if Backs(pieces) == {} {
        HeldIsLater(pieces[..n], n);
      } else {
        if Backs(pieces[..n]) == {} {
          HeldIsLater(pieces[..n], n);
        } else {
          var j :| j in Backs(pieces[..n]);
          assert j in Backs(pieces) && j < n;
          HeldIsLater(pieces[..n], first);
        }
        TotalFrom(pieces, first);
      }
    }
  }

  lemma {:induction false} TotalFrom(ranges: seq<ByteRange>, first: nat)
    requires first < |ranges|
    ensures var n := |ranges| - 1;
            Total(ranges[first..]) == Total(ranges[..n][first..]) + ranges[n].length
  {
    var tail, n := ranges[first..], |ranges| - 1;
    assert tail[..|tail| - 1] == ranges[..n][first..];
  }

  /**
   Which pieces may be read together: those that go back in the file once to three times, none larger
   than a chunk, with at most four chunks from the first way back on.
   */
  lemma {:induction false} EligibleIs(pieces: seq<ByteRange>, chunk: nat, first: nat)
    requires if Backs(pieces) == {} then first == |pieces| else first in Backs(pieces) && forall j :: j in Backs(pieces) ==> first <= j
    ensures first <= |pieces|
    ensures Eligible(pieces, chunk) <==>
              1 <= |Backs(pieces)| <= 3 && (forall p :: p in pieces ==> p.length <= chunk) && Total(pieces[first..]) <= 4 * chunk
  {
    hide Backs, Runs, HeldBytes, Total;
    HeldIsLater(pieces, first);
    NotYet(pieces);
    if pieces != [] {
      RunsAreBacks(pieces);
    } else {
      assert Backs(pieces) == {};
    }
  }

  /** `interleaved_windows`: the greedy windows, when eligible and fewer bytes than coalescing. */
  method InterleavedWindows(pieces: seq<ByteRange>, chunk: nat) returns (r: Option<seq<Window>>)
    ensures r.Some? ==> Eligible(pieces, chunk)
    ensures r.Some? ==> GreedyWindows(SortedByOffset(Runs(pieces)), chunk, r.value)
    ensures r.Some? ==> exists plan :: GreedyReads(pieces, chunk, plan) && WindowBytes(r.value) < ReadBytes(plan)
    ensures r.None? && Eligible(pieces, chunk) ==>
              exists plan, ws :: GreedyReads(pieces, chunk, plan)
                                 && GreedyWindows(SortedByOffset(Runs(pieces)), chunk, ws)
                                 && WindowBytes(ws) >= ReadBytes(plan)
  {
    hide *;
    var tagged, eligible := TagRuns(pieces, chunk);
    if !eligible {
      return None;
    }
    EligibleSort(pieces, chunk);
    var windows := Windows(SortedByOffset(tagged), chunk);
    var plan := Coalesce(pieces, chunk);
    var merged := WindowTotal(windows);
    var separate := ReadTotal(plan);
    return if merged < separate then Some(windows) else None;
  }

  /** The first part of `interleaved_windows`: the runs, and whether they may be read together. */
  method TagRuns(pieces: seq<ByteRange>, chunk: nat) returns (tagged: seq<Tagged>, eligible: bool)
    ensures tagged == Runs(pieces) && eligible == Eligible(pieces, chunk)
  {
    tagged := [];
    var run, previousEnd := 0, 0;
    for i := 0 to |pieces|
      invariant tagged == Runs(pieces[..i])
      invariant if i == 0 then run == 0 && previousEnd == 0 else run == tagged[i - 1].0 && previousEnd == pieces[i - 1].End()
    {
      assert pieces[..i + 1][..i] == pieces[..i];
      if pieces[i].offset < previousEnd {
        run := run + 1;
      }
      previousEnd := pieces[i].End();
      tagged := tagged + [(run, pieces[i])];
    }
    assert pieces[..|pieces|] == pieces;
    if !(2 <= run + 1 <= MAX_RUNS) || exists p :: p in pieces && p.length > chunk {
      return tagged, false;
    }
    var held := 0;
    for i := 0 to |tagged|
      invariant held == HeldBytes(tagged[..i])
    {
      assert tagged[..i + 1][..i] == tagged[..i];
      if tagged[i].0 != 0 {
        held := held + tagged[i].1.length;
      }
    }
    assert tagged[..|tagged|] == tagged;
    return tagged, held <= chunk * HELD_CHUNKS;
  }

  method WindowTotal(windows: seq<Window>) returns (total: int)
    ensures total == WindowBytes(windows)
  {
    total := 0;
    for i := 0 to |windows|
      invariant total == WindowBytes(windows[..i])
    {
      assert windows[..i + 1][..i] == windows[..i];
      total := total + (windows[i].end - windows[i].start);
    }
    assert windows[..|windows|] == windows;
  }

  method ReadTotal(plan: seq<Read>) returns (total: int)
    ensures total == ReadBytes(plan)
  {
    total := 0;
    for i := 0 to |plan|
      invariant total == ReadBytes(plan[..i])
    {
      assert plan[..i + 1][..i] == plan[..i];
      total := total + Size(plan[i]);
    }
    assert plan[..|plan|] == plan;
  }

  lemma {:induction false} EligibleSort(pieces: seq<ByteRange>, chunk: nat)
    requires Eligible(pieces, chunk)
    ensures var sorted := SortedByOffset(Runs(pieces));
            Ascending(sorted) && forall x :: x in sorted ==> x.1.length <= chunk
  {
    RunsAreDisjoint(pieces, 0);
    SortedOk(Runs(pieces), 0);
    forall x | x in SortedByOffset(Runs(pieces)) ensures x.1.length <= chunk {
      var i :| 0 <= i < |pieces| && Runs(pieces)[i] == x;
      assert x.1 == pieces[i];
    }
  }

  /** The greedy loop of `interleaved_windows`. */
  method Windows(tagged: seq<Tagged>, chunk: nat) returns (windows: seq<Window>)
    requires Ascending(tagged) && forall x :: x in tagged ==> x.1.length <= chunk
    ensures GreedyWindows(tagged, chunk, windows)
  {
    hide WindowSlack, GreedyWindows;
    windows := [];
    var spent := 0;
    NoWindows(chunk);
    for i := 0 to |tagged|
      invariant GreedyWindows(tagged[..i], chunk, windows) && spent == WindowSlack(windows)
      invariant windows != [] ==> i > 0 && windows[|windows| - 1].start <= tagged[i - 1].1.offset
    {
      var x := tagged[i];
      assert tagged[..i + 1] == tagged[..i] + [x];
      if windows != [] {
        var n := |windows| - 1;
        var w := windows[n];
        var gap := Max(0, x.1.offset - w.end);
        if gap <= MAX_GAP_BYTES && spent + gap <= GAP_BUDGET_BYTES && Max(x.1.End(), w.end) - w.start <= chunk {
          assert windows == windows[..n] + [w];
          ExtendWindow(tagged[..i], chunk, windows[..n], w, x);
          spent := spent + gap;
          windows := windows[..n] + [Window(w.start, Max(w.end, x.1.End()), w.members + [x])];
          continue;
        }
      }
      StartWindow(tagged[..i], chunk, windows, x);
      windows := windows + [Window(x.1.offset, x.1.End(), [x])];
    }
    assert tagged[..|tagged|] == tagged;
  }

  lemma {:induction false} NoWindows(chunk: nat)
    ensures GreedyWindows([], chunk, []) && WindowSlack([]) == 0
  {
  }

  /** A window reads its members' bytes and its slack at most. */
  lemma {:induction false} WindowCost(members: seq<Tagged>, start: nat)
    requires members != [] && start == members[0].1.offset
    requires forall k :: 0 <= k < |members| ==> start <= members[k].1.offset
    ensures start <= Reach(members) <= start + TotalTagged(members) + Slack(members)
  {
    var init, x := members[..|members| - 1], members[|members| - 1];
    if init == [] {
      assert TotalTagged(init) == 0 && Reach(init) == 0;
    } else {
      WindowCost(init, start);
    }
  }

  lemma {:induction false} WindowsCost(tagged: seq<Tagged>, chunk: nat, ws: seq<Window>)
    requires Members(ws) == tagged && forall i :: 0 <= i < |ws| ==> WindowOk(ws[i], chunk)
    ensures WindowBytes(ws) <= TotalTagged(tagged) + WindowSlack(ws)
    decreases |ws|
  {
    if ws != [] {
      var init, w := ws[..|ws| - 1], ws[|ws| - 1];
      WindowsCost(Members(init), chunk, init);
      WindowCost(w.members, w.start);
      TaggedAppend(Members(init), w.members, 0);
    }
  }

  lemma {:induction false} RunsTotal(pieces: seq<ByteRange>)
    ensures TotalTagged(Runs(pieces)) == Total(pieces)
  {
    if pieces != [] {
      RunsTotal(pieces[..|pieces| - 1]);
      assert Runs(pieces)[..|pieces| - 1] == Runs(pieces[..|pieces| - 1]);
    }
  }

  /** Read budget of the interleaved plan: payload plus 256 KiB in all. */
  lemma {:induction false} InterleavedBudget(pieces: seq<ByteRange>, chunk: nat, ws: seq<Window>)
    requires GreedyWindows(SortedByOffset(Runs(pieces)), chunk, ws)
    ensures WindowBytes(ws) <= Total(pieces) + GAP_BUDGET_BYTES
  {
    hide SortedByOffset, MaximalWindows, WindowOk;
    RunsAreDisjoint(pieces, 0);
    SortedOk(Runs(pieces), 0);
    RunsTotal(pieces);
    WindowsCost(SortedByOffset(Runs(pieces)), chunk, ws);
  }
}
