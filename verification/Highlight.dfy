/**
 * Painting annotations over a document's text nodes. Ranges may overlap and
 * cross nodes; every stretch is painted once, naming all that cover it.
 */
module Highlight {
  import opened Common
  import opened Sequences
  import opened Utf16

  /** An annotation to paint, by offsets into the joined text of the nodes. */
  datatype Item = Item(start: int, end: int)

  /** A stretch of one text node, and the same with the ranges that cover it. */
  datatype Piece = Piece(node: nat, from: nat, to: nat)

  datatype Paint = Paint(piece: Piece, names: seq<nat>)

  predicate Covers(ranges: seq<Item>, k: nat, x: int) {
    k < |ranges| && ranges[k].start <= x < ranges[k].end
  }

  predicate Distinct(s: seq<nat>) {
    forall i, j :: 0 <= i < j < |s| ==> s[i] != s[j]
  }

  /** The names are exactly the ranges that cover the character, each once. */
  ghost predicate NamesCover(ranges: seq<Item>, names: seq<nat>, x: int) {
    Distinct(names) && forall k :: k in names <==> Covers(ranges, k, x)
  }

  // ------------------------------------------------------- the table of text nodes

  /** Where each node starts in the joined text. */
  predicate StartsOk(nodes: seq<Text>, starts: seq<nat>) {
    && |starts| == |nodes|
    && (|nodes| > 0 ==> starts[0] == 0)
    && forall i :: 0 < i < |nodes| ==> starts[i] == starts[i - 1] + |nodes[i - 1]|
  }

  method Scan(nodes: seq<Text>) returns (starts: seq<nat>)
    ensures StartsOk(nodes, starts)
  {
    starts := [];
    var total := 0;
    for i := 0 to |nodes|
      invariant StartsOk(nodes[..i], starts)
      invariant total == if i == 0 then 0 else starts[i - 1] + |nodes[i - 1]|
    {
      starts := starts + [total];
      total := total + |nodes[i]|;
    }
    assert nodes[..|nodes|] == nodes;
  }

  lemma {:induction false} StartsAscend(nodes: seq<Text>, starts: seq<nat>, i: nat, j: nat)
    requires StartsOk(nodes, starts) && i < j < |nodes|
    ensures starts[i] + |nodes[i]| <= starts[j]
  {
    if i + 1 < j { StartsAscend(nodes, starts, i, j - 1); }
    assert starts[j] == starts[j - 1] + |nodes[j - 1]|;
  }

  /** The last node that starts no later than the offset. */
  method NodeAt(nodes: seq<Text>, starts: seq<nat>, offset: int) returns (lo: nat)
    requires StartsOk(nodes, starts)
    ensures |nodes| == 0 ==> lo == 0
    ensures |nodes| > 0 ==> lo < |nodes| && (lo == 0 || starts[lo] <= offset)
    ensures forall i :: lo < i < |nodes| ==> starts[i] > offset
  {
    lo := 0;
    var hi := |nodes| - 1;
    while lo < hi
      invariant 0 <= lo && (lo <= hi < |nodes| || (|nodes| == 0 && lo == 0))
      invariant lo == 0 || (lo < |nodes| && starts[lo] <= offset)
      invariant forall i :: 0 <= i && hi < i < |nodes| ==> starts[i] > offset
      decreases hi - lo
    {
      var mid := (lo + hi + 1) / 2;
      if starts[mid] <= offset {
        lo := mid;
      } else {
        forall i | mid <= i < |nodes|
          ensures starts[i] > offset
        {
          if mid < i { StartsAscend(nodes, starts, mid, i); }
        }
        hi := mid - 1;
      }
    }
  }

  predicate Within(nodes: seq<Text>, starts: seq<nat>, p: Piece, start: int, end: int)
    requires |starts| == |nodes|
  {
    && p.node < |nodes| && p.from < p.to <= |nodes[p.node]|
    && start <= starts[p.node] + p.from && starts[p.node] + p.to <= end
  }

  predicate Hits(p: Piece, n: nat, o: nat) {
    p.node == n && p.from <= o < p.to
  }

  predicate HitBy(pieces: seq<Piece>, n: nat, o: nat) {
    exists p <- pieces :: Hits(p, n, o)
  }

  predicate InSegment(nodes: seq<Text>, starts: seq<nat>, n: nat, o: nat, start: int, end: int)
    requires |starts| == |nodes|
  {
    n < |nodes| && o < |nodes[n]| && start <= starts[n] + o < end
  }

  /** The pieces lie in the segment, one node after another, and leave none of it out up to node `limit`. */
  ghost predicate PiecesUpTo(nodes: seq<Text>, starts: seq<nat>, pieces: seq<Piece>, start: int, end: int, limit: nat)
    requires |starts| == |nodes|
  {
    && (forall p <- pieces :: Within(nodes, starts, p, start, end) && p.node < limit)
    && NodesAscend(pieces)
    && forall n: nat, o: nat :: n < limit && InSegment(nodes, starts, n, o, start, end) ==> HitBy(pieces, n, o)
  }

  predicate NodesAscend(pieces: seq<Piece>) {
    forall i, j :: 0 <= i < j < |pieces| ==> pieces[i].node < pieces[j].node
  }

  ghost predicate PiecesOk(nodes: seq<Text>, starts: seq<nat>, pieces: seq<Piece>, start: int, end: int)
    requires |starts| == |nodes|
  {
    PiecesUpTo(nodes, starts, pieces, start, end, |nodes|)
  }

  function PieceOf(nodes: seq<Text>, starts: seq<nat>, i: nat, start: int, end: int): Option<Piece>
    requires |starts| == |nodes| && i < |nodes|
  {
    var nodeEnd := starts[i] + |nodes[i]|;
    var from := (if start > starts[i] then start else starts[i]) - starts[i];
    var to := (if end < nodeEnd then end else nodeEnd) - starts[i];
    if to > from then Some(Piece(i, from, to)) else None
  }

  lemma {:induction false} PieceAdded(nodes: seq<Text>, starts: seq<nat>, pieces: seq<Piece>, i: nat, start: int,
                                      end: int, p: Option<Piece>, all: seq<Piece>)
    requires |starts| == |nodes| && i < |nodes| && PiecesUpTo(nodes, starts, pieces, start, end, i)
    requires p == PieceOf(nodes, starts, i, start, end) && all == if p.Some? then pieces + [p.value] else pieces
    ensures PiecesUpTo(nodes, starts, all, start, end, i + 1)
  {
    forall n: nat, o: nat | n < i + 1 && InSegment(nodes, starts, n, o, start, end)
      ensures HitBy(all, n, o)
    {
      if n < i {
        assert HitBy(pieces, n, o);
        var q :| q in pieces && Hits(q, n, o);
        assert q in all;
      } else {
        assert p.Some? && Hits(p.value, n, o);
        assert p.value in all;
      }
    }
  }

  lemma {:induction false} NothingBefore(nodes: seq<Text>, starts: seq<nat>, first: nat, start: int, end: int)
    requires StartsOk(nodes, starts) && first <= |nodes| && (first == 0 || (first < |nodes| && starts[first] <= start))
    ensures PiecesUpTo(nodes, starts, [], start, end, first)
  {
    forall n: nat, o: nat | n < first && InSegment(nodes, starts, n, o, start, end)
      ensures false
    {
      StartsAscend(nodes, starts, n, first);
    }
  }

  lemma {:induction false} NothingAfter(nodes: seq<Text>, starts: seq<nat>, pieces: seq<Piece>, i: nat, start: int,
                                        end: int)
    requires StartsOk(nodes, starts) && i < |nodes| && starts[i] >= end && PiecesUpTo(nodes, starts, pieces, start, end, i)
    ensures PiecesOk(nodes, starts, pieces, start, end)
  {
    forall n: nat, o: nat | InSegment(nodes, starts, n, o, start, end)
      ensures HitBy(pieces, n, o)
    {
      if n > i { StartsAscend(nodes, starts, i, n); }
    }
  }

  /** The stretch of each text node a segment covers. */
  method PiecesFor(nodes: seq<Text>, starts: seq<nat>, start: int, end: int) returns (pieces: seq<Piece>)
    requires StartsOk(nodes, starts)
    ensures PiecesOk(nodes, starts, pieces, start, end)
  {
    pieces := [];
    var i := NodeAt(nodes, starts, start);
    NothingBefore(nodes, starts, i, start, end);
    while i < |nodes|
      invariant i <= |nodes| && PiecesUpTo(nodes, starts, pieces, start, end, i)
    {
      if starts[i] >= end {
        NothingAfter(nodes, starts, pieces, i, start, end);
        return;
      }
      pieces := TakePiece(nodes, starts, pieces, i, start, end);
      i := i + 1;
    }
  }

  method TakePiece(nodes: seq<Text>, starts: seq<nat>, taken: seq<Piece>, i: nat, start: int, end: int)
    returns (pieces: seq<Piece>)
    requires |starts| == |nodes| && i < |nodes| && PiecesUpTo(nodes, starts, taken, start, end, i)
    ensures PiecesUpTo(nodes, starts, pieces, start, end, i + 1)
  {
    ghost var p := PieceOf(nodes, starts, i, start, end);
    var nodeEnd := starts[i] + |nodes[i]|;
    if nodeEnd <= start {
      pieces := taken;
    } else {
      var from := (if start > starts[i] then start else starts[i]) - starts[i];
      var to := (if end < nodeEnd then end else nodeEnd) - starts[i];
      pieces := if to > from then taken + [Piece(i, from, to)] else taken;
    }
    PieceAdded(nodes, starts, taken, i, start, end, p, pieces);
  }

  // ------------------------------------------------------- the plan, character by character

  /** The names the plan gives a character. */
  function Assigned(plan: seq<Paint>, n: nat, o: nat): Option<seq<nat>> {
    if plan == [] then None
    else if Hits(plan[0].piece, n, o) then Some(plan[0].names)
    else Assigned(plan[1..], n, o)
  }

  lemma {:induction false} AssignedConcat(a: seq<Paint>, b: seq<Paint>, n: nat, o: nat)
    ensures Assigned(a + b, n, o) == if Assigned(a, n, o).Some? then Assigned(a, n, o) else Assigned(b, n, o)
  {
    if a == [] {
      assert a + b == b;
    } else {
      assert (a + b)[1..] == a[1..] + b;
      AssignedConcat(a[1..], b, n, o);
    }
  }

  function Tagged(pieces: seq<Piece>, names: seq<nat>): seq<Paint> {
    seq(|pieces|, i requires 0 <= i < |pieces| => Paint(pieces[i], names))
  }

  lemma {:induction false} AssignedTagged(pieces: seq<Piece>, names: seq<nat>, n: nat, o: nat)
    ensures Assigned(Tagged(pieces, names), n, o) == if HitBy(pieces, n, o) then Some(names) else None
  {
    if pieces != [] {
      assert Tagged(pieces, names)[1..] == Tagged(pieces[1..], names);
      AssignedTagged(pieces[1..], names, n, o);
      if HitBy(pieces, n, o) && !Hits(pieces[0], n, o) {
        var p :| p in pieces && Hits(p, n, o);
        assert p in pieces[1..];
      }
      if HitBy(pieces[1..], n, o) {
        var p :| p in pieces[1..] && Hits(p, n, o);
        assert p in pieces;
      }
    }
  }

  /** A character is given exactly the ranges that cover it, or nothing when none does. */
  ghost predicate Right(ranges: seq<Item>, names: Option<seq<nat>>, x: int) {
    match names
    case None => forall k :: !Covers(ranges, k, x)
    case Some(s) => s != [] && NamesCover(ranges, s, x)
  }

  ghost predicate CellUpTo(ranges: seq<Item>, names: Option<seq<nat>>, x: int, limit: int) {
    if x < limit then Right(ranges, names, x) else names.None?
  }

  /** The plan is right on the characters before `limit` and paints nothing past it. */
  ghost predicate PlanUpTo(ranges: seq<Item>, nodes: seq<Text>, starts: seq<nat>, plan: seq<Paint>, limit: int)
    requires |starts| == |nodes|
  {
    forall n: nat, o: nat :: n < |nodes| && o < |nodes[n]| ==> CellUpTo(ranges, Assigned(plan, n, o), starts[n] + o, limit)
  }

  ghost predicate PlanRight(ranges: seq<Item>, nodes: seq<Text>, starts: seq<nat>, plan: seq<Paint>)
    requires |starts| == |nodes|
  {
    forall n: nat, o: nat :: n < |nodes| && o < |nodes[n]| ==> Right(ranges, Assigned(plan, n, o), starts[n] + o)
  }

  /** Nothing opens or closes inside the segment, so its characters are covered alike. */
  ghost predicate Uniform(ranges: seq<Item>, start: int, end: int) {
    forall k, x :: start <= x < end ==> (Covers(ranges, k, x) <==> Covers(ranges, k, start))
  }

  lemma {:induction false} CellExtends(ranges: seq<Item>, nodes: seq<Text>, starts: seq<nat>, plan: seq<Paint>,
                                       pieces: seq<Piece>, names: seq<nat>, start: int, end: int, n: nat, o: nat)
    requires |starts| == |nodes| && start < end && n < |nodes| && o < |nodes[n]|
    requires CellUpTo(ranges, Assigned(plan, n, o), starts[n] + o, start)
    requires NamesCover(ranges, names, start) && Uniform(ranges, start, end)
    requires if names == [] then pieces == [] else PiecesOk(nodes, starts, pieces, start, end)
    ensures CellUpTo(ranges, Assigned(plan + Tagged(pieces, names), n, o), starts[n] + o, end)
  {
    AssignedConcat(plan, Tagged(pieces, names), n, o);
    AssignedTagged(pieces, names, n, o);
    var x := starts[n] + o;
    if names == [] {
      if start <= x < end {
        forall k ensures !Covers(ranges, k, x) { assert k !in names; }
      }
    } else {
      assert HitBy(pieces, n, o) <==> start <= x < end by {
        if HitBy(pieces, n, o) {
          var p :| p in pieces && Hits(p, n, o);
          assert Within(nodes, starts, p, start, end);
        }
      }
      if start <= x < end {
        forall k ensures k in names <==> Covers(ranges, k, x) {
          assert Covers(ranges, k, x) <==> Covers(ranges, k, start);
        }
      }
    }
  }

  lemma {:induction false} PlanExtends(ranges: seq<Item>, nodes: seq<Text>, starts: seq<nat>, plan: seq<Paint>,
                                       pieces: seq<Piece>, names: seq<nat>, start: int, end: int)
    requires |starts| == |nodes| && start < end && PlanUpTo(ranges, nodes, starts, plan, start)
    requires NamesCover(ranges, names, start) && Uniform(ranges, start, end)
    requires if names == [] then pieces == [] else PiecesOk(nodes, starts, pieces, start, end)
    ensures PlanUpTo(ranges, nodes, starts, plan + Tagged(pieces, names), end)
  {
    forall n: nat, o: nat | n < |nodes| && o < |nodes[n]|
      ensures CellUpTo(ranges, Assigned(plan + Tagged(pieces, names), n, o), starts[n] + o, end)
    {
      CellExtends(ranges, nodes, starts, plan, pieces, names, start, end, n, o);
    }
  }

  // ------------------------------------------------------- the sweep

  predicate Ascends(edges: seq<int>) {
    forall i, j :: 0 <= i < j < |edges| ==> edges[i] < edges[j]
  }

  /** Every boundary of a non-empty range, in order, each once. */
  ghost predicate EdgesOk(ranges: seq<Item>, edges: seq<int>) {
    && Ascends(edges)
    && forall k :: 0 <= k < |ranges| && ranges[k].start < ranges[k].end ==>
         ranges[k].start in edges && ranges[k].end in edges
  }

  /** An offset where a non-empty range starts or ends. */
  predicate IsBoundary(ranges: seq<Item>, e: int) {
    exists k :: 0 <= k < |ranges| && ranges[k].start < ranges[k].end && (e == ranges[k].start || e == ranges[k].end)
  }

  function WithEdge(edges: seq<int>, x: int): seq<int> {
    if edges == [] || x < edges[0] then [x] + edges
    else if x == edges[0] then edges
    else [edges[0]] + WithEdge(edges[1..], x)
  }

  lemma {:induction false} WithEdgeMeans(edges: seq<int>, x: int)
    requires Ascends(edges)
    ensures Ascends(WithEdge(edges, x)) && forall e :: e in WithEdge(edges, x) <==> e in edges || e == x
  {
    if edges != [] && x > edges[0] {
      WithEdgeMeans(edges[1..], x);
      var tail := WithEdge(edges[1..], x);
      forall e | e in tail ensures edges[0] < e {
        assert e == x || e in edges[1..];
      }
      assert forall e :: e in edges <==> e == edges[0] || e in edges[1..];
      FirstAscends(edges[0], tail);
    } else if edges == [] || x < edges[0] {
      FirstAscends(x, edges);
    }
  }

  lemma {:induction false} FirstAscends(x: int, edges: seq<int>)
    requires Ascends(edges) && forall e <- edges :: x < e
    ensures Ascends([x] + edges)
  {
    var all := [x] + edges;
    forall i, j | 0 <= i < j < |all|
      ensures all[i] < all[j]
    {
      assert all[j] == edges[j - 1] && edges[j - 1] in edges;
    }
  }

  method Edges(ranges: seq<Item>) returns (edges: seq<int>)
    ensures EdgesOk(ranges, edges) && forall e <- edges :: IsBoundary(ranges, e)
  {
    edges := [];
    for i := 0 to |ranges|
      invariant EdgesOk(ranges[..i], edges) && forall e <- edges :: IsBoundary(ranges, e)
    {
      if ranges[i].end > ranges[i].start {
        WithEdgeMeans(edges, ranges[i].start);
        var half := WithEdge(edges, ranges[i].start);
        WithEdgeMeans(half, ranges[i].end);
        edges := WithEdge(half, ranges[i].end);
      }
    }
    assert ranges[..|ranges|] == ranges;
  }

  lemma {:induction false} NoEdgeInside(edges: seq<int>, i: nat, e: int)
    requires Ascends(edges) && i + 1 < |edges| && e in edges
    ensures e <= edges[i] || edges[i + 1] <= e
  {
    var j :| 0 <= j < |edges| && edges[j] == e;
    assert j < i ==> edges[j] < edges[i];
    assert j > i + 1 ==> edges[i + 1] < edges[j];
  }

  lemma {:induction false} SegmentIsUniform(ranges: seq<Item>, edges: seq<int>, i: nat)
    requires EdgesOk(ranges, edges) && i + 1 < |edges|
    ensures Uniform(ranges, edges[i], edges[i + 1])
  {
    forall k: nat, x | edges[i] <= x < edges[i + 1]
      ensures Covers(ranges, k, x) <==> Covers(ranges, k, edges[i])
    {
      if k < |ranges| && ranges[k].start < ranges[k].end {
        NoEdgeInside(edges, i, ranges[k].start);
        NoEdgeInside(edges, i, ranges[k].end);
      }
    }
  }

  /** What is active as the sweep reaches an edge: the ranges begun before it and not closed before it. */
  ghost predicate ActiveBefore(ranges: seq<Item>, active: seq<nat>, x: int) {
    Distinct(active) && forall k: nat :: k in active <==> k < |ranges| && ranges[k].start < x <= ranges[k].end
  }

  lemma {:induction false} ActiveCarriesOver(ranges: seq<Item>, edges: seq<int>, i: nat, active: seq<nat>)
    requires EdgesOk(ranges, edges) && i + 1 < |edges| && NamesCover(ranges, active, edges[i])
    ensures ActiveBefore(ranges, active, edges[i + 1])
  {
    assert edges[i] < edges[i + 1];
    forall k: nat
      ensures k in active <==> k < |ranges| && ranges[k].start < edges[i + 1] <= ranges[k].end
    {
      assert k in active <==> Covers(ranges, k, edges[i]);
      if k < |ranges| && ranges[k].start < ranges[k].end {
        NoEdgeInside(edges, i, ranges[k].start);
        NoEdgeInside(edges, i, ranges[k].end);
      }
    }
  }

  /** The non-empty ranges that start at an edge. */
  predicate Opens(ranges: seq<Item>, k: nat, x: int) {
    k < |ranges| && ranges[k].start == x && ranges[k].start < ranges[k].end
  }

  function OpenedAt(opening: map<int, seq<nat>>, x: int): seq<nat> {
    if x in opening then opening[x] else []
  }

  ghost predicate OpeningOk(ranges: seq<Item>, opening: map<int, seq<nat>>) {
    forall x, k :: k in OpenedAt(opening, x) <==> Opens(ranges, k, x)
  }

  lemma {:induction false} OpeningGrows(ranges: seq<Item>, i: nat, opening: map<int, seq<nat>>,
                                        opening': map<int, seq<nat>>)
    requires i < |ranges| && OpeningOk(ranges[..i], opening)
    requires opening' == if ranges[i].end > ranges[i].start
                         then opening[ranges[i].start := OpenedAt(opening, ranges[i].start) + [i]] else opening
    ensures OpeningOk(ranges[..i + 1], opening')
  {
    forall x, k
      ensures k in OpenedAt(opening', x) <==> Opens(ranges[..i + 1], k, x)
    {
      assert k in OpenedAt(opening, x) <==> Opens(ranges[..i], k, x);
      assert k in OpenedAt(opening', x) <==> k in OpenedAt(opening, x) || (k == i && Opens(ranges, i, x));
    }
  }

  method Opening(ranges: seq<Item>) returns (opening: map<int, seq<nat>>)
    ensures OpeningOk(ranges, opening)
  {
    opening := map[];
    for i := 0 to |ranges|
      invariant OpeningOk(ranges[..i], opening)
    {
      ghost var before := opening;
      if ranges[i].end > ranges[i].start {
        opening := opening[ranges[i].start := OpenedAt(opening, ranges[i].start) + [i]];
      }
      OpeningGrows(ranges, i, before, opening);
    }
    assert ranges[..|ranges|] == ranges;
  }

  method Open(active: seq<nat>, begun: seq<nat>) returns (all: seq<nat>)
    requires Distinct(active)
    ensures Distinct(all) && forall k :: k in all <==> k in active || k in begun
  {
    all := active;
    for i := 0 to |begun|
      invariant Distinct(all) && forall k :: k in all <==> k in active || k in begun[..i]
    {
      assert begun[..i + 1] == begun[..i] + [begun[i]];
      if begun[i] !in all { all := all + [begun[i]]; }
    }
    assert begun[..|begun|] == begun;
  }

  method Close(ranges: seq<Item>, all: seq<nat>, x: int) returns (active: seq<nat>)
    requires Distinct(all) && forall k <- all :: k < |ranges|
    ensures Distinct(active) && forall k :: k in active <==> k in all && k < |ranges| && x < ranges[k].end
  {
    active := [];
    for i := 0 to |all|
      invariant Distinct(active) && forall k :: k in active <==> k in all[..i] && k < |ranges| && x < ranges[k].end
    {
      assert all[..i + 1] == all[..i] + [all[i]] && all[i] in all && all[i] !in all[..i];
      if ranges[all[i]].end > x { active := active + [all[i]]; }
    }
    assert all[..|all|] == all;
  }

  /** Opens the ranges that start at an edge and closes those that end by it. */
  method Advance(ranges: seq<Item>, opening: map<int, seq<nat>>, active0: seq<nat>, x: int) returns (active: seq<nat>)
    requires OpeningOk(ranges, opening) && ActiveBefore(ranges, active0, x)
    ensures NamesCover(ranges, active, x)
  {
    var begun := OpenedAt(opening, x);
    var all := Open(active0, begun);
    forall k: nat
      ensures k in all <==>
              k < |ranges| && ranges[k].start <= x && (ranges[k].start < x <= ranges[k].end || Opens(ranges, k, x))
    {
      assert k in begun <==> Opens(ranges, k, x);
    }
    active := Close(ranges, all, x);
  }

  // ------------------------------------------------------- the plan can be painted from its end

  /** Within a node, a later piece starts where the earlier ones have ended. */
  predicate Ordered(plan: seq<Paint>) {
    plan == [] ||
    (Ordered(plan[..|plan| - 1]) && forall p <- plan[..|plan| - 1] :: Follows(p.piece, plan[|plan| - 1].piece))
  }

  predicate Follows(p: Piece, q: Piece) {
    p.node == q.node ==> p.to <= q.from
  }

  predicate Fits(nodes: seq<Text>, starts: seq<nat>, plan: seq<Paint>, limit: int)
    requires |starts| == |nodes|
  {
    forall p <- plan :: Within(nodes, starts, p.piece, 0, limit)
  }

  lemma {:induction false} LaterFollows(nodes: seq<Text>, starts: seq<nat>, p: Piece, q: Piece, start: int, end: int)
    requires |starts| == |nodes| && Within(nodes, starts, p, 0, start) && Within(nodes, starts, q, start, end)
    ensures Follows(p, q)
  {
  }

  lemma {:induction false} FitsExtends(nodes: seq<Text>, starts: seq<nat>, plan: seq<Paint>, pieces: seq<Piece>,
                                       names: seq<nat>, start: int, end: int)
    requires |starts| == |nodes| && Fits(nodes, starts, plan, start) && start <= end
    requires forall p <- pieces :: Within(nodes, starts, p, start, end)
    ensures Fits(nodes, starts, plan + Tagged(pieces, names), end)
  {
    forall p <- plan + Tagged(pieces, names)
      ensures Within(nodes, starts, p.piece, 0, end)
    {
      if p in plan {
        assert Within(nodes, starts, p.piece, 0, start);
      } else {
        assert p.piece in pieces;
      }
    }
  }

  lemma {:induction false} OrderExtends(nodes: seq<Text>, starts: seq<nat>, plan: seq<Paint>, pieces: seq<Piece>,
                                        names: seq<nat>, start: int, end: int)
    requires |starts| == |nodes| && Ordered(plan) && Fits(nodes, starts, plan, start)
    requires NodesAscend(pieces) && forall p <- pieces :: Within(nodes, starts, p, start, end)
    ensures Ordered(plan + Tagged(pieces, names))
    decreases |pieces|
  {
    if pieces == [] {
      assert plan + Tagged(pieces, names) == plan;
    } else {
      var last, front := pieces[|pieces| - 1], pieces[..|pieces| - 1];
      OrderExtends(nodes, starts, plan, front, names, start, end);
      var before, after := plan + Tagged(front, names), plan + Tagged(pieces, names);
      assert after == before + [Paint(last, names)] && after[..|after| - 1] == before;
      AllFollowed(nodes, starts, plan, front, names, last, start, end);
    }
  }

  lemma {:induction false} AllFollowed(nodes: seq<Text>, starts: seq<nat>, plan: seq<Paint>, front: seq<Piece>,
                                       names: seq<nat>, last: Piece, start: int, end: int)
    requires |starts| == |nodes| && Fits(nodes, starts, plan, start) && Within(nodes, starts, last, start, end)
    requires forall p <- front :: p.node < last.node
    ensures forall p <- plan + Tagged(front, names) :: Follows(p.piece, last)
  {
    forall p <- plan + Tagged(front, names)
      ensures Follows(p.piece, last)
    {
      if p in plan {
        LaterFollows(nodes, starts, p.piece, last, start, end);
      } else {
        assert p.piece in front;
      }
    }
  }

  /** The plan so far: right up to `limit`, and paintable. */
  ghost predicate OnTrack(ranges: seq<Item>, nodes: seq<Text>, starts: seq<nat>, plan: seq<Paint>, limit: int)
    requires |starts| == |nodes|
  {
    PlanUpTo(ranges, nodes, starts, plan, limit) && Ordered(plan) && Fits(nodes, starts, plan, limit)
  }

  method Segment(ranges: seq<Item>, nodes: seq<Text>, starts: seq<nat>, plan0: seq<Paint>, active: seq<nat>,
                 start: int, end: int)
    returns (plan: seq<Paint>)
    requires StartsOk(nodes, starts) && start < end && OnTrack(ranges, nodes, starts, plan0, start)
    requires NamesCover(ranges, active, start) && Uniform(ranges, start, end)
    ensures OnTrack(ranges, nodes, starts, plan, end)
  {
    var pieces := [];
    if active != [] { pieces := PiecesFor(nodes, starts, start, end); }
    PlanExtends(ranges, nodes, starts, plan0, pieces, active, start, end);
    OrderExtends(nodes, starts, plan0, pieces, active, start, end);
    FitsExtends(nodes, starts, plan0, pieces, active, start, end);
    plan := plan0 + Tagged(pieces, active);
  }

  lemma {:induction false} BeforeEveryEdge(ranges: seq<Item>, nodes: seq<Text>, starts: seq<nat>, edges: seq<int>)
    requires |starts| == |nodes| && EdgesOk(ranges, edges)
    ensures edges == [] ==> PlanRight(ranges, nodes, starts, [])
    ensures edges != [] ==> PlanUpTo(ranges, nodes, starts, [], edges[0]) && ActiveBefore(ranges, [], edges[0])
  {
    forall k: nat, x | Covers(ranges, k, x)
      ensures edges != [] && edges[0] <= ranges[k].start <= x
    {
      assert ranges[k].start in edges;
    }
  }

  lemma {:induction false} AfterEveryEdge(ranges: seq<Item>, nodes: seq<Text>, starts: seq<nat>, edges: seq<int>,
                                          plan: seq<Paint>)
    requires |starts| == |nodes| && EdgesOk(ranges, edges) && edges != []
    requires PlanUpTo(ranges, nodes, starts, plan, edges[|edges| - 1])
    ensures PlanRight(ranges, nodes, starts, plan)
  {
    forall k: nat, x | Covers(ranges, k, x)
      ensures x < edges[|edges| - 1]
    {
      assert ranges[k].end in edges;
    }
    forall n: nat, o: nat | n < |nodes| && o < |nodes[n]|
      ensures Right(ranges, Assigned(plan, n, o), starts[n] + o)
    {
      assert CellUpTo(ranges, Assigned(plan, n, o), starts[n] + o, edges[|edges| - 1]);
    }
  }

  /**
   * The sweep: the edges in order, each range opened at its start and closed
   * at its end, the covering set carried along.
   */
  method Sweep(ranges: seq<Item>, nodes: seq<Text>, starts: seq<nat>) returns (plan: seq<Paint>)
    requires StartsOk(nodes, starts)
    ensures PlanRight(ranges, nodes, starts, plan) && Ordered(plan)
    ensures forall p <- plan :: p.piece.node < |nodes| && p.piece.from < p.piece.to <= |nodes[p.piece.node]|
  {
    var edges := Edges(ranges);
    var opening := Opening(ranges);
    var active: seq<nat> := [];
    plan := [];
    BeforeEveryEdge(ranges, nodes, starts, edges);
    if edges == [] { return; }
    var i := 0;
    while i + 1 < |edges|
      invariant i < |edges| && ActiveBefore(ranges, active, edges[i]) && OnTrack(ranges, nodes, starts, plan, edges[i])
    {
      active := Advance(ranges, opening, active, edges[i]);
      SegmentIsUniform(ranges, edges, i);
      ActiveCarriesOver(ranges, edges, i, active);
      plan := Segment(ranges, nodes, starts, plan, active, edges[i], edges[i + 1]);
      i := i + 1;
    }
    AfterEveryEdge(ranges, nodes, starts, edges, plan);
  }

  // ------------------------------------------------------- painting

  /** A text node split off by a paint; `names` is the mark it is in, if any. */
  datatype Leaf = Leaf(text: Text, names: Option<seq<nat>>)

  /** A text node of the table, which keeps the text before its first mark, and what was split off after it. */
  datatype Node = Node(head: Text, rest: seq<Leaf>)

  function LeafText(rest: seq<Leaf>): Text {
    if rest == [] then [] else rest[0].text + LeafText(rest[1..])
  }

  function NodeText(node: Node): Text {
    node.head + LeafText(node.rest)
  }

  function LeafNames(rest: seq<Leaf>, o: nat): Option<seq<nat>> {
    if rest == [] then None
    else if o < |rest[0].text| then rest[0].names
    else LeafNames(rest[1..], o - |rest[0].text|)
  }

  /** The mark that holds a character of the node's text, if any. */
  function NamesAt(node: Node, o: nat): Option<seq<nat>> {
    if o < |node.head| then None else LeafNames(node.rest, o - |node.head|)
  }

  predicate CanPaintNode(node: Node, p: Piece) {
    p.from <= p.to <= |node.head|
  }

  /** Surrounding a stretch: the node keeps what comes before it, and the mark and the tail follow. */
  function PaintNode(node: Node, p: Piece, names: seq<nat>): Node
    requires CanPaintNode(node, p)
  {
    Node(node.head[..p.from], [Leaf(node.head[p.from..p.to], Some(names)), Leaf(node.head[p.to..], None)] + node.rest)
  }

  lemma {:induction false} PaintNodeText(node: Node, p: Piece, names: seq<nat>)
    requires CanPaintNode(node, p)
    ensures NodeText(PaintNode(node, p, names)) == NodeText(node)
  {
    var a, b := Leaf(node.head[p.from..p.to], Some(names)), Leaf(node.head[p.to..], None);
    var rest := [a, b] + node.rest;
    assert rest[1..] == [b] + node.rest && rest[1..][1..] == node.rest;
    assert LeafText(rest) == a.text + (b.text + LeafText(node.rest));
    assert node.head == node.head[..p.from] + (node.head[p.from..p.to] + node.head[p.to..]);
    ConcatAssociates(a.text, b.text, LeafText(node.rest));
    ConcatAssociates(node.head[..p.from], a.text + b.text, LeafText(node.rest));
  }

  lemma {:induction false} PaintNodeNames(node: Node, p: Piece, names: seq<nat>, o: nat)
    requires CanPaintNode(node, p)
    ensures NamesAt(PaintNode(node, p, names), o) == if p.from <= o < p.to then Some(names) else NamesAt(node, o)
  {
    var a, b := Leaf(node.head[p.from..p.to], Some(names)), Leaf(node.head[p.to..], None);
    var rest := [a, b] + node.rest;
    assert rest[1..] == [b] + node.rest && rest[1..][1..] == node.rest;
    if p.from <= o {
      assert LeafNames(rest, o - p.from) == if o < p.to then Some(names) else LeafNames(rest[1..], o - p.to);
      if p.to <= o {
        assert LeafNames(rest[1..], o - p.to) == if o < |node.head| then None else LeafNames(node.rest, o - |node.head|);
      }
    }
  }

  /** Every paint finds its stretch in the node it names, painting from the last. */
  predicate CanPaint(doc: seq<Node>, plan: seq<Paint>)
    decreases |plan|
  {
    plan == [] ||
    (var p := plan[|plan| - 1];
     p.piece.node < |doc| && CanPaintNode(doc[p.piece.node], p.piece) && CanPaint(PaintLast(doc, p), plan[..|plan| - 1]))
  }

  function PaintLast(doc: seq<Node>, p: Paint): seq<Node>
    requires p.piece.node < |doc| && CanPaintNode(doc[p.piece.node], p.piece)
  {
    doc[p.piece.node := PaintNode(doc[p.piece.node], p.piece, p.names)]
  }

  function Painted(doc: seq<Node>, plan: seq<Paint>): seq<Node>
    requires CanPaint(doc, plan)
    decreases |plan|
  {
    if plan == [] then doc else Painted(PaintLast(doc, plan[|plan| - 1]), plan[..|plan| - 1])
  }

  predicate FitsHeads(doc: seq<Node>, plan: seq<Paint>) {
    forall p <- plan :: p.piece.node < |doc| && CanPaintNode(doc[p.piece.node], p.piece)
  }

  /** Painting right to left, the offsets of the pieces still to paint stay good. */
  lemma {:induction false} OrderedCanPaint(doc: seq<Node>, plan: seq<Paint>)
    requires Ordered(plan) && FitsHeads(doc, plan)
    ensures CanPaint(doc, plan)
    decreases |plan|
  {
    if plan != [] {
      var last, front := plan[|plan| - 1], plan[..|plan| - 1];
      assert last in plan;
      var doc' := PaintLast(doc, last);
      forall p <- front
        ensures p.piece.node < |doc'| && CanPaintNode(doc'[p.piece.node], p.piece)
      {
        assert p in plan && Follows(p.piece, last.piece);
      }
      OrderedCanPaint(doc', front);
    }
  }

  /** Painting changes no text. */
  lemma {:induction false} PaintingKeepsText(doc: seq<Node>, plan: seq<Paint>, n: nat)
    requires CanPaint(doc, plan) && n < |doc|
    ensures |Painted(doc, plan)| == |doc| && NodeText(Painted(doc, plan)[n]) == NodeText(doc[n])
    decreases |plan|
  {
    if plan != [] {
      var p := plan[|plan| - 1];
      PaintNodeText(doc[p.piece.node], p.piece, p.names);
      PaintingKeepsText(PaintLast(doc, p), plan[..|plan| - 1], n);
    }
  }

  /** Painting puts each character in the mark the plan gives it. */
  lemma {:induction false} PaintingFollowsPlan(doc: seq<Node>, plan: seq<Paint>, n: nat, o: nat)
    requires CanPaint(doc, plan) && n < |doc|
    ensures |Painted(doc, plan)| == |doc|
    ensures NamesAt(Painted(doc, plan)[n], o) ==
            if Assigned(plan, n, o).Some? then Assigned(plan, n, o) else NamesAt(doc[n], o)
    decreases |plan|
  {
    if plan != [] {
      var p, front := plan[|plan| - 1], plan[..|plan| - 1];
      PaintNodeNames(doc[p.piece.node], p.piece, p.names, o);
      PaintingFollowsPlan(PaintLast(doc, p), front, n, o);
      assert plan == front + [p];
      AssignedConcat(front, [p], n, o);
      assert [p][1..] == [];
      assert Assigned([p], n, o) == if Hits(p.piece, n, o) then Some(p.names) else None;
    }
  }

  /** Wraps the pieces of a plan in their marks, last first. */
  method PaintPlan(doc: array<Node>, plan: seq<Paint>)
    requires CanPaint(doc[..], plan)
    modifies doc
    ensures CanPaint(old(doc[..]), plan) && doc[..] == Painted(old(doc[..]), plan)
  {
    ghost var want := Painted(doc[..], plan);
    var i := |plan|;
    assert plan[..i] == plan;
    while i > 0
      invariant 0 <= i <= |plan| && CanPaint(doc[..], plan[..i]) && Painted(doc[..], plan[..i]) == want
    {
      i := i - 1;
      var p := plan[i];
      ghost var todo := plan[..i + 1];
      assert todo[i] == p && todo[..i] == plan[..i];
      ghost var next := PaintLast(doc[..], p);
      doc[p.piece.node] := PaintNode(doc[p.piece.node], p.piece, p.names);
      assert doc[..] == next;
    }
  }

  // ------------------------------------------------------- the whole repaint

  function Joined(nodes: seq<Text>): Text {
    if nodes == [] then [] else Joined(nodes[..|nodes| - 1]) + nodes[|nodes| - 1]
  }

  lemma {:induction false} StartsAreOffsets(nodes: seq<Text>, starts: seq<nat>, n: nat)
    requires StartsOk(nodes, starts) && n < |nodes|
    ensures starts[n] == |Joined(nodes[..n])|
  {
    if n > 0 {
      StartsAreOffsets(nodes, starts, n - 1);
      assert nodes[..n][..n - 1] == nodes[..n - 1];
      assert starts[n] == starts[n - 1] + |nodes[n - 1]|;
    }
  }

  /** Where a character of a node is in the joined text. */
  function OffsetOf(nodes: seq<Text>, n: nat, o: nat): nat
    requires n <= |nodes|
  {
    |Joined(nodes[..n])| + o
  }

  function Texts(doc: seq<Node>): seq<Text> {
    seq(|doc|, i requires 0 <= i < |doc| => NodeText(doc[i]))
  }

  function Pristine(nodes: seq<Text>): seq<Node> {
    seq(|nodes|, i requires 0 <= i < |nodes| => Node(nodes[i], []))
  }

  /**
   * A painted document: its text is the one it had, and each character is in
   * a mark naming exactly the ranges that cover it, or in none.
   */
  ghost predicate PaintedRight(ranges: seq<Item>, nodes: seq<Text>, doc: seq<Node>) {
    && Texts(doc) == nodes
    && forall n: nat, o: nat :: n < |doc| && n < |nodes| && o < |nodes[n]| ==>
         Right(ranges, NamesAt(doc[n], o), OffsetOf(nodes, n, o))
  }

  lemma {:induction false} SweepAndPaint(ranges: seq<Item>, nodes: seq<Text>, starts: seq<nat>, plan: seq<Paint>)
    requires StartsOk(nodes, starts) && PlanRight(ranges, nodes, starts, plan) && CanPaint(Pristine(nodes), plan)
    ensures PaintedRight(ranges, nodes, Painted(Pristine(nodes), plan))
  {
    var doc := Pristine(nodes);
    var done := Painted(doc, plan);
    if nodes == [] { PaintingKeepsLength(doc, plan); }
    forall n: nat | n < |nodes|
      ensures |done| == |nodes| && NodeText(done[n]) == nodes[n]
    {
      PaintingKeepsText(doc, plan, n);
      assert LeafText([]) == [];
    }
    assert Texts(done) == nodes;
    forall n: nat, o: nat | n < |done| && n < |nodes| && o < |nodes[n]|
      ensures Right(ranges, NamesAt(done[n], o), OffsetOf(nodes, n, o))
    {
      PaintingFollowsPlan(doc, plan, n, o);
      StartsAreOffsets(nodes, starts, n);
      assert NamesAt(doc[n], o) == None;
      assert Right(ranges, Assigned(plan, n, o), starts[n] + o);
    }
  }

  lemma {:induction false} PaintingKeepsLength(doc: seq<Node>, plan: seq<Paint>)
    requires CanPaint(doc, plan)
    ensures |Painted(doc, plan)| == |doc|
    decreases |plan|
  {
    if plan != [] { PaintingKeepsLength(PaintLast(doc, plan[|plan| - 1]), plan[..|plan| - 1]); }
  }

  /** Takes the marks away and joins what they split. */
  method Restore(doc: array<Node>) returns (nodes: seq<Text>)
    modifies doc
    ensures nodes == Texts(old(doc[..])) && doc[..] == Pristine(nodes)
  {
    nodes := [];
    for i := 0 to doc.Length
      invariant nodes == Texts(old(doc[..])[..i])
      invariant doc[..i] == Pristine(nodes) && doc[i..] == old(doc[..])[i..]
    {
      var whole := NodeText(doc[i]);
      assert doc[i] == old(doc[..])[i];
      doc[i] := Node(whole, []);
      nodes := nodes + [whole];
    }
  }

  /** Repaints a document, whatever was painted on it before. */
  method Highlight(doc: array<Node>, ranges: seq<Item>)
    modifies doc
    ensures PaintedRight(ranges, Texts(old(doc[..])), doc[..])
  {
    var nodes := Restore(doc);
    var starts := Scan(nodes);
    var plan := Sweep(ranges, nodes, starts);
    OrderedCanPaint(Pristine(nodes), plan);
    PaintPlan(doc, plan);
    SweepAndPaint(ranges, nodes, starts, plan);
  }
}
