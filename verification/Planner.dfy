/** `planOperation` as it runs: loops over running variables and copied anchors. */
module Planner {
  import opened Common
  import opened Sequences
  import opened Utf16
  import opened SessionMemory
  import opened AnchorEdits
  import opened AnchorRepin
  import opened AnchorPlan

  // ------------------------------------------------------- phase 1

  /** A text without what a deletion takes, and with what an insertion brings. */
  function Deleted(cur: Text, c: Cut): Text
    requires CutFits(|cur|, c)
  {
    cur[..c.ef] + cur[c.et..]
  }

  function Grown(mid: Text, at: int, s: Text): Text
    requires 0 <= at <= |mid|
  {
    mid[..at] + s + mid[at..]
  }

  /** What a deletion leaves of a span: the part before it, and the part after it. */
  function LeftOf(cur: Text, c: Cut, a: Anchor): Text
    requires CutFits(|cur|, c) && InText(cur, a)
  {
    (if a.from < c.ef then cur[a.from..if a.to < c.ef then a.to else c.ef] else [])
    + if c.et < a.to then cur[if a.from < c.et then c.et else a.from..a.to] else []
  }

  /** The span `b` reads, without the deleted text, what the deletion left of the span `a`. */
  predicate ReadsLeft(cur: Text, c: Cut, a: Anchor, b: Anchor)
    requires CutFits(|cur|, c) && InText(cur, a)
  {
    InText(Deleted(cur, c), b) && Deleted(cur, c)[b.from..b.to] == LeftOf(cur, c, a)
  }

  /** The span `b` reads, with the inserted text, what `a` read, and the insertion too where it is inside. */
  predicate ReadsGrown(mid: Text, c: Cut, a: Anchor, b: Anchor, inside: bool)
    requires 0 <= c.ef <= |mid| && InText(mid, a) && (inside ==> a.from <= c.ef <= a.to)
  {
    && InText(Grown(mid, c.ef, c.insert), b)
    && Grown(mid, c.ef, c.insert)[b.from..b.to] ==
       if inside then mid[a.from..c.ef] + c.insert + mid[c.ef..a.to] else mid[a.from..a.to]
  }

  /** A slice of a text that misses a stretch in the middle, by the place it starts and ends. */
  lemma {:induction false} SliceAcross<T>(s: seq<T>, ef: nat, et: nat, from: nat, to: nat)
    requires from <= ef <= et <= to <= |s|
    ensures (s[..ef] + s[et..])[from..to - (et - ef)] == s[from..ef] + s[et..to]
  {
    var l, r := (s[..ef] + s[et..])[from..to - (et - ef)], s[from..ef] + s[et..to];
    forall k | 0 <= k < |l|
      ensures l[k] == r[k]
    {
      assert l[k] == (s[..ef] + s[et..])[from + k];
    }
  }

  lemma {:induction false} SliceBefore<T>(s: seq<T>, ef: nat, et: nat, from: nat, to: nat)
    requires from <= to <= ef <= et <= |s|
    ensures (s[..ef] + s[et..])[from..to] == s[from..to]
  {
  }

  lemma {:induction false} SlicePast<T>(s: seq<T>, ef: nat, et: nat, from: nat, to: nat)
    requires ef <= et <= from <= to <= |s|
    ensures (s[..ef] + s[et..])[from - (et - ef)..to - (et - ef)] == s[from..to]
  {
    var l, r := (s[..ef] + s[et..])[from - (et - ef)..to - (et - ef)], s[from..to];
    forall k | 0 <= k < |l|
      ensures l[k] == r[k]
    {
      assert l[k] == (s[..ef] + s[et..])[from - (et - ef) + k];
    }
  }

  lemma {:induction false} CutReads(cur: Text, c: Cut, a: Anchor, b: Anchor)
    requires CutFits(|cur|, c) && InText(cur, a) && !Covers(c, a) && c.ef < c.et
    requires b.from == AfterDelete(a.from, c.ef, c.et) && b.to == AfterDelete(a.to, c.ef, c.et)
    ensures ReadsLeft(cur, c, a, b)
  {
    if a.to <= c.ef {
      SliceBefore(cur, c.ef, c.et, a.from, a.to);
    } else if a.from >= c.et {
      SlicePast(cur, c.ef, c.et, a.from, a.to);
    } else {
      var from, to := if a.from < c.ef then a.from else c.ef, if a.to > c.et then a.to else c.et;
      SliceAcross(cur, c.ef, c.et, from, to);
      assert cur[c.ef..c.ef] == [] && cur[c.et..c.et] == [];
    }
  }

  /** The deletion of one edit, on one attached anchor. */
  method CutOne(p: Planned, cur: Text, c: Cut, ctx: Context) returns (q: Planned, held: seq<Held>, partial: bool)
    requires CutFits(|cur|, c) && c.ef < c.et && Attached(p.a) && InText(cur, p.a)
    ensures q == DeleteUnder(p, c, ctx) && held == PieceOf(p.a, cur, c, ctx.foreign) && partial == Partial(c, p.a)
  {
    q, held, partial := p, [], false;
    var from, to := p.a.from, p.a.to;
    if c.ef <= from && c.et >= to {
      q := q.(touched := true);
      if ctx.foreign {
        q := q.(a := q.a.(collapsed := true, from := c.ef, to := c.ef));
        return;
      }
      var fragment := FragmentFor(ctx.fragments, ctx.edit, from - c.ef, to - c.ef);
      held := [Held(p.a.id, from - c.ef, cur[from..to], Whole)];
      q := q.(a := q.a.(detached := true, from := 0, to := 0, length := Some(to - from),
                        fragment := if fragment.Some? then Some(fragment.value.id) else None,
                        offset := if fragment.Some? then Some(from - c.ef - fragment.value.start) else None),
              isSet := true);
      return;
    }
    if from < c.et && to > c.ef {
      partial := true;
      q := q.(touched := true);
      if !ctx.foreign && c.ef <= from {
        held := [Held(p.a.id, from - c.ef, cur[from..c.et], Head)];
      } else if !ctx.foreign && c.et >= to {
        held := [Held(p.a.id, 0, cur[c.ef..to], Tail)];
      }
    }
    q := q.(a := q.a.(from := AfterDelete(from, c.ef, c.et), to := AfterDelete(to, c.ef, c.et)));
    if q.a.from != from || q.a.to != to { q := q.(moved := true); }
  }

  /** What the deletion of one edit does to an anchor. */
  predicate CutRight(cur: Text, c: Cut, ctx: Context, p: Planned, q: Planned, partial: bool)
    requires CutFits(|cur|, c) && (Attached(p.a) ==> InText(cur, p.a))
  {
    && q == DeleteUnder(p, c, ctx) && partial == Partial(c, p.a)
    && (c.ef < c.et && Attached(p.a) ==>
          if Covers(c, p.a) then !Attached(q.a) else Attached(q.a) && ReadsLeft(cur, c, p.a, q.a))
    && (partial ==> Attached(q.a) && q.a.from <= c.ef <= q.a.to)
  }

  lemma {:induction false} CutIsRight(cur: Text, c: Cut, ctx: Context, p: Planned)
    requires CutFits(|cur|, c) && (Attached(p.a) ==> InText(cur, p.a))
    ensures CutRight(cur, c, ctx, p, DeleteUnder(p, c, ctx), Partial(c, p.a))
  {
    if c.ef < c.et && Attached(p.a) && !Covers(c, p.a) { CutReads(cur, c, p.a, DeleteUnder(p, c, ctx).a); }
  }

  /** What it does to the first anchors of a file. */
  predicate CutUpTo(cur: Text, c: Cut, ctx: Context, ps: seq<Planned>, qs: seq<Planned>, partial: seq<bool>)
    requires CutFits(|cur|, c)
  {
    && |qs| == |partial| <= |ps|
    && forall i :: 0 <= i < |qs| ==>
         (Attached(ps[i].a) ==> InText(cur, ps[i].a)) && CutRight(cur, c, ctx, ps[i], qs[i], partial[i])
  }

  lemma {:induction false} OneMoreCut(cur: Text, c: Cut, ctx: Context, ps: seq<Planned>, qs: seq<Planned>,
                                      partial: seq<bool>, q: Planned, part: bool)
    requires CutFits(|cur|, c) && CutUpTo(cur, c, ctx, ps, qs, partial) && |qs| < |ps|
    requires (Attached(ps[|qs|].a) ==> InText(cur, ps[|qs|].a)) && CutRight(cur, c, ctx, ps[|qs|], q, part)
    ensures CutUpTo(cur, c, ctx, ps, qs + [q], partial + [part])
  {
  }

  /**
   * The deletion of one edit, over every anchor of the file: an anchor it
   * covers is let go, any other reads what the deletion left of it, and the
   * pieces to remember read in the deleted text at their offset.
   */
  method CutAnchors(ps: seq<Planned>, cur: Text, c: Cut, ctx: Context)
    returns (qs: seq<Planned>, held: seq<Held>, partial: seq<bool>)
    requires CutFits(|cur|, c) && Placed(cur, ps)
    ensures held == PiecesOf(ps, cur, c, ctx.foreign) && forall h <- held :: Fits(cur[c.ef..c.et], h)
    ensures |qs| == |ps| && CutUpTo(cur, c, ctx, ps, qs, partial)
  {
    qs, held, partial := [], [], [];
    PiecesFit(ps, cur, c, ctx.foreign);
    for i := 0 to |ps|
      invariant |qs| == i && CutUpTo(cur, c, ctx, ps, qs, partial)
      invariant held + PiecesOf(ps[i..], cur, c, ctx.foreign) == PiecesOf(ps, cur, c, ctx.foreign)
    {
      assert ps[i] in ps;
      var q, h, part := CutNext(ps[i], cur, c, ctx);
      PiecesUnfold(ps, cur, c, ctx.foreign, i, held);
      OneMoreCut(cur, c, ctx, ps, qs, partial, q, part);
      qs, held, partial := qs + [q], held + h, partial + [part];
    }
  }

  method CutNext(p: Planned, cur: Text, c: Cut, ctx: Context) returns (q: Planned, held: seq<Held>, partial: bool)
    requires CutFits(|cur|, c) && (Attached(p.a) ==> InText(cur, p.a))
    ensures CutRight(cur, c, ctx, p, q, partial) && held == PieceOf(p.a, cur, c, ctx.foreign)
  {
    q, held, partial := p, [], false;
    if c.ef < c.et && Attached(p.a) { q, held, partial := CutOne(p, cur, c, ctx); }
    CutIsRight(cur, c, ctx, p);
  }

  lemma {:induction false} PiecesUnfold(ps: seq<Planned>, cur: Text, c: Cut, foreign: bool, i: nat, held: seq<Held>)
    requires CutFits(|cur|, c) && Placed(cur, ps) && i < |ps|
    ensures Attached(ps[i].a) ==> InText(cur, ps[i].a)
    ensures held + PiecesOf(ps[i..], cur, c, foreign) ==
            (held + PieceOf(ps[i].a, cur, c, foreign)) + PiecesOf(ps[i + 1..], cur, c, foreign)
  {
    assert ps[i] in ps && ps[i..][0] == ps[i] && ps[i..][1..] == ps[i + 1..];
    ConcatAssociates(held, PieceOf(ps[i].a, cur, c, foreign), PiecesOf(ps[i + 1..], cur, c, foreign));
  }

  lemma {:induction false} GrowReads(mid: Text, c: Cut, a: Anchor, b: Anchor, inside: bool)
    requires 0 <= c.ef <= |mid| && InText(mid, a) && (inside ==> a.from <= c.ef <= a.to)
    requires !inside ==> c.ef <= a.from || a.to <= c.ef
    requires var n := |c.insert|;
             if inside then b.from == a.from && b.to == a.to + n
             else if c.ef <= a.from then b.from == a.from + n && b.to == a.to + n else b.from == a.from && b.to == a.to
    ensures ReadsGrown(mid, c, a, b, inside)
  {
    if inside {
      GrownAround(mid, c.ef, c.insert, a.from, a.to);
    } else if c.ef <= a.from {
      GrownBefore(mid, c.ef, c.insert, a.from, a.to);
    } else {
      GrownAfter(mid, c.ef, c.insert, a.from, a.to);
    }
  }

  lemma {:induction false} GrownAround<T>(mid: seq<T>, at: nat, s: seq<T>, from: nat, to: nat)
    requires from <= at <= to <= |mid|
    ensures (mid[..at] + s + mid[at..])[from..to + |s|] == mid[from..at] + s + mid[at..to]
  {
    var whole := mid[..at] + s + mid[at..];
    var l, r := whole[from..to + |s|], mid[from..at] + s + mid[at..to];
    forall k | 0 <= k < |l|
      ensures l[k] == r[k]
    {
      assert l[k] == whole[from + k];
    }
  }

  lemma {:induction false} GrownBefore<T>(mid: seq<T>, at: nat, s: seq<T>, from: nat, to: nat)
    requires at <= from <= to <= |mid|
    ensures (mid[..at] + s + mid[at..])[from + |s|..to + |s|] == mid[from..to]
  {
    var whole := mid[..at] + s + mid[at..];
    forall k | 0 <= k < to - from
      ensures whole[from + |s|..to + |s|][k] == mid[from..to][k]
    {
      assert whole[from + |s| + k] == mid[from + k];
    }
  }

  lemma {:induction false} GrownAfter<T>(mid: seq<T>, at: nat, s: seq<T>, from: nat, to: nat)
    requires from <= to <= at <= |mid|
    ensures (mid[..at] + s + mid[at..])[from..to] == mid[from..to]
  {
    var whole := mid[..at] + s + mid[at..];
    forall k | 0 <= k < to - from
      ensures whole[from..to][k] == mid[from..to][k]
    {
      assert whole[from + k] == mid[from + k];
    }
  }

  /** What the insertion of one edit does to an anchor; `mid` is the text without what the edit deleted. */
  predicate GrowRight(mid: Text, c: Cut, p: Planned, q: Planned, partial: bool)
    requires 0 <= c.ef <= |mid| && (Attached(p.a) ==> InText(mid, p.a))
    requires partial && Attached(p.a) ==> p.a.from <= c.ef <= p.a.to
  {
    && q == InsertUnder(p, c, partial)
    && (Attached(p.a) ==> Attached(q.a) && ReadsGrown(mid, c, p.a, q.a, partial || p.a.from < c.ef < p.a.to))
  }

  lemma {:induction false} GrowIsRight(mid: Text, c: Cut, p: Planned, partial: bool)
    requires 0 <= c.ef <= |mid| && (Attached(p.a) ==> InText(mid, p.a))
    requires partial && Attached(p.a) ==> p.a.from <= c.ef <= p.a.to
    ensures GrowRight(mid, c, p, InsertUnder(p, c, partial), partial)
  {
    if Attached(p.a) {
      GrowReads(mid, c, p.a, InsertUnder(p, c, partial).a, partial || p.a.from < c.ef < p.a.to);
    }
  }

  /** The anchors as the deletion left them in `mid`. */
  predicate CanGrow(mid: Text, c: Cut, ps: seq<Planned>, partial: seq<bool>) {
    && 0 <= c.ef <= |mid| && |partial| == |ps|
    && forall i :: 0 <= i < |ps| ==> Attached(ps[i].a) ==>
         InText(mid, ps[i].a) && (partial[i] ==> ps[i].a.from <= c.ef <= ps[i].a.to)
  }

  /**
   * The insertion of one edit, over every anchor of the file: an anchor the
   * deletion overlapped, or that the insertion is strictly inside, reads its
   * text with the insertion in it, and any other reads what it did.
   */
  method GrowAnchors(ps: seq<Planned>, ghost mid: Text, c: Cut, partial: seq<bool>) returns (qs: seq<Planned>)
    requires CanGrow(mid, c, ps, partial)
    ensures |qs| == |ps| && forall i :: 0 <= i < |ps| ==> GrowRight(mid, c, ps[i], qs[i], partial[i])
  {
    qs := ps;
    var n := |c.insert|;
    for i := 0 to |ps|
      invariant |qs| == |ps|
      invariant forall j :: 0 <= j < i ==> GrowRight(mid, c, ps[j], qs[j], partial[j])
      invariant forall j :: i <= j < |ps| ==> qs[j] == ps[j]
    {
      GrowIsRight(mid, c, ps[i], partial[i]);
      var a := ps[i].a;
      if n > 0 && Attached(a) {
        if partial[i] {
          qs := qs[i := ps[i].(a := a.(to := a.to + n), moved := true)];
        } else if c.ef <= a.from {
          qs := qs[i := ps[i].(a := a.(from := a.from + n, to := a.to + n), moved := true)];
        } else if c.ef < a.to {
          qs := qs[i := ps[i].(a := a.(to := a.to + n), moved := true)];
        }
      }
    }
  }

  /** Moves the insertions of the batch past an edit, last first. */
  method FollowInserts(inserts: seq<Insertion>, c: Cut) returns (r: seq<Insertion>)
    ensures r == FollowAll(inserts, c)
  {
    r := inserts;
    var i := |inserts|;
    while i > 0
      invariant 0 <= i <= |inserts| && i <= |r|
      invariant r[..i] == inserts[..i] && r[i..] == FollowAll(inserts[i..], c)
    {
      i := i - 1;
      var ins := r[i];
      assert inserts[i..][1..] == inserts[i + 1..];
      if c.et <= ins.at {
        r := r[i := ins.(at := ins.at + |c.insert| - (c.et - c.ef))];
      } else if c.ef >= ins.at + |ins.text| {
      } else {
        r := r[..i] + r[i + 1..];
      }
    }
  }

  /** Phase 1 of one file: its edits in order, in running coordinates. */
  method MoveAnchors(f: PlanFile, memory: MoveMemory, foreign: bool) returns (w: Work)
    requires FileOk(f)
    modifies memory
    ensures w == WorkOf(f, foreign)
    ensures memory.View() == FileMemory(old(memory.View()), f, foreign)
  {
    var st, adj, index := Start(f), 0, 0;
    assert f.edits[0..] == f.edits;
    ghost var last, m := Ahead(st, f, 0, 0, foreign), AheadMemory(memory.View(), st, f, 0, 0, foreign);
    while index < |f.edits|
      invariant 0 <= index <= |f.edits|
      invariant OnTrack(st, f, index, adj)
      invariant Ahead(st, f, index, adj, foreign) == last
      invariant AheadMemory(memory.View(), st, f, index, adj, foreign) == m
    {
      st, adj := NextEdit(st, f, index, adj, memory, foreign);
      index := index + 1;
    }
    w := Work(f.fileId, st.cur, SettledAll(st.anchors), st.inserts);
  }

  /** The loop has done `i` edits, and the rest fit the text it has made. */
  ghost predicate OnTrack(st: FileState, f: PlanFile, i: nat, adj: int) {
    i <= |f.edits| && Valid(|st.cur|, Running(f.edits[i..], adj)) && Placed(st.cur, st.anchors)
  }

  /** What the edits still to come will make of the file. */
  ghost function Ahead(st: FileState, f: PlanFile, i: nat, adj: int, foreign: bool): FileState
    requires OnTrack(st, f, i, adj)
  {
    RunFile(st, Running(f.edits[i..], adj), Context(i, f.fragments, foreign))
  }

  ghost function AheadMemory(m: Memory, st: FileState, f: PlanFile, i: nat, adj: int, foreign: bool): Memory
    requires OnTrack(st, f, i, adj)
  {
    RunMemory(m, st, Running(f.edits[i..], adj), Context(i, f.fragments, foreign))
  }

  lemma {:induction false} AheadUnfolds(m: Memory, st: FileState, f: PlanFile, i: nat, adj: int, foreign: bool,
                                       c: Cut, st': FileState, adj': int)
    requires OnTrack(st, f, i, adj) && i < |f.edits| && adj' == adj + NetChange(f.edits[i])
    requires c == Cut(f.edits[i].from + adj, f.edits[i].to + adj, f.edits[i].insert)
    requires CutFits(|st.cur|, c) && st' == StepFile(st, c, Context(i, f.fragments, foreign))
    ensures OnTrack(st', f, i + 1, adj')
    ensures Ahead(st, f, i, adj, foreign) == Ahead(st', f, i + 1, adj', foreign)
    ensures AheadMemory(m, st, f, i, adj, foreign) ==
            AheadMemory(StepMemory(m, st, c, foreign), st', f, i + 1, adj', foreign)
  {
    var cuts := Running(f.edits[i..], adj);
    assert f.edits[i..][0] == f.edits[i] && f.edits[i..][1..] == f.edits[i + 1..];
    StepPlaced(st, c, Context(i, f.fragments, foreign));
    assert cuts[1..] == Running(f.edits[i + 1..], adj');
  }

  lemma {:induction false} FirstFits(st: FileState, f: PlanFile, i: nat, adj: int)
    requires OnTrack(st, f, i, adj) && i < |f.edits|
    ensures CutFits(|st.cur|, Cut(f.edits[i].from + adj, f.edits[i].to + adj, f.edits[i].insert))
  {
    assert f.edits[i..][0] == f.edits[i];
  }

  /** The body of the loop over edits: the edit at `i`, in running coordinates. */
  method NextEdit(st: FileState, f: PlanFile, i: nat, adj: int, memory: MoveMemory, foreign: bool)
    returns (r: FileState, adj': int)
    requires OnTrack(st, f, i, adj) && i < |f.edits|
    modifies memory
    ensures OnTrack(r, f, i + 1, adj')
    ensures Ahead(r, f, i + 1, adj', foreign) == Ahead(st, f, i, adj, foreign)
    ensures AheadMemory(memory.View(), r, f, i + 1, adj', foreign) ==
            AheadMemory(old(memory.View()), st, f, i, adj, foreign)
  {
    var edit := f.edits[i];
    var c := Cut(edit.from + adj, edit.to + adj, edit.insert);
    FirstFits(st, f, i, adj);
    ghost var m := memory.View();
    r := MakeEdit(st, c, Context(i, f.fragments, foreign), memory);
    adj' := adj + |edit.insert| - (edit.to - edit.from);
    AheadUnfolds(m, st, f, i, adj, foreign, c, r, adj');
  }

  lemma {:induction false} CutCanGrow(st: FileState, c: Cut, ctx: Context, cut: seq<Planned>, partial: seq<bool>)
    requires CutFits(|st.cur|, c) && |cut| == |st.anchors| && CutUpTo(st.cur, c, ctx, st.anchors, cut, partial)
    ensures CanGrow(Deleted(st.cur, c), c, cut, partial)
  {
    forall i | 0 <= i < |cut| && Attached(cut[i].a)
      ensures InText(Deleted(st.cur, c), cut[i].a) && (partial[i] ==> cut[i].a.from <= c.ef <= cut[i].a.to)
    {
      assert CutRight(st.cur, c, ctx, st.anchors[i], cut[i], partial[i]);
    }
  }

  /** One edit of the loop: delete, follow, insert. */
  method MakeEdit(st: FileState, c: Cut, ctx: Context, memory: MoveMemory) returns (r: FileState)
    requires CutFits(|st.cur|, c) && Placed(st.cur, st.anchors)
    modifies memory
    ensures r == StepFile(st, c, ctx) && Placed(r.cur, r.anchors)
    ensures memory.View() == StepMemory(old(memory.View()), st, c, ctx.foreign)
  {
    StepPlaced(st, c, ctx);
    var cut, held, partial := CutAnchors(st.anchors, st.cur, c, ctx);
    memory.Remember(st.cur[c.ef..c.et], held);
    if c.ef == c.et && |c.insert| == 0 { return st; }
    var inserts := FollowInserts(st.inserts, c);
    CutCanGrow(st, c, ctx, cut, partial);
    var grown := GrowAnchors(cut, Deleted(st.cur, c), c, partial);
    assert grown == StepAnchors(st.anchors, c, ctx);
    if |c.insert| > 0 { inserts := inserts + [Insertion(c.ef, c.insert)]; }
    r := FileState(st.cur[..c.ef] + c.insert + st.cur[c.et..], grown, inserts);
  }

  // ------------------------------------------------------- phase 2

  /** One held piece: a rejoin at its edge, a whole anchor pinned, or nothing. */
  method PutBack(works: seq<Work>, w: nat, from: int, h: Held) returns (r: seq<Work>, applied: bool)
    requires w < |works|
    ensures applied == ApplyPiece(works, w, from, h).Some?
    ensures r == if applied then ApplyPiece(works, w, from, h).value else works
  {
    r, applied := works, false;
    if h.text == [] { return; }
    var o := OwnerOf(works, h.id);
    if o.None? { return; }
    var owner := o.value;
    var index := IndexOfId(works[owner].anchors, h.id).value;
    var p := works[owner].anchors[index];
    if from < 0 { return; }
    var to := from + |h.text|;
    var same := OccursAt(works[w].after, h.text, from);
    if !h.side.Whole? {
      var edge := if h.side.Head? then to == p.a.from else from == p.a.to;
      if !Attached(p.a) || owner != w || !edge || !same { return; }
      r := WithAnchors(works, w, works[w].anchors[index := RejoinedAt(p, h.side, from, to)]);
      return r, true;
    }
    if Attached(p.a) || p.a.length.None? { return; }
    if !same { return; }
    r := WithAnchors(works, owner, RemoveAt(works[owner].anchors, index));
    var movedFrom := if owner != w then Some(works[owner].fileId) else p.movedFrom;
    r := WithAnchors(r, w, r[w].anchors + [PinnedAt(p, works[w].fileId, from, to, movedFrom)]);
    applied := true;
  }

  method PutBackPieces(works: seq<Work>, w: nat, k: nat, ins: Insertion, hit: Hit, ghost r0: Repin)
    returns (works': seq<Work>, applied: bool)
    requires w < |works| && r0.works == works
    ensures works' == ApplyPieces(r0, w, k, ins, hit, hit.entry.held).works
    ensures applied == (ApplyPieces(r0, w, k, ins, hit, hit.entry.held).log != r0.log)
    ensures ApplyPieces(r0, w, k, ins, hit, hit.entry.held).memory == r0.memory
  {
    works', applied := works, false;
    ghost var r := r0;
    for i := 0 to |hit.entry.held|
      invariant |works'| == |works| && works' == r.works && r.memory == r0.memory
      invariant |r.log| >= |r0.log| && applied == (|r.log| > |r0.log|) && (!applied ==> r.log == r0.log)
      invariant ApplyPieces(r, w, k, ins, hit, hit.entry.held[i..]) == ApplyPieces(r0, w, k, ins, hit, hit.entry.held)
    {
      var h := hit.entry.held[i];
      assert hit.entry.held[i..][1..] == hit.entry.held[i + 1..];
      var from := ins.at + hit.at + hit.shift + h.offset;
      var next, put := PutBack(works', w, from, h);
      if put {
        r := Repin(next, r.memory, r.log + [Landing(w, k, ins, hit, h)]);
        works', applied := next, true;
      }
    }
  }

  /** One insertion: find the newest text it holds, put its pieces back, go on below. */
  method RepinOne(works: seq<Work>, w: nat, k: nat, ins: Insertion, memory: MoveMemory, ghost r0: Repin)
    returns (works': seq<Work>, ghost r: Repin)
    requires w < |works| && r0.works == works && r0.memory == memory.View() && Sound(memory.View())
    modifies memory
    ensures r == RepinInsertion(r0, w, k, ins, [], |r0.memory.entries|)
    ensures works' == r.works && memory.View() == r.memory && Sound(memory.View())
  {
    works', r := works, r0;
    var claimed: seq<Span> := [];
    var below: nat := |memory.entries|;
    var hit := memory.Find(ins.text, claimed, below);
    while hit.Some?
      invariant |works'| == |works| && works' == r.works && r.memory == memory.View() && Sound(memory.View())
      invariant hit == FindBelow(memory.View(), ins.text, claimed, below)
      invariant RepinInsertion(r, w, k, ins, claimed, below) == RepinInsertion(r0, w, k, ins, [], |r0.memory.entries|)
      decreases below
    {
      var h := hit.value;
      ghost var was := r;
      var applied: bool;
      works', applied := PutBackPieces(works', w, k, ins, h, r);
      r := ApplyPieces(r, w, k, ins, h, h.entry.held);
      assert ClaimedAfter(was, w, k, ins, h, claimed) == if applied then claimed + [ClaimOf(h)] else claimed;
      if applied {
        claimed := claimed + [ClaimOf(h)];
        DropSound(memory.View(), h.entry.key);
        memory.Drop(h.entry);
        r := r.(memory := memory.View());
      }
      assert r == AfterHit(was, w, k, ins, h);
      below := h.index;
      hit := memory.Find(ins.text, claimed, below);
    }
  }

  method RepinAll(works: seq<Work>, memory: MoveMemory) returns (works': seq<Work>)
    requires Sound(memory.View())
    modifies memory
    ensures works' == RepinFrom(Repin(works, old(memory.View()), []), 0).works
    ensures memory.View() == RepinFrom(Repin(works, old(memory.View()), []), 0).memory
  {
    ghost var start := Repin(works, memory.View(), []);
    ghost var r := start;
    works' := works;
    for w := 0 to |works|
      invariant |works'| == |works| && r.works == works' && r.memory == memory.View() && Sound(memory.View())
      invariant RepinFrom(r, w) == RepinFrom(start, 0)
    {
      var inserts := works'[w].inserts;
      ghost var r0 := r;
      for k := 0 to |inserts|
        invariant |works'| == |works| && r.works == works' && r.memory == memory.View() && Sound(memory.View())
        invariant RepinFile(r, w, inserts, k) == RepinFile(r0, w, inserts, 0)
      {
        works', r := RepinOne(works', w, k, inserts[k], memory, r);
      }
    }
  }

  // ------------------------------------------------------- the operation

  method PlanOperation(files: seq<PlanFile>, memory: MoveMemory, foreign: bool) returns (works: seq<Work>)
    requires (forall f <- files :: FileOk(f)) && Sound(memory.View())
    modifies memory
    ensures works == Plan(files, old(memory.View()), foreign).works
    ensures memory.View() == Plan(files, old(memory.View()), foreign).memory
  {
    works := [];
    ghost var m0 := memory.View();
    for i := 0 to |files|
      invariant works == WorksOf(files[..i], foreign)
      invariant Memorised(memory.View(), files[i..], foreign) == Memorised(m0, files, foreign)
    {
      assert files[i] in files && files[i..][0] == files[i] && files[i..][1..] == files[i + 1..];
      var w := MoveAnchors(files[i], memory, foreign);
      works := works + [w];
    }
    assert files[..|files|] == files;
    MemorisedSound(m0, files, foreign);
    if !foreign { works := RepinAll(works, memory); }
  }
}
