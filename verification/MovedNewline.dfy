/**
 * A linewise paste puts the newline of the text at the other end. A piece that
 * holds it is pinned one character beside the span its hit claimed, and two
 * hits of one insertion can then pin the same character.
 */
module MovedNewline {
  import opened Common
  import opened Utf16
  import opened SessionMemory
  import opened AnchorEdits
  import opened AnchorRepin
  import opened AnchorRepinRuns
  import opened AnchorPlan
  import opened CutPaste

  // ------------------------------------------------------- two hits in one insertion

  function HeldWhole(id: string, text: Text): Held {
    Held(id, 0, text, Whole)
  }

  /** A remembered text that is one comment's, found in the insertion. */
  datatype Cutting = Cutting(e: Entry, p: Planned, f: Found)

  function HeldOf(c: Cutting): Held {
    HeldWhole(c.p.a.id, c.e.text)
  }

  function ClaimSpan(c: Cutting): Span {
    Span(c.f.at, c.f.at + |c.e.text|)
  }

  function PinOf(ins: Insertion, c: Cutting): int {
    ins.at + c.f.at + c.f.shift
  }

  function LandingOf(ins: Insertion, c: Cutting): Application {
    Application(0, 0, ClaimSpan(c), c.e.key, HeldOf(c), PinOf(ins, c))
  }

  function PinnedBy(w: Work, ins: Insertion, c: Cutting): Planned {
    PinnedAt(c.p, w.fileId, PinOf(ins, c), PinOf(ins, c) + |c.e.text|, c.p.movedFrom)
  }

  /** The comment waits for exactly this text, which reads where its hit puts it. */
  predicate Lands(w: Work, ins: Insertion, c: Cutting) {
    && c.e.text != [] && c.e.held == [HeldOf(c)] && Waits(c.p)
    && Locate(ins.text, c.e.text) == Some(c.f)
    && PinOf(ins, c) >= 0 && OccursAt(w.after, c.e.text, PinOf(ins, c))
  }

  lemma {:induction false} Replaced(w: Work, p: Planned, q: Planned)
    ensures var out := WithAnchors([w], 0, [p]);
            WithAnchors(out, 0, out[0].anchors + [q]) == [w.(anchors := [p, q])]
  {
    assert [p] + [q] == [p, q];
  }

  lemma {:induction false} PinSecond(w: Work, ins: Insertion, p: Planned, c: Cutting)
    requires w.anchors == [p, c.p] && p.a.id != c.p.a.id && Lands(w, ins, c)
    ensures ApplyPiece([w], 0, PinOf(ins, c), HeldOf(c)) == Some([w.(anchors := [p, PinnedBy(w, ins, c)])])
  {
    var ps := w.anchors;
    assert ps[1..] == [c.p];
    assert IndexOfId(ps[1..], c.p.a.id) == Some(0);
    assert IndexOfId(ps, c.p.a.id) == Some(1);
    assert OwnerOf([w], c.p.a.id) == Some(0);
    assert RemoveAt(ps, 1) == [p];
    Replaced(w, p, PinnedBy(w, ins, c));
  }

  lemma {:induction false} PinFirst(w: Work, ins: Insertion, p: Planned, c: Cutting)
    requires w.anchors == [c.p, p] && p.a.id != c.p.a.id && Lands(w, ins, c)
    ensures ApplyPiece([w], 0, PinOf(ins, c), HeldOf(c)) == Some([w.(anchors := [p, PinnedBy(w, ins, c)])])
  {
    var ps := w.anchors;
    assert IndexOfId(ps, c.p.a.id) == Some(0);
    assert OwnerOf([w], c.p.a.id) == Some(0);
    assert RemoveAt(ps, 0) == [p];
    Replaced(w, p, PinnedBy(w, ins, c));
  }

  /** A hit with one piece that applies. */
  lemma {:induction false} OnePieceHit(r: Repin, ins: Insertion, c: Cutting, index: nat, works: seq<Work>, claimed: seq<Span>)
    requires |r.works| == 1 && c.e.held == [HeldOf(c)]
    requires ApplyPiece(r.works, 0, PinOf(ins, c), HeldOf(c)) == Some(works)
    ensures var hit := Hit(c.e, index, c.f.at, c.f.shift);
            && AfterHit(r, 0, 0, ins, hit) == Repin(works, Dropped(r.memory, c.e.key), r.log + [LandingOf(ins, c)])
            && ClaimedAfter(r, 0, 0, ins, hit, claimed) == claimed + [ClaimSpan(c)]
  {
    var hit, x := Hit(c.e, index, c.f.at, c.f.shift), LandingOf(ins, c);
    var next := Repin(works, r.memory, r.log + [x]);
    assert Landing(0, 0, ins, hit, HeldOf(c)) == x && [HeldOf(c)][1..] == [];
    assert ApplyPieces(next, 0, 0, ins, hit, []) == next;
    assert ApplyPieces(r, 0, 0, ins, hit, [HeldOf(c)]) == next;
    assert |next.log| == |r.log| + 1;
  }

  lemma {:induction false} Dropping(m: Memory, a: Entry, b: Entry)
    requires m.entries == [a, b] && a.key != b.key
    ensures Dropped(m, b.key).entries == [a]
  {
    var es := m.entries;
    assert es[1..] == [b] && [b][1..] == [];
    assert Without([b], b.key) == [];
  }

  /** Both hits of an insertion that holds an older and a newer text on disjoint claims. */
  lemma {:induction false} BothHits(r: Repin, w: Work, ins: Insertion, o: Cutting, n: Cutting)
    requires r.works == [w] && w.anchors == [o.p, n.p] && o.p.a.id != n.p.a.id && r.log == []
    requires r.memory.entries == [o.e, n.e] && o.e.key != n.e.key
    requires Lands(w, ins, o) && Lands(w, ins, n) && !Overlap(ClaimSpan(o), ClaimSpan(n))
    ensures var r' := RepinInsertion(r, 0, 0, ins, [], 2);
            && r'.works == [w.(anchors := [PinnedBy(w, ins, n), PinnedBy(w, ins, o)])]
            && r'.log == [LandingOf(ins, n), LandingOf(ins, o)]
  {
    var w1 := w.(anchors := [o.p, PinnedBy(w, ins, n)]);
    var r1 := Repin([w1], Dropped(r.memory, n.e.key), [LandingOf(ins, n)]);
    assert FindBelow(r.memory, ins.text, [], 2) == Some(Hit(n.e, 1, n.f.at, n.f.shift));
    PinSecond(w, ins, o.p, n);
    OnePieceHit(r, ins, n, 1, [w1], []);
    Dropping(r.memory, o.e, n.e);
    assert [] + [ClaimSpan(n)] == [ClaimSpan(n)] && r.log + [LandingOf(ins, n)] == r1.log;
    assert RepinInsertion(r, 0, 0, ins, [], 2) == RepinInsertion(r1, 0, 0, ins, [ClaimSpan(n)], 1);
    OlderHit(r1, w1, ins, PinnedBy(w, ins, n), o, ClaimSpan(n));
    assert r1.log + [LandingOf(ins, o)] == [LandingOf(ins, n), LandingOf(ins, o)];
    assert PinnedBy(w1, ins, o) == PinnedBy(w, ins, o);
  }

  lemma {:induction false} OlderHit(r: Repin, w: Work, ins: Insertion, p: Planned, o: Cutting, claim: Span)
    requires r.works == [w] && w.anchors == [o.p, p] && p.a.id != o.p.a.id && r.memory.entries == [o.e]
    requires Lands(w, ins, o) && !Overlap(ClaimSpan(o), claim)
    ensures var r' := RepinInsertion(r, 0, 0, ins, [claim], 1);
            r'.works == [w.(anchors := [p, PinnedBy(w, ins, o)])] && r'.log == r.log + [LandingOf(ins, o)]
  {
    var hit := Hit(o.e, 0, o.f.at, o.f.shift);
    assert FindBelow(r.memory, ins.text, [claim], 1) == Some(hit);
    PinFirst(w, ins, p, o);
    OnePieceHit(r, ins, o, 0, [w.(anchors := [p, PinnedBy(w, ins, o)])], [claim]);
    var r2, claimed := AfterHit(r, 0, 0, ins, hit), ClaimedAfter(r, 0, 0, ins, hit, [claim]);
    assert RepinInsertion(r2, 0, 0, ins, claimed, 0) == r2;
  }

  // ------------------------------------------------------- the paste

  const X: Unit := 88
  const A: Unit := 97

  /** The text cut first, the one cut later, and a paste that holds both. */
  const OLDER: Text := [NEWLINE, A]
  const NEWER: Text := [X, NEWLINE]
  const PASTED: Text := [X, NEWLINE, A, NEWLINE, NEWLINE, A]

  /** Where a text of two units occurs. */
  lemma {:induction false} OccursTwo(hay: Text, u: Unit, v: Unit, at: int)
    ensures OccursAt(hay, [u, v], at) <==> 0 <= at <= |hay| - 2 && hay[at] == u && hay[at + 1] == v
  {
    if 0 <= at <= |hay| - 2 {
      var part := hay[at..at + 2];
      assert part[0] == hay[at] && part[1] == hay[at + 1];
      if hay[at] == u && hay[at + 1] == v { assert part == [u, v]; }
    }
  }

  lemma {:induction false} OnlyTwo(u: Unit, v: Unit, at: nat)
    requires at <= 4 && PASTED[at] == u && PASTED[at + 1] == v
    requires forall i :: 0 <= i <= 4 && PASTED[i] == u && PASTED[i + 1] == v ==> i == at
    ensures OnlyAt(PASTED, [u, v], at)
  {
    OccursTwo(PASTED, u, v, at);
    forall i | OccursAt(PASTED, [u, v], i) ensures i == at { OccursTwo(PASTED, u, v, i); }
  }

  /** The newer text is found as it was, and the older, which occurs twice, with its newline moved. */
  lemma {:induction false} BothFound()
    ensures Locate(PASTED, NEWER) == Some(Found(0, 0)) && OccursAt(PASTED, NEWER, 0)
    ensures Locate(PASTED, OLDER) == Some(Found(2, -1)) && OccursAt(PASTED, OLDER, 1)
  {
    OnlyTwo(X, NEWLINE, 0);
    OnceMeans(PASTED, NEWER, 0);
    OccursTwo(PASTED, NEWLINE, A, 1);
    OccursTwo(PASTED, NEWLINE, A, 4);
    OnceMeans(PASTED, OLDER, 0);
    OnlyTwo(A, NEWLINE, 2);
    assert Rotated(OLDER, -1) == [A, NEWLINE];
    OnceMeans(PASTED, [A, NEWLINE], -1);
  }

  /** The paste into an empty file that knows both comments, with both texts remembered. */
  predicate PastesBoth(f: PlanFile, m: Memory, older: Anchor, newer: Anchor) {
    && f.before == [] && f.edits == [Edit(0, 0, PASTED)] && f.anchors == [older, newer] && older.id != newer.id
    && older.detached && older.length.Some? && newer.detached && newer.length.Some?
    && Sound(m) && |m.entries| == 2
    && m.entries[0].text == OLDER && m.entries[0].held == [HeldWhole(older.id, OLDER)]
    && m.entries[1].text == NEWER && m.entries[1].held == [HeldWhole(newer.id, NEWER)]
  }

  lemma {:induction false} PastedWork(f: PlanFile, s: Text)
    requires f.before == [] && f.edits == [Edit(0, 0, s)] && s != [] && |f.anchors| == 2
    requires !Attached(f.anchors[0]) && !Attached(f.anchors[1])
    ensures FileOk(f)
    ensures WorkOf(f, false) == Work(f.fileId, s, [Fresh(f.anchors[0]), Fresh(f.anchors[1])], [Insertion(0, s)])
  {
    assert Running(f.edits, 0) == [Cut(0, 0, s)] by { assert f.edits[1..] == []; }
    assert Valid(0, Running(f.edits, 0)) by { assert [Cut(0, 0, s)][1..] == []; }
    PasteWork(f, 0, s);
    assert f.before[..0] + s + f.before[0..] == s;
    DetachedStays(Start(f), Running(f.edits, 0), Context(0, f.fragments, false), 0);
    DetachedStays(Start(f), Running(f.edits, 0), Context(0, f.fragments, false), 1);
  }

  /** The comments are pinned over [0, 2) and [1, 3), by hits that claimed [0, 2) and [2, 4). */
  predicate PinsMeet(r: Repin, older: string, newer: string) {
    && |r.works| == 1 && |r.works[0].anchors| == 2 && |r.log| == 2
    && var (p, q) := (r.works[0].anchors[0].a, r.works[0].anchors[1].a);
    && p.id == newer && Attached(p) && Span(p.from, p.to) == Span(0, 2) == SpanOf(r.log[0]) == r.log[0].claim
    && q.id == older && Attached(q) && Span(q.from, q.to) == Span(1, 3) == SpanOf(r.log[1])
    && r.log[1].claim == Span(2, 4) && !Overlap(r.log[0].claim, r.log[1].claim)
    && Overlap(SpanOf(r.log[0]), SpanOf(r.log[1]))
  }

  lemma {:induction false} OneFilePlan(f: PlanFile, m: Memory, s: Text)
    requires FileOk(f) && f.edits == [Edit(0, 0, s)] && f.before == [] && WorkOf(f, false).inserts == [Insertion(0, s)]
    ensures var r := Repin([WorkOf(f, false)], m, []);
            var r' := RepinInsertion(r, 0, 0, Insertion(0, s), [], |m.entries|);
            |r'.works| == 1 && Plan([f], m, false) == r'
  {
    var r, ins := Repin([WorkOf(f, false)], m, []), Insertion(0, s);
    PasteMemory(m, [f], 0, 0, s);
    assert WorksOf([f], false) == r.works;
    var r' := RepinInsertion(r, 0, 0, ins, [], |m.entries|);
    assert RepinFile(r', 0, [ins], 1) == r';
    assert RepinFile(r, 0, [ins], 0) == r';
    assert RepinFrom(r', 1) == r';
  }

  /**
   * One operation in which two hits of one insertion claim disjoint spans and
   * pin their comments over a common character: the older comment is pinned
   * from the newline before its claim, which the newer one covers.
   */
  lemma {:induction false} MovedNewlineSpills(f: PlanFile, m: Memory, older: Anchor, newer: Anchor)
    requires PastesBoth(f, m, older, newer)
    ensures FileOk(f) && PinsMeet(Plan([f], m, false), older.id, newer.id)
  {
    var s := PASTED;
    PastedWork(f, s);
    OneFilePlan(f, m, s);
    BothFound();
    var o := Cutting(m.entries[0], Fresh(older), Found(2, -1));
    var n := Cutting(m.entries[1], Fresh(newer), Found(0, 0));
    BothHits(Repin([WorkOf(f, false)], m, []), WorkOf(f, false), Insertion(0, s), o, n);
  }
}
