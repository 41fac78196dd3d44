/**
 * The planner's bookkeeping: which comments an operation touched, whose
 * records are written again, and what a remote change leaves to the session
 * that made it.
 */
module AnchorWrites {
  import opened Common
  import opened Utf16
  import opened SessionMemory
  import opened AnchorEdits
  import opened AnchorRepin
  import opened AnchorRepinRuns
  import opened AnchorPlan

  /** The edit starts before the end of the anchor. */
  predicate Reaches(c: Cut, a: Anchor) {
    Attached(a) && !Idle(c) && c.ef < a.to
  }

  /** The edit deletes some of the anchor's text. */
  predicate Hurts(c: Cut, a: Anchor) {
    Attached(a) && c.ef < c.et && a.from < c.et && c.ef < a.to
  }

  /** Some edit of the batch starts before the anchor's end, wherever it has moved to. */
  predicate EverReached(p: Planned, cuts: seq<Cut>, ctx: Context)
    decreases cuts
  {
    cuts != [] && (
      || Reaches(cuts[0], p.a)
      || EverReached(StepAnchor(p, cuts[0], ctx), cuts[1..], ctx.(edit := ctx.edit + 1)))
  }

  /** Some edit of the batch deletes text of the anchor, wherever it has moved to. */
  predicate EverHurt(p: Planned, cuts: seq<Cut>, ctx: Context)
    decreases cuts
  {
    cuts != [] && (
      || Hurts(cuts[0], p.a)
      || EverHurt(StepAnchor(p, cuts[0], ctx), cuts[1..], ctx.(edit := ctx.edit + 1)))
  }

  /** The same comment, about the same words of the same file. */
  predicate SameComment(a: Anchor, b: Anchor) {
    a.id == b.id && a.quote == b.quote && a.file == b.file
  }

  /** Without a span: detached with a length to bring back, or collapsed until its own session detaches it. */
  predicate LetGo(a: Anchor, foreign: bool) {
    && a.detached == !foreign && a.collapsed == foreign && a.from == a.to
    && (!foreign ==> a.from == 0 && a.length.Some? && a.length.value > 0)
  }

  /** What a batch made of the marks of `p`: `reached` and `hurt` say what its edits did. */
  predicate Marks(p: Planned, q: Planned, foreign: bool, reached: bool, hurt: bool) {
    && SameComment(q.a, p.a) && (Attached(q.a) ==> Attached(p.a))
    && (q.touched <==> p.touched || hurt)
    && (q.isSet <==> p.isSet || (!foreign && Attached(p.a) && !Attached(q.a)))
    && (Attached(q.a) ==> (q.moved <==> p.moved || reached) && (!reached ==> q.a == p.a))
    && (!Attached(p.a) ==> q == p)
    && (Attached(p.a) && !Attached(q.a) ==> LetGo(q.a, foreign))
  }

  lemma {:induction false} StepMarks(cur: Text, p: Planned, c: Cut, ctx: Context)
    requires CutFits(|cur|, c) && (Attached(p.a) ==> InText(cur, p.a))
    ensures Marks(p, StepAnchor(p, c, ctx), ctx.foreign, Reaches(c, p.a), Hurts(c, p.a))
  {
  }

  lemma {:induction false} RunMarks(st: FileState, i: nat, cuts: seq<Cut>, ctx: Context)
    requires i < |st.anchors| && Placed(st.cur, st.anchors) && Valid(|st.cur|, cuts)
    ensures |RunFile(st, cuts, ctx).anchors| == |st.anchors|
    ensures Marks(st.anchors[i], RunFile(st, cuts, ctx).anchors[i], ctx.foreign, EverReached(st.anchors[i], cuts, ctx),
                  EverHurt(st.anchors[i], cuts, ctx))
    decreases cuts
  {
    if cuts != [] {
      var c, p, next := cuts[0], st.anchors[i], StepFile(st, cuts[0], ctx);
      assert p in st.anchors;
      StepMarks(st.cur, p, c, ctx);
      StepPlaced(st, c, ctx);
      assert Idle(c) ==> StepAnchor(p, c, ctx) == p;
      assert next.anchors[i] == StepAnchor(p, c, ctx);
      RunMarks(next, i, cuts[1..], ctx.(edit := ctx.edit + 1));
      NeverAgain(StepAnchor(p, c, ctx), cuts[1..], ctx.(edit := ctx.edit + 1));
    }
  }

  /** An anchor that is gone is not reached again. */
  lemma {:induction false} NeverAgain(p: Planned, cuts: seq<Cut>, ctx: Context)
    ensures !Attached(p.a) ==> !EverReached(p, cuts, ctx) && !EverHurt(p, cuts, ctx)
    decreases cuts
  {
    if cuts != [] { NeverAgain(StepAnchor(p, cuts[0], ctx), cuts[1..], ctx.(edit := ctx.edit + 1)); }
  }

  /**
   * Which records phase 1 writes and which comments it touches: an anchor that
   * is still attached is written exactly when some edit started before its end,
   * one that lost all its text exactly when the change is this session's, and
   * one that was not attached never; a comment is touched exactly when some of
   * its text was deleted; and a record that is not written did not change.
   */
  lemma {:induction false} WrittenExactly(f: PlanFile, foreign: bool, i: nat)
    requires FileOk(f) && i < |f.anchors|
    ensures |WorkOf(f, foreign).anchors| == |f.anchors|
    ensures var a, q := f.anchors[i], WorkOf(f, foreign).anchors[i];
            var cuts, ctx := Running(f.edits, 0), Context(0, f.fragments, foreign);
            && SameComment(q.a, a)
            && (q.isSet <==> if Attached(q.a) then EverReached(Fresh(a), cuts, ctx) else Attached(a) && !foreign)
            && (q.touched <==> EverHurt(Fresh(a), cuts, ctx))
            && (!Attached(a) ==> q.a == a)
            && (!q.isSet ==> q.a == a || (foreign && Attached(a) && q.a.collapsed))
            && (Attached(a) && !Attached(q.a) ==> LetGo(q.a, foreign))
  {
    assert Placed(f.before, FreshAll(f.anchors));
    RunMarks(Start(f), i, Running(f.edits, 0), Context(0, f.fragments, foreign));
  }

  // ------------------------------------------------------- a remote change

  lemma {:induction false} ForeignTakesNothing(ps: seq<Planned>, cur: Text, c: Cut)
    requires CutFits(|cur|, c) && Placed(cur, ps)
    ensures PiecesOf(ps, cur, c, true) == []
  {
    if ps != [] { ForeignTakesNothing(ps[1..], cur, c); }
  }

  lemma {:induction false} ForeignRun(m: Memory, st: FileState, cuts: seq<Cut>, ctx: Context)
    requires Valid(|st.cur|, cuts) && Placed(st.cur, st.anchors) && ctx.foreign
    ensures RunMemory(m, st, cuts, ctx) == m
    decreases cuts
  {
    if cuts != [] {
      ForeignTakesNothing(st.anchors, st.cur, cuts[0]);
      StepPlaced(st, cuts[0], ctx);
      ForeignRun(m, StepFile(st, cuts[0], ctx), cuts[1..], ctx.(edit := ctx.edit + 1));
    }
  }

  /** A remote change remembers nothing and puts nothing back, whatever it deletes or inserts. */
  lemma {:induction false} ForeignRemembersNothing(files: seq<PlanFile>, m: Memory)
    requires forall f <- files :: FileOk(f)
    ensures Plan(files, m, true) == Repin(WorksOf(files, true), m, [])
    decreases files
  {
    if files != [] {
      var f := files[0];
      assert f in files && Placed(f.before, FreshAll(f.anchors));
      ForeignRun(m, Start(f), Running(f.edits, 0), Context(0, f.fragments, true));
      ForeignRemembersNothing(files[1..], m);
    }
  }

  // ------------------------------------------------------- the whole operation

  /**
   * Nothing changes unwritten: after an operation of this session, whichever
   * file a comment ended in, its quote is the one it had, and if its record is
   * not to be written it is in its file as it was.
   */
  lemma {:induction false} EveryChangeIsWritten(files: seq<PlanFile>, m: Memory, j: nat, n: nat, i: nat, p: Planned)
    requires (forall f <- files :: FileOk(f)) && UniqueInput(files) && Sound(m)
    requires j < |files| && n < |files[j].anchors| && Has(Plan(files, m, false).works, i, p)
    requires p.a.id == files[j].anchors[n].id
    ensures p.a.quote == files[j].anchors[n].quote
    ensures !p.isSet ==> i == j && p.a == files[j].anchors[n]
  {
    assert files[j] in files;
    PlanIsSound(files, m, false);
    WrittenExactly(files[j], false, n);
    var p0 := WorkOf(files[j], false).anchors[n];
    assert Has(WorksOf(files, false), j, p0);
    assert Explained(j, p0, i, p, Plan(files, m, false).log);
  }
}
