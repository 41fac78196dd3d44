/**
 * Phase 1 seen character by character. Each character of the running text
 * carries where it came from and whether the comment is about it, and a
 * comment is exactly a set of characters: a deletion takes characters away,
 * and an insertion is about what surrounds it. The planner's offset
 * arithmetic is shown to compute the span of those characters.
 */
module AnchorIdentity {
  import opened Common
  import opened Utf16
  import opened AnchorEdits

  /** `origin` is the offset in the text before the batch, absent for new text. */
  datatype Cell = Cell(unit: Unit, origin: Option<nat>, inside: bool)

  function CellsOf(text: Text, a: Anchor): (r: seq<Cell>)
    ensures |r| == |text|
  {
    seq(|text|, i requires 0 <= i < |text| => Cell(text[i], Some(i), Attached(a) && a.from <= i < a.to))
  }

  ghost predicate SomeInside(cells: seq<Cell>) {
    exists k :: 0 <= k < |cells| && cells[k].inside
  }

  /**
   * New text joins the comment when it replaces some of the comment's text and
   * leaves some, or when it lands between two characters of the comment.
   */
  ghost predicate Joins(cells: seq<Cell>, c: Cut)
    requires CutFits(|cells|, c)
  {
    || (SomeInside(cells[c.ef..c.et]) && SomeInside(cells[..c.ef] + cells[c.et..]))
    || (0 < c.ef && c.et < |cells| && cells[c.ef - 1].inside && cells[c.et].inside)
  }

  ghost function StepCells(cells: seq<Cell>, c: Cut): (r: seq<Cell>)
    requires CutFits(|cells|, c)
    ensures |r| == |cells| + |c.insert| - (c.et - c.ef)
  {
    var joins := Joins(cells, c);
    cells[..c.ef]
    + seq(|c.insert|, i requires 0 <= i < |c.insert| => Cell(c.insert[i], None, joins))
    + cells[c.et..]
  }

  ghost function RunCells(cells: seq<Cell>, cuts: seq<Cut>): seq<Cell>
    requires Valid(|cells|, cuts)
    decreases |cuts|
  {
    if cuts == [] then cells else RunCells(StepCells(cells, cuts[0]), cuts[1..])
  }

  // ------------------------------------------------------- the cells are faithful

  /** What surviving characters remember of the text before the batch. */
  ghost predicate Faithful(cells: seq<Cell>, before: Text, a: Anchor) {
    && (forall k :: 0 <= k < |cells| && cells[k].origin.Some? ==>
          var o := cells[k].origin.value;
          && o < |before| && cells[k].unit == before[o]
          && (cells[k].inside <==> Attached(a) && a.from <= o < a.to))
    && forall j, k :: 0 <= j < k < |cells| && cells[j].origin.Some? && cells[k].origin.Some? ==>
                        cells[j].origin.value < cells[k].origin.value
  }

  lemma {:induction false} RunFaithful(cells: seq<Cell>, cuts: seq<Cut>, before: Text, a: Anchor)
    requires Valid(|cells|, cuts) && Faithful(cells, before, a)
    ensures Faithful(RunCells(cells, cuts), before, a)
    decreases |cuts|
  {
    if cuts == [] {
    } else {
      RunFaithful(StepCells(cells, cuts[0]), cuts[1..], before, a);
    }
  }

  // ------------------------------------------------------- the span is the cells

  /** The anchor's span is exactly the characters the comment is about. */
  ghost predicate Tracks(cells: seq<Cell>, cur: Text, a: Anchor) {
    && |cells| == |cur|
    && (forall k :: 0 <= k < |cur| ==> cells[k].unit == cur[k])
    && (Attached(a) ==> InText(cur, a))
    && forall k :: 0 <= k < |cells| ==> (cells[k].inside <==> Attached(a) && a.from <= k < a.to)
  }

  lemma {:induction false} JoinsWhen(cells: seq<Cell>, cur: Text, a: Anchor, c: Cut)
    requires Tracks(cells, cur, a) && CutFits(|cur|, c)
    ensures Joins(cells, c) <==>
            Attached(a) && (Partial(c, a) || (c.ef == c.et && a.from < c.ef < a.to))
  {
    if Partial(c, a) {
      var i := if a.from < c.ef then c.ef else a.from;
      assert cells[c.ef..c.et][i - c.ef].inside;
      var rest := cells[..c.ef] + cells[c.et..];
      if a.from < c.ef {
        assert rest[a.from].inside;
      } else {
        assert rest[c.ef].inside;
      }
    }
  }

  lemma {:induction false} StepTracks(cells: seq<Cell>, cur: Text, p: Planned, c: Cut, ctx: Context)
    requires Tracks(cells, cur, p.a) && CutFits(|cur|, c)
    ensures Tracks(StepCells(cells, c), ApplyCut(cur, c), StepAnchor(p, c, ctx).a)
  {
    JoinsWhen(cells, cur, p.a, c);
    var r, n := StepCells(cells, c), |c.insert|;
    StepSpan(cur, p, c, ctx);
    forall k | 0 <= k < |r|
      ensures r[k].unit == ApplyCut(cur, c)[k]
      ensures r[k].inside <==>
              Attached(StepAnchor(p, c, ctx).a) && StepAnchor(p, c, ctx).a.from <= k < StepAnchor(p, c, ctx).a.to
    {
      if k < c.ef {
        assert r[k] == cells[k];
      } else if k < c.ef + n {
        assert r[k].inside == Joins(cells, c);
      } else {
        assert r[k] == cells[k - n + (c.et - c.ef)];
      }
    }
  }

  /** The span one edit leaves, as the offsets move. */
  lemma {:induction false} StepSpan(cur: Text, p: Planned, c: Cut, ctx: Context)
    requires CutFits(|cur|, c) && (Attached(p.a) ==> InText(cur, p.a))
    ensures var a, b, n := p.a, StepAnchor(p, c, ctx).a, |c.insert|;
            && (Attached(b) <==> Attached(a) && !(c.et > c.ef && Covers(c, a)))
            && (Attached(b) ==>
                  && InText(ApplyCut(cur, c), b)
                  && b.from == (if a.from < c.ef then a.from
                                else if Partial(c, a) then c.ef
                                else a.from + n - (c.et - c.ef))
                  && b.to == (if Partial(c, a) then AfterDelete(a.to, c.ef, c.et) + n
                              else if a.to <= c.ef then a.to
                              else a.to + n - (c.et - c.ef)))
  {
  }

  lemma {:induction false} RunTracks(cells: seq<Cell>, st: FileState, i: nat, cuts: seq<Cut>, ctx: Context)
    requires i < |st.anchors| && Tracks(cells, st.cur, st.anchors[i].a)
    requires Valid(|st.cur|, cuts)
    ensures |RunFile(st, cuts, ctx).anchors| == |st.anchors|
    ensures Tracks(RunCells(cells, cuts), RunFile(st, cuts, ctx).cur, RunFile(st, cuts, ctx).anchors[i].a)
    decreases |cuts|
  {
    if cuts == [] {
    } else {
      var c := cuts[0];
      var next := StepFile(st, c, ctx);
      StepTracks(cells, st.cur, st.anchors[i], c, ctx);
      if Idle(c) {
        assert StepCells(cells, c) == cells;
      }
      RunTracks(StepCells(cells, c), next, i, cuts[1..], ctx.(edit := ctx.edit + 1));
    }
  }

  /**
   * Anchors follow character identity. After any batch the anchor is attached
   * exactly when a character of the comment is left, its span is exactly those
   * characters, the original characters in it are exactly the survivors of its
   * original span in their old order, and each reads as it did.
   */
  lemma {:induction false} AnchorsFollowCharacters(st: FileState, i: nat, cuts: seq<Cut>, ctx: Context)
    requires i < |st.anchors| && Placed(st.cur, st.anchors) && Valid(|st.cur|, cuts)
    ensures var before := st.anchors[i].a;
            var cells := RunCells(CellsOf(st.cur, before), cuts);
            var r := RunFile(st, cuts, ctx);
            && |r.anchors| == |st.anchors|
            && var after := r.anchors[i].a;
            && Tracks(cells, r.cur, after)
            && Faithful(cells, st.cur, before)
            && (Attached(after) <==> SomeInside(cells))
            && (Attached(after) ==>
                  && InText(r.cur, after)
                  && forall k :: 0 <= k < |cells| && cells[k].origin.Some? ==>
                       (after.from <= k < after.to <==>
                        Attached(before) && before.from <= cells[k].origin.value < before.to))
  {
    var before := st.anchors[i].a;
    assert st.anchors[i] in st.anchors;
    RunTracks(CellsOf(st.cur, before), st, i, cuts, ctx);
    RunFaithful(CellsOf(st.cur, before), cuts, st.cur, before);
    var after := RunFile(st, cuts, ctx).anchors[i].a;
    if Attached(after) {
      assert RunCells(CellsOf(st.cur, before), cuts)[after.from].inside;
    }
  }

  // ------------------------------------------------------- untouched text

  predicate Clear(a: Anchor, c: Cut) {
    Idle(c) || c.et <= a.from || a.to <= c.ef
  }

  lemma {:induction false} ClearStep(cur: Text, p: Planned, c: Cut, ctx: Context)
    requires CutFits(|cur|, c) && Attached(p.a) && InText(cur, p.a) && Clear(p.a, c)
    ensures var q := StepAnchor(p, c, ctx);
            && Attached(q.a) && InText(ApplyCut(cur, c), q.a) && q.touched == p.touched
            && ApplyCut(cur, c)[q.a.from..q.a.to] == cur[p.a.from..p.a.to]
  {
    IdleKeeps(cur, c);
    StepSpan(cur, p, c, ctx);
    ClearSlice(cur, c, p.a.from, p.a.to);
  }

  /** A stretch beside the edit reads as it did, before it or past it. */
  lemma {:induction false} ClearSlice(cur: Text, c: Cut, from: nat, to: nat)
    requires CutFits(|cur|, c) && from <= to <= |cur|
    ensures to <= c.ef ==> ApplyCut(cur, c)[from..to] == cur[from..to]
    ensures var shift := |c.insert| - (c.et - c.ef);
            c.et <= from ==> ApplyCut(cur, c)[from + shift..to + shift] == cur[from..to]
  {
    var after, shift := ApplyCut(cur, c), |c.insert| - (c.et - c.ef);
    if c.et <= from {
      forall k | 0 <= k < to - from
        ensures after[from + shift..to + shift][k] == cur[from..to][k]
      {
        assert after[from + shift + k] == cur[from + k];
      }
    }
  }

  /** No edit of the batch reaches into the anchor, wherever it has moved to. */
  predicate Spared(p: Planned, cuts: seq<Cut>, ctx: Context)
    decreases cuts
  {
    cuts == [] || (
      && Clear(p.a, cuts[0])
      && Spared(StepAnchor(p, cuts[0], ctx), cuts[1..], ctx.(edit := ctx.edit + 1)))
  }

  /** An anchor no edit reaches into keeps its text and is not touched. */
  lemma {:induction false} SparedTextStays(st: FileState, i: nat, cuts: seq<Cut>, ctx: Context)
    requires i < |st.anchors| && Valid(|st.cur|, cuts)
    requires Attached(st.anchors[i].a) && InText(st.cur, st.anchors[i].a)
    requires Spared(st.anchors[i], cuts, ctx)
    ensures var r := RunFile(st, cuts, ctx);
            && |r.anchors| == |st.anchors|
            && var p, q := st.anchors[i], r.anchors[i];
            && Attached(q.a) && InText(r.cur, q.a) && q.touched == p.touched
            && r.cur[q.a.from..q.a.to] == st.cur[p.a.from..p.a.to]
    decreases |cuts|
  {
    if cuts == [] {
    } else {
      var c := cuts[0];
      var next := StepFile(st, c, ctx);
      IdleKeeps(st.cur, c);
      ClearStep(st.cur, st.anchors[i], c, ctx);
      SparedTextStays(next, i, cuts[1..], ctx.(edit := ctx.edit + 1));
    }
  }
}
