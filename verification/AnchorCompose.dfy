/**
 * Text deltas as edits, and the edit lists of several transactions as one
 * batch for the planner.
 */
module AnchorCompose {
  import opened Common
  import opened Sequences
  import opened Utf16
  import opened AnchorEdits

  // ------------------------------------------------------- deltas

  datatype DeltaOp = Retain(count: nat) | Insert(text: Text) | Delete(count: nat)

  predicate DeltaFits(len: nat, delta: seq<DeltaOp>)
    decreases delta
  {
    delta == [] || match delta[0] {
      case Insert(_) => DeltaFits(len, delta[1..])
      case Retain(n) => n <= len && DeltaFits(len - n, delta[1..])
      case Delete(n) => n <= len && DeltaFits(len - n, delta[1..])
    }
  }

  /** What a delta means: a walk over the text that keeps, adds and leaves out. */
  function ApplyDelta(text: Text, delta: seq<DeltaOp>): Text
    requires DeltaFits(|text|, delta)
    decreases delta
  {
    if delta == [] then text
    else match delta[0] {
      case Insert(s) => s + ApplyDelta(text, delta[1..])
      case Retain(n) => text[..n] + ApplyDelta(text[n..], delta[1..])
      case Delete(n) => ApplyDelta(text[n..], delta[1..])
    }
  }

  // ------------------------------------------------------- editsFromDelta

  /** The edits so far, the one still growing if any, and the place in the text. */
  datatype Builder = Builder(done: seq<Edit>, open: Option<Edit>, pos: nat)

  function Grown(b: Builder): seq<Edit> {
    if b.open.Some? then b.done + [b.open.value] else b.done
  }

  function OpenEdit(b: Builder): Edit {
    if b.open.Some? then b.open.value else Edit(b.pos, b.pos, [])
  }

  function Take(b: Builder, op: DeltaOp): Builder {
    match op
    case Retain(n) => if n == 0 then b else Builder(Grown(b), None, b.pos + n)
    case Insert(s) => b.(open := Some(OpenEdit(b).(insert := OpenEdit(b).insert + s)))
    case Delete(n) => b.(open := Some(OpenEdit(b).(to := OpenEdit(b).to + n)), pos := b.pos + n)
  }

  function TakeAll(b: Builder, delta: seq<DeltaOp>): Builder
    decreases delta
  {
    if delta == [] then b else TakeAll(Take(b, delta[0]), delta[1..])
  }

  predicate Changes(e: Edit) {
    e.to > e.from || |e.insert| > 0
  }

  function Changing(edits: seq<Edit>): seq<Edit> {
    if edits == [] then []
    else
      var n := |edits| - 1;
      if Changes(edits[n]) then Changing(edits[..n]) + [edits[n]] else Changing(edits[..n])
  }

  function DeltaEdits(delta: seq<DeltaOp>): seq<Edit> {
    Changing(Grown(TakeAll(Builder([], None, 0), delta)))
  }

  method EditsFromDelta(delta: seq<DeltaOp>) returns (edits: seq<Edit>)
    ensures edits == DeltaEdits(delta)
  {
    var all: seq<Edit>, pos: nat, open := [], 0, false;
    ghost var b := Builder([], None, 0);
    for i := 0 to |delta|
      invariant b.pos == pos && b.open.Some? == open && Grown(b) == all
      invariant TakeAll(b, delta[i..]) == TakeAll(Builder([], None, 0), delta)
    {
      assert delta[i..][1..] == delta[i + 1..];
      match delta[i] {
        case Retain(n) =>
          if n != 0 { pos, open := pos + n, false; }
        case Insert(s) =>
          if !open { all, open := all + [Edit(pos, pos, [])], true; }
          all := all[|all| - 1 := all[|all| - 1].(insert := all[|all| - 1].insert + s)];
        case Delete(n) =>
          if !open { all, open := all + [Edit(pos, pos, [])], true; }
          all := all[|all| - 1 := all[|all| - 1].(to := all[|all| - 1].to + n)];
          pos := pos + n;
      }
      b := Take(b, delta[i]);
    }
    edits := [];
    for i := 0 to |all|
      invariant edits == Changing(all[..i])
    {
      assert all[..i + 1][..i] == all[..i];
      if Changes(all[i]) { edits := edits + [all[i]]; }
    }
    assert all[..|all|] == all;
  }

  // ------------------------------------------------------- before-coordinates

  /** Edits in ascending order that never touch each other, up to `pos`. */
  predicate Ascending(edits: seq<Edit>, pos: int) {
    if edits == [] then pos >= 0
    else
      var n := |edits| - 1;
      && edits[n].from <= edits[n].to <= pos
      && Ascending(edits[..n], edits[n].from)
      && (n > 0 ==> edits[n - 1].to < edits[n].from)
  }

  lemma {:induction false} AscendingBounds(edits: seq<Edit>, pos: int)
    requires Ascending(edits, pos)
    ensures pos >= 0 && forall i :: 0 <= i < |edits| ==> 0 <= edits[i].from <= edits[i].to <= pos
  {
    if edits != [] {
      var n := |edits| - 1;
      AscendingBounds(edits[..n], edits[n].from);
    }
  }

  lemma {:induction false} AscendingMeans(edits: seq<Edit>, pos: int)
    requires Ascending(edits, pos)
    ensures forall i, j :: 0 <= i < j < |edits| ==> edits[i].to < edits[j].from
  {
    if edits != [] {
      var n := |edits| - 1;
      AscendingMeans(edits[..n], edits[n].from);
      if n > 0 {
        assert edits[..n][..n - 1] == edits[..n - 1];
        AscendingBounds(edits[..n - 1], edits[n - 1].from);
      }
    }
  }

  /** The text up to `pos` with the edits made. */
  function Edited(text: Text, edits: seq<Edit>, pos: int): Text
    requires Ascending(edits, pos) && pos <= |text|
  {
    AscendingBounds(edits, pos);
    if edits == [] then text[..pos]
    else
      var n := |edits| - 1;
      Edited(text, edits[..n], edits[n].from) + edits[n].insert + text[edits[n].to..pos]
  }

  function Net(edits: seq<Edit>): int {
    if edits == [] then 0 else NetChange(edits[0]) + Net(edits[1..])
  }

  lemma {:induction false} NetConcat(a: seq<Edit>, b: seq<Edit>)
    ensures Net(a + b) == Net(a) + Net(b)
  {
    if a == [] {
      assert a + b == b;
    } else {
      assert (a + b)[1..] == a[1..] + b;
      NetConcat(a[1..], b);
    }
  }

  lemma {:induction false} RunningConcat(a: seq<Edit>, b: seq<Edit>, adj: int)
    ensures Running(a + b, adj) == Running(a, adj) + Running(b, adj + Net(a))
  {
    if a == [] {
      assert a + b == b;
    } else {
      var first := [Cut(a[0].from + adj, a[0].to + adj, a[0].insert)];
      var moved := adj + NetChange(a[0]);
      assert (a + b)[1..] == a[1..] + b;
      assert Running(a + b, adj) == first + Running(a[1..] + b, moved);
      RunningConcat(a[1..], b, moved);
      assert Running(a, adj) == first + Running(a[1..], moved);
      ConcatAssociates(first, Running(a[1..], moved), Running(b, adj + Net(a)));
    }
  }

  lemma {:induction false} ApplyCutsConcat(text: Text, a: seq<Cut>, b: seq<Cut>)
    requires Valid(|text|, a) && Valid(|ApplyCuts(text, a)|, b)
    ensures Valid(|text|, a + b) && ApplyCuts(text, a + b) == ApplyCuts(ApplyCuts(text, a), b)
    decreases a
  {
    if a == [] {
      assert a + b == b;
    } else {
      assert (a + b)[1..] == a[1..] + b;
      ApplyCutsConcat(ApplyCut(text, a[0]), a[1..], b);
    }
  }

  lemma {:induction false} EditedSplits(text: Text, edits: seq<Edit>, p: int, q: int)
    requires Ascending(edits, p) && p <= q <= |text|
    ensures Ascending(edits, q) && p >= 0
    ensures Edited(text, edits, q) == Edited(text, edits, p) + text[p..q]
  {
    AscendingBounds(edits, p);
    if edits == [] {
      assert text[..q] == text[..p] + text[p..q];
    } else {
      var n := |edits| - 1;
      var e := edits[n];
      var fore := Edited(text, edits[..n], e.from) + e.insert;
      assert text[e.to..q] == text[e.to..p] + text[p..q];
      ConcatAssociates(fore, text[e.to..p], text[p..q]);
    }
  }

  lemma {:induction false} EditedLength(text: Text, edits: seq<Edit>, pos: int)
    requires Ascending(edits, pos) && pos <= |text|
    ensures |Edited(text, edits, pos)| == pos + Net(edits)
  {
    AscendingBounds(edits, pos);
    if edits == [] {
    } else {
      var n := |edits| - 1;
      EditedLength(text, edits[..n], edits[n].from);
      assert edits == edits[..n] + [edits[n]];
      NetConcat(edits[..n], [edits[n]]);
      assert Net([edits[n]]) == NetChange(edits[n]);
    }
  }

  /** The last edit is made after all the others. */
  lemma {:induction false} EditedLast(text: Text, fore: seq<Edit>, e: Edit, pos: int)
    requires Ascending(fore, e.from) && (fore != [] ==> fore[|fore| - 1].to < e.from)
    requires e.from <= e.to <= pos <= |text|
    ensures Ascending(fore + [e], pos) && e.from >= 0
    ensures Edited(text, fore + [e], pos) == Edited(text, fore, e.from) + e.insert + text[e.to..pos]
  {
    AscendingBounds(fore, e.from);
    assert (fore + [e])[..|fore|] == fore;
  }

  lemma {:induction false} EditedByCut(text: Text, fore: seq<Edit>, e: Edit)
    requires Ascending(fore, e.from) && (fore != [] ==> fore[|fore| - 1].to < e.from)
    requires e.from <= e.to <= |text|
    ensures Ascending(fore, |text|) && Ascending(fore + [e], |text|)
    ensures var c := Cut(e.from + Net(fore), e.to + Net(fore), e.insert);
            && CutFits(|Edited(text, fore, |text|)|, c)
            && ApplyCut(Edited(text, fore, |text|), c) == Edited(text, fore + [e], |text|)
  {
    EditedLast(text, fore, e, |text|);
    EditedSplits(text, fore, e.from, |text|);
    EditedLength(text, fore, e.from);
    CutAfter(Edited(text, fore, e.from), text[e.from..], e.to - e.from, e.insert);
    RestOfRest(text, e.from, e.to - e.from);
  }

  /** Planner coordinates and before-coordinates make the same text. */
  lemma {:induction false} RunningEdits(text: Text, edits: seq<Edit>)
    requires Ascending(edits, |text|)
    ensures Valid(|text|, Running(edits, 0))
    ensures ApplyCuts(text, Running(edits, 0)) == Edited(text, edits, |text|)
  {
    if edits == [] {
    } else {
      var n := |edits| - 1;
      var e, fore := edits[n], edits[..n];
      assert edits == fore + [e];
      var c := Cut(e.from + Net(fore), e.to + Net(fore), e.insert);
      EditedByCut(text, fore, e);
      RunningEdits(text, fore);
      ApplyCutsLast(text, Running(fore, 0), c);
      RunningLast(fore, e);
    }
  }

  lemma {:induction false} RunningLast(fore: seq<Edit>, e: Edit)
    ensures Running(fore + [e], 0) == Running(fore, 0) + [Cut(e.from + Net(fore), e.to + Net(fore), e.insert)]
  {
    RunningConcat(fore, [e], 0);
    assert [e][1..] == [];
  }

  lemma {:induction false} ApplyCutsLast(text: Text, cuts: seq<Cut>, c: Cut)
    requires Valid(|text|, cuts) && CutFits(|ApplyCuts(text, cuts)|, c)
    ensures Valid(|text|, cuts + [c])
    ensures ApplyCuts(text, cuts + [c]) == ApplyCut(ApplyCuts(text, cuts), c)
  {
    assert [c][1..] == [];
    ApplyCutsConcat(text, cuts, [c]);
  }

  /** A cut right after `fore` leaves `fore` alone. */
  lemma {:induction false} CutAfter(fore: Text, rest: Text, gone: nat, insert: Text)
    requires gone <= |rest|
    ensures ApplyCut(fore + rest, Cut(|fore|, |fore| + gone, insert)) == fore + insert + rest[gone..]
  {
    assert (fore + rest)[..|fore|] == fore;
    assert (fore + rest)[|fore| + gone..] == rest[gone..];
  }

  // ------------------------------------------------------- deltas become edits

  /** What the loop keeps: edits in order, the open one ending where it stands. */
  predicate BuilderOk(b: Builder) {
    var at := OpenEdit(b);
    && at.from <= at.to == b.pos
    && Ascending(b.done, at.from)
    && (b.done != [] ==> b.done[|b.done| - 1].to < at.from)
  }

  /** The text the loop has made so far. */
  function Made(text: Text, b: Builder): Text
    requires BuilderOk(b) && b.pos <= |text|
  {
    Edited(text, b.done, OpenEdit(b).from) + OpenEdit(b).insert
  }

  lemma {:induction false} MadeIsEdited(text: Text, b: Builder)
    requires BuilderOk(b) && b.pos <= |text|
    ensures Ascending(Grown(b), b.pos) && Made(text, b) == Edited(text, Grown(b), b.pos)
  {
    if b.open.Some? {
      EditedLast(text, b.done, b.open.value, b.pos);
    }
  }

  /** What one operation adds to the text made so far. */
  function AddedBy(text: Text, pos: nat, op: DeltaOp): Text
    requires op.Retain? ==> pos + op.count <= |text|
  {
    match op
    case Retain(n) => text[pos..pos + n]
    case Insert(s) => s
    case Delete(_) => []
  }

  lemma {:induction false} RetainOk(text: Text, b: Builder, n: nat)
    requires BuilderOk(b) && b.pos + n <= |text|
    ensures BuilderOk(Take(b, Retain(n)))
    ensures Made(text, Take(b, Retain(n))) == Made(text, b) + text[b.pos..b.pos + n]
  {
    if n > 0 {
      MadeIsEdited(text, b);
      EditedSplits(text, Grown(b), b.pos, b.pos + n);
    }
  }

  lemma {:induction false} TakeOk(text: Text, b: Builder, op: DeltaOp)
    requires BuilderOk(b) && b.pos <= |text|
    requires !op.Insert? ==> b.pos + op.count <= |text|
    ensures BuilderOk(Take(b, op)) && Take(b, op).pos <= |text|
    ensures Made(text, Take(b, op)) == Made(text, b) + AddedBy(text, b.pos, op)
  {
    match op
    case Retain(n) => RetainOk(text, b, n);
    case Insert(s) => ConcatAssociates(Edited(text, b.done, OpenEdit(b).from), OpenEdit(b).insert, s);
    case Delete(_) => assert Made(text, b) + [] == Made(text, b);
  }

  lemma {:induction false} DeltaStep(text: Text, pos: nat, delta: seq<DeltaOp>)
    requires pos <= |text| && delta != [] && DeltaFits(|text| - pos, delta)
    ensures var next := pos + if delta[0].Insert? then 0 else delta[0].count;
            && next <= |text| && DeltaFits(|text| - next, delta[1..])
            && ApplyDelta(text[pos..], delta) == AddedBy(text, pos, delta[0]) + ApplyDelta(text[next..], delta[1..])
  {
    var next := pos + if delta[0].Insert? then 0 else delta[0].count;
    assert text[pos..][..next - pos] == text[pos..next];
    assert text[pos..][next - pos..] == text[next..];
  }

  lemma {:induction false} TakeAllOk(text: Text, b: Builder, delta: seq<DeltaOp>)
    requires BuilderOk(b) && b.pos <= |text| && DeltaFits(|text| - b.pos, delta)
    ensures var r := TakeAll(b, delta);
            && BuilderOk(r) && r.pos <= |text|
            && Made(text, r) + text[r.pos..] == Made(text, b) + ApplyDelta(text[b.pos..], delta)
    decreases delta
  {
    if delta == [] {
    } else {
      DeltaStep(text, b.pos, delta);
      TakeOk(text, b, delta[0]);
      var next := Take(b, delta[0]);
      TakeAllOk(text, next, delta[1..]);
      ConcatAssociates(Made(text, b), AddedBy(text, b.pos, delta[0]), ApplyDelta(text[next.pos..], delta[1..]));
    }
  }

  lemma {:induction false} ChangingAscends(edits: seq<Edit>, pos: int)
    requires Ascending(edits, pos)
    ensures Ascending(Changing(edits), pos)
    ensures forall e <- Changing(edits) :: e in edits && Changes(e)
  {
    AscendingBounds(edits, pos);
    if edits == [] {
    } else {
      var n := |edits| - 1;
      var kept := Changing(edits[..n]);
      ChangingAscends(edits[..n], edits[n].from);
      AscendingMeans(edits, pos);
      assert kept != [] ==> kept[|kept| - 1] in edits[..n];
      if Changes(edits[n]) {
        assert (kept + [edits[n]])[..|kept|] == kept;
      } else {
        AscendingWidens(kept, edits[n].from, pos);
      }
    }
  }

  lemma {:induction false} AscendingWidens(edits: seq<Edit>, p: int, q: int)
    requires Ascending(edits, p) && p <= q
    ensures Ascending(edits, q)
  {
  }

  lemma {:induction false} ChangingKeepsText(text: Text, edits: seq<Edit>, pos: int)
    requires Ascending(edits, pos) && pos <= |text| && Ascending(Changing(edits), pos)
    ensures Edited(text, Changing(edits), pos) == Edited(text, edits, pos)
  {
    if edits == [] {
    } else {
      var n := |edits| - 1;
      var e, fore := edits[n], edits[..n];
      AscendingBounds(edits, pos);
      ChangingAscends(fore, e.from);
      ChangingKeepsText(text, fore, e.from);
      var kept := Changing(fore);
      if Changes(e) {
        AscendingMeans(edits, pos);
        assert kept != [] ==> kept[|kept| - 1] in fore;
        EditedLast(text, kept, e, pos);
      } else {
        EditedSplits(text, kept, e.from, pos);
        assert Edited(text, kept, e.from) + [] == Edited(text, kept, e.from);
      }
    }
  }

  lemma {:induction false} WalkMeansDelta(text: Text, delta: seq<DeltaOp>)
    requires DeltaFits(|text|, delta)
    ensures var all := Grown(TakeAll(Builder([], None, 0), delta));
            Ascending(all, |text|) && Edited(text, all, |text|) == ApplyDelta(text, delta)
  {
    var start := Builder([], None, 0);
    TakeAllOk(text, start, delta);
    var r := TakeAll(start, delta);
    assert text[0..] == text;
    assert Made(text, start) + ApplyDelta(text, delta) == ApplyDelta(text, delta);
    MadeIsEdited(text, r);
    EditedSplits(text, Grown(r), r.pos, |text|);
  }

  /** A delta's edits ascend, never touch, all change something, and mean the delta. */
  lemma {:induction false} DeltaBecomesEdits(text: Text, delta: seq<DeltaOp>)
    requires DeltaFits(|text|, delta)
    ensures Ascending(DeltaEdits(delta), |text|)
    ensures forall i, j :: 0 <= i < j < |DeltaEdits(delta)| ==> DeltaEdits(delta)[i].to < DeltaEdits(delta)[j].from
    ensures forall e <- DeltaEdits(delta) :: Changes(e)
    ensures Valid(|text|, Running(DeltaEdits(delta), 0))
    ensures ApplyCuts(text, Running(DeltaEdits(delta), 0)) == ApplyDelta(text, delta)
  {
    WalkMeansDelta(text, delta);
    ChangingAscends(Grown(TakeAll(Builder([], None, 0), delta)), |text|);
    ChangingKeepsText(text, Grown(TakeAll(Builder([], None, 0), delta)), |text|);
    RunningEdits(text, DeltaEdits(delta));
    AscendingMeans(DeltaEdits(delta), |text|);
  }

  // ------------------------------------------------------- composeEdits

  function Shifted(list: seq<Edit>, delta: int): (r: seq<Edit>)
    ensures |r| == |list|
  {
    seq(|list|, i requires 0 <= i < |list| => Edit(list[i].from - delta, list[i].to - delta, list[i].insert))
  }

  function Composed(lists: seq<seq<Edit>>, delta: int): seq<Edit> {
    if lists == [] then []
    else Shifted(lists[0], delta) + Composed(lists[1..], delta + Net(lists[0]))
  }

  /** The inner loop of `composeEdits`: one list, with its net length change. */
  method ComposeList(list: seq<Edit>, delta: int) returns (out: seq<Edit>, listDelta: int)
    ensures out == Shifted(list, delta) && listDelta == Net(list)
  {
    out, listDelta := [], 0;
    for i := 0 to |list|
      invariant out == Shifted(list[..i], delta) && listDelta == Net(list[..i])
    {
      out := out + [Edit(list[i].from - delta, list[i].to - delta, list[i].insert)];
      listDelta := listDelta + |list[i].insert| - (list[i].to - list[i].from);
      assert list[..i + 1] == list[..i] + [list[i]];
      NetConcat(list[..i], [list[i]]);
      assert Net([list[i]]) == NetChange(list[i]);
    }
    assert list[..|list|] == list;
  }

  method ComposeEdits(lists: seq<seq<Edit>>) returns (out: seq<Edit>)
    ensures out == Composed(lists, 0)
  {
    out := [];
    var delta := 0;
    for k := 0 to |lists|
      invariant Composed(lists, 0) == out + Composed(lists[k..], delta)
    {
      var list, listDelta := ComposeList(lists[k], delta);
      assert lists[k..][1..] == lists[k + 1..];
      ConcatAssociates(out, list, Composed(lists[k + 1..], delta + listDelta));
      out, delta := out + list, delta + listDelta;
    }
  }

  /** The lists one after another, each in the coordinates of its own text. */
  function InOrder(lists: seq<seq<Edit>>): seq<Cut> {
    if lists == [] then [] else Running(lists[0], 0) + InOrder(lists[1..])
  }

  lemma {:induction false} RunningShifted(list: seq<Edit>, delta: int, adj: int)
    ensures Running(Shifted(list, delta), adj + delta) == Running(list, adj)
    ensures Net(Shifted(list, delta)) == Net(list)
  {
    if list == [] {
    } else {
      var s := Shifted(list, delta);
      assert s[1..] == Shifted(list[1..], delta);
      assert NetChange(s[0]) == NetChange(list[0]);
      RunningShifted(list[1..], delta, adj + NetChange(list[0]));
      assert adj + delta + NetChange(s[0]) == adj + NetChange(list[0]) + delta;
    }
  }

  /** The planner runs a composed list as the lists one after another. */
  lemma {:induction false} ComposedRuns(lists: seq<seq<Edit>>, delta: int)
    ensures Running(Composed(lists, delta), delta) == InOrder(lists)
  {
    if lists == [] {
    } else {
      var head := Shifted(lists[0], delta);
      RunningShifted(lists[0], delta, 0);
      RunningConcat(head, Composed(lists[1..], delta + Net(lists[0])), delta);
      ComposedRuns(lists[1..], delta + Net(lists[0]));
    }
  }

  // ------------------------------------------------------- composition preserves meaning

  /** Each list is inside the text that the lists before it leave. */
  predicate ListsValid(len: int, lists: seq<seq<Edit>>)
    decreases lists
  {
    lists == [] || (
      && len >= 0 && Valid(len, Running(lists[0], 0))
      && ListsValid(len + Net(lists[0]), lists[1..]))
  }

  /** A new batch starts with fresh bookkeeping and no insertions. */
  function Restarted(st: FileState): (r: FileState)
    ensures |r.anchors| == |st.anchors| && forall i :: 0 <= i < |r.anchors| ==> r.anchors[i] == Fresh(st.anchors[i].a)
  {
    FileState(st.cur, seq(|st.anchors|, i requires 0 <= i < |st.anchors| => Fresh(st.anchors[i].a)), [])
  }

  lemma {:induction false} RunLength(st: FileState, edits: seq<Edit>, adj: int, ctx: Context)
    requires Valid(|st.cur|, Running(edits, adj))
    ensures |RunFile(st, Running(edits, adj), ctx).cur| == |st.cur| + Net(edits)
    decreases edits
  {
    if edits == [] {
    } else {
      var cuts := Running(edits, adj);
      assert cuts[1..] == Running(edits[1..], adj + NetChange(edits[0]));
      RunLength(StepFile(st, cuts[0], ctx), edits[1..], adj + NetChange(edits[0]), ctx.(edit := ctx.edit + 1));
    }
  }

  /** The transactions run one after another, each as a batch of its own. */
  function InTurn(st: FileState, lists: seq<seq<Edit>>, ctxs: seq<Context>): FileState
    requires |ctxs| == |lists| && ListsValid(|st.cur|, lists)
    decreases lists
  {
    if lists == [] then st
    else
      RunLength(Restarted(st), lists[0], 0, ctxs[0]);
      InTurn(RunFile(Restarted(st), Running(lists[0], 0), ctxs[0]), lists[1..], ctxs[1..])
  }

  /** The place of an anchor, whatever fragment a tracked deletion filed it under. */
  function Place(a: Anchor): Anchor {
    a.(fragment := None, offset := None)
  }

  predicate SamePlaces(s: FileState, t: FileState) {
    && s.cur == t.cur && |s.anchors| == |t.anchors|
    && forall i :: 0 <= i < |s.anchors| ==> Place(s.anchors[i].a) == Place(t.anchors[i].a)
  }

  lemma {:induction false} DeletePlace(p: Planned, q: Planned, c: Cut, x: Context, y: Context)
    requires Place(p.a) == Place(q.a) && x.foreign == y.foreign
    ensures Place(DeleteUnder(p, c, x).a) == Place(DeleteUnder(q, c, y).a)
    ensures Partial(c, p.a) == Partial(c, q.a)
  {
    assert Place(p.a).from == Place(q.a).from && Place(p.a).to == Place(q.a).to;
    assert Attached(Place(p.a)) == Attached(Place(q.a));
  }

  lemma {:induction false} InsertPlace(p: Planned, q: Planned, c: Cut, partial: bool)
    requires Place(p.a) == Place(q.a)
    ensures Place(InsertUnder(p, c, partial).a) == Place(InsertUnder(q, c, partial).a)
  {
    assert Attached(Place(p.a)) == Attached(Place(q.a));
  }

  lemma {:induction false} RunSamePlaces(s: FileState, t: FileState, cuts: seq<Cut>, x: Context, y: Context)
    requires SamePlaces(s, t) && x.foreign == y.foreign && Valid(|s.cur|, cuts)
    ensures SamePlaces(RunFile(s, cuts, x), RunFile(t, cuts, y))
    decreases cuts
  {
    if cuts == [] {
    } else {
      forall i | 0 <= i < |s.anchors|
        ensures Place(StepAnchor(s.anchors[i], cuts[0], x).a) == Place(StepAnchor(t.anchors[i], cuts[0], y).a)
      {
        var p, q, c := s.anchors[i], t.anchors[i], cuts[0];
        DeletePlace(p, q, c, x, y);
        InsertPlace(DeleteUnder(p, c, x), DeleteUnder(q, c, y), c, Partial(c, p.a));
      }
      RunSamePlaces(StepFile(s, cuts[0], x), StepFile(t, cuts[0], y), cuts[1..],
                    x.(edit := x.edit + 1), y.(edit := y.edit + 1));
    }
  }

  lemma {:induction false} RunConcat(st: FileState, a: seq<Cut>, b: seq<Cut>, ctx: Context)
    requires Valid(|st.cur|, a) && Valid(|RunFile(st, a, ctx).cur|, b)
    ensures Valid(|st.cur|, a + b)
    ensures RunFile(st, a + b, ctx) == RunFile(RunFile(st, a, ctx), b, ctx.(edit := ctx.edit + |a|))
    decreases a
  {
    if a == [] {
      assert a + b == b;
    } else {
      assert (a + b)[1..] == a[1..] + b;
      RunConcat(StepFile(st, a[0], ctx), a[1..], b, ctx.(edit := ctx.edit + 1));
    }
  }

  lemma {:induction false} InOrderIsInTurn(s: FileState, t: FileState, lists: seq<seq<Edit>>,
                                           ctx: Context, ctxs: seq<Context>)
    requires SamePlaces(s, t) && |ctxs| == |lists| && ListsValid(|s.cur|, lists)
    requires forall x <- ctxs :: x.foreign == ctx.foreign
    ensures Valid(|s.cur|, InOrder(lists))
    ensures SamePlaces(RunFile(s, InOrder(lists), ctx), InTurn(t, lists, ctxs))
    decreases lists
  {
    if lists == [] {
    } else {
      var cuts := Running(lists[0], 0);
      var s', t' := RunFile(s, cuts, ctx), RunFile(Restarted(t), cuts, ctxs[0]);
      RunSamePlaces(s, Restarted(t), cuts, ctx, ctxs[0]);
      RunLength(s, lists[0], 0, ctx);
      InOrderIsInTurn(s', t', lists[1..], ctx.(edit := ctx.edit + |cuts|), ctxs[1..]);
      RunConcat(s, cuts, InOrder(lists[1..]), ctx);
    }
  }

  /**
   * Composition preserves meaning: one batch over the composed lists leaves
   * the text and every anchor where running the lists in turn leaves them.
   */
  lemma {:induction false} CompositionPreservesMeaning(st: FileState, lists: seq<seq<Edit>>, ctx: Context,
                                                       ctxs: seq<Context>)
    requires |ctxs| == |lists| && ListsValid(|st.cur|, lists)
    requires forall x <- ctxs :: x.foreign == ctx.foreign
    ensures Valid(|st.cur|, Running(Composed(lists, 0), 0))
    ensures SamePlaces(RunFile(st, Running(Composed(lists, 0), 0), ctx), InTurn(st, lists, ctxs))
  {
    ComposedRuns(lists, 0);
    InOrderIsInTurn(st, st, lists, ctx, ctxs);
  }

  // ------------------------------------------------------- from deltas to the text

  predicate DeltasFit(text: Text, deltas: seq<seq<DeltaOp>>)
    decreases deltas
  {
    deltas == [] || (DeltaFits(|text|, deltas[0]) && DeltasFit(ApplyDelta(text, deltas[0]), deltas[1..]))
  }

  function ApplyDeltas(text: Text, deltas: seq<seq<DeltaOp>>): Text
    requires DeltasFit(text, deltas)
    decreases deltas
  {
    if deltas == [] then text else ApplyDeltas(ApplyDelta(text, deltas[0]), deltas[1..])
  }

  function EditLists(deltas: seq<seq<DeltaOp>>): (r: seq<seq<Edit>>)
    ensures |r| == |deltas|
  {
    if deltas == [] then [] else [DeltaEdits(deltas[0])] + EditLists(deltas[1..])
  }

  lemma {:induction false} DeltasInOrder(text: Text, deltas: seq<seq<DeltaOp>>)
    requires DeltasFit(text, deltas)
    ensures ListsValid(|text|, EditLists(deltas)) && Valid(|text|, InOrder(EditLists(deltas)))
    ensures ApplyCuts(text, InOrder(EditLists(deltas))) == ApplyDeltas(text, deltas)
    decreases deltas
  {
    if deltas == [] {
    } else {
      var edits, rest := DeltaEdits(deltas[0]), EditLists(deltas[1..]);
      OneDelta(text, deltas[0]);
      DeltasInOrder(ApplyDelta(text, deltas[0]), deltas[1..]);
      assert EditLists(deltas) == [edits] + rest;
      FirstInOrder(text, edits, rest);
    }
  }

  lemma {:induction false} FirstInOrder(text: Text, edits: seq<Edit>, rest: seq<seq<Edit>>)
    requires Valid(|text|, Running(edits, 0))
    requires var next := ApplyCuts(text, Running(edits, 0));
             |next| == |text| + Net(edits) && ListsValid(|next|, rest) && Valid(|next|, InOrder(rest))
    ensures ListsValid(|text|, [edits] + rest) && Valid(|text|, InOrder([edits] + rest))
    ensures ApplyCuts(text, InOrder([edits] + rest)) == ApplyCuts(ApplyCuts(text, Running(edits, 0)), InOrder(rest))
  {
    var lists := [edits] + rest;
    assert lists[0] == edits && lists[1..] == rest;
    ApplyCutsConcat(text, Running(edits, 0), InOrder(rest));
  }

  lemma {:induction false} OneDelta(text: Text, delta: seq<DeltaOp>)
    requires DeltaFits(|text|, delta)
    ensures Valid(|text|, Running(DeltaEdits(delta), 0))
    ensures ApplyCuts(text, Running(DeltaEdits(delta), 0)) == ApplyDelta(text, delta)
    ensures |ApplyDelta(text, delta)| == |text| + Net(DeltaEdits(delta))
  {
    DeltaBecomesEdits(text, delta);
    DeltaLength(text, delta);
  }

  lemma {:induction false} DeltaLength(text: Text, delta: seq<DeltaOp>)
    requires DeltaFits(|text|, delta)
    ensures |ApplyDelta(text, delta)| == |text| + Net(DeltaEdits(delta))
  {
    DeltaBecomesEdits(text, delta);
    RunningEdits(text, DeltaEdits(delta));
    EditedLength(text, DeltaEdits(delta), |text|);
  }

  /** Successive deltas, each turned into edits and all composed, make their text. */
  lemma {:induction false} ComposedDeltas(text: Text, deltas: seq<seq<DeltaOp>>)
    requires DeltasFit(text, deltas)
    ensures ListsValid(|text|, EditLists(deltas))
    ensures Valid(|text|, Running(Composed(EditLists(deltas), 0), 0))
    ensures ApplyCuts(text, Running(Composed(EditLists(deltas), 0), 0)) == ApplyDeltas(text, deltas)
  {
    ComposedRuns(EditLists(deltas), 0);
    DeltasInOrder(text, deltas);
  }
}
