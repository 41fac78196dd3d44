/**
 * Phase 1 of the comment-anchor planner: one file's attached anchors move
 * through one batch of edits, and the deleted pieces are remembered.
 */
module AnchorEdits {
  import opened Common
  import opened Sequences
  import opened Utf16
  import opened SessionMemory

  datatype Quote = Quote(exact: Text, prefix: Text, suffix: Text)

  datatype Anchor = Anchor(
    id: string, file: string, from: int, to: int, detached: bool,
    fragment: Option<string>, offset: Option<int>, length: Option<int>,
    quote: Quote, collapsed: bool, unresolved: bool)

  /** The planner moves only anchors that resolve to a span. */
  predicate Attached(a: Anchor) {
    !a.detached && !a.collapsed && !a.unresolved
  }

  /**
   * An anchor with the planner's bookkeeping: `isSet` is the state "set",
   * and `moved` says that the anchor is in the file's moved set.
   */
  datatype Planned = Planned(a: Anchor, isSet: bool, touched: bool, moved: bool, movedFrom: Option<string>)

  function Fresh(a: Anchor): Planned {
    Planned(a, false, false, false, None)
  }

  datatype Edit = Edit(from: int, to: int, insert: Text)

  /** The part of one edit's deleted text that one tracked fragment holds. */
  datatype FragmentRange = FragmentRange(id: string, edit: nat, start: nat, end: nat)

  datatype Insertion = Insertion(at: int, text: Text)

  // ------------------------------------------------------- running coordinates

  /** An edit in the coordinates of the text it applies to. */
  datatype Cut = Cut(ef: int, et: int, insert: Text)

  function NetChange(e: Edit): int {
    |e.insert| - (e.to - e.from)
  }

  function Running(edits: seq<Edit>, adj: int): seq<Cut> {
    if edits == [] then []
    else [Cut(edits[0].from + adj, edits[0].to + adj, edits[0].insert)]
         + Running(edits[1..], adj + NetChange(edits[0]))
  }

  predicate CutFits(len: nat, c: Cut) {
    0 <= c.ef <= c.et <= len
  }

  /** What a caller promises: every edit is inside the text it applies to. */
  predicate Valid(len: nat, cuts: seq<Cut>)
    decreases cuts
  {
    cuts == [] || (CutFits(len, cuts[0]) && Valid(len + |cuts[0].insert| - (cuts[0].et - cuts[0].ef), cuts[1..]))
  }

  function ApplyCut(text: Text, c: Cut): (r: Text)
    requires CutFits(|text|, c)
    ensures |r| == |text| + |c.insert| - (c.et - c.ef)
  {
    text[..c.ef] + c.insert + text[c.et..]
  }

  function ApplyCuts(text: Text, cuts: seq<Cut>): Text
    requires Valid(|text|, cuts)
    decreases |cuts|
  {
    if cuts == [] then text else ApplyCuts(ApplyCut(text, cuts[0]), cuts[1..])
  }

  /** An edit that deletes nothing and inserts nothing is skipped. */
  predicate Idle(c: Cut) {
    c.ef == c.et && c.insert == []
  }

  lemma {:induction false} IdleKeeps(text: Text, c: Cut)
    requires CutFits(|text|, c)
    ensures Idle(c) ==> ApplyCut(text, c) == text
  {
    assert c.ef == c.et ==> text[..c.ef] + [] + text[c.et..] == text;
  }

  // ------------------------------------------------------- one anchor, one edit

  /** Where a position goes when [ef, et) is deleted. */
  function AfterDelete(p: int, ef: int, et: int): int {
    if p < ef then p else if p >= et then p - (et - ef) else ef
  }

  predicate Covers(c: Cut, a: Anchor) {
    c.ef <= a.from && c.et >= a.to
  }

  /** The deletion took a part of the anchor and left another part. */
  predicate Partial(c: Cut, a: Anchor) {
    c.et > c.ef && Attached(a) && !Covers(c, a) && a.from < c.et && a.to > c.ef
  }

  function FragmentFor(fragments: seq<FragmentRange>, edit: nat, from: int, to: int): Option<FragmentRange> {
    if fragments == [] then None
    else
      var f := fragments[0];
      if f.edit == edit && from >= f.start && to <= f.end then Some(f)
      else FragmentFor(fragments[1..], edit, from, to)
  }

  /** What the rest of the operation gives to one edit. */
  datatype Context = Context(edit: nat, fragments: seq<FragmentRange>, foreign: bool)

  function DeleteUnder(p: Planned, c: Cut, ctx: Context): Planned {
    var a := p.a;
    if c.et <= c.ef || !Attached(a) then p
    else if Covers(c, a) then
      if ctx.foreign then p.(touched := true, a := a.(collapsed := true, from := c.ef, to := c.ef))
      else
        var f := FragmentFor(ctx.fragments, ctx.edit, a.from - c.ef, a.to - c.ef);
        p.(touched := true, isSet := true,
           a := a.(detached := true, from := 0, to := 0, length := Some(a.to - a.from),
                   fragment := if f.Some? then Some(f.value.id) else None,
                   offset := if f.Some? then Some(a.from - c.ef - f.value.start) else None))
    else
      var b := a.(from := AfterDelete(a.from, c.ef, c.et), to := AfterDelete(a.to, c.ef, c.et));
      p.(a := b, touched := p.touched || Partial(c, a), moved := p.moved || b != a)
  }

  function InsertUnder(p: Planned, c: Cut, partial: bool): Planned {
    var a := p.a;
    var n := |c.insert|;
    if n == 0 || !Attached(a) then p
    else if partial then p.(a := a.(to := a.to + n), moved := true)
    else if c.ef <= a.from then p.(a := a.(from := a.from + n, to := a.to + n), moved := true)
    else if c.ef < a.to then p.(a := a.(to := a.to + n), moved := true)
    else p
  }

  function StepAnchor(p: Planned, c: Cut, ctx: Context): (r: Planned)
    ensures r.a.id == p.a.id
  {
    InsertUnder(DeleteUnder(p, c, ctx), c, Partial(c, p.a))
  }

  function StepAnchors(ps: seq<Planned>, c: Cut, ctx: Context): (r: seq<Planned>)
    ensures |r| == |ps| && forall i :: 0 <= i < |r| ==> r[i] == StepAnchor(ps[i], c, ctx)
  {
    seq(|ps|, i requires 0 <= i < |ps| => StepAnchor(ps[i], c, ctx))
  }

  // ------------------------------------------------------- what a deletion takes

  predicate InText(text: Text, a: Anchor) {
    0 <= a.from < a.to <= |text|
  }

  /** Every attached anchor is a span of the text that is not empty. */
  predicate Placed(text: Text, ps: seq<Planned>) {
    forall p <- ps :: Attached(p.a) ==> InText(text, p.a)
  }

  function PieceOf(a: Anchor, cur: Text, c: Cut, foreign: bool): seq<Held>
    requires CutFits(|cur|, c) && (Attached(a) ==> InText(cur, a))
  {
    if foreign || c.et <= c.ef || !Attached(a) then []
    else if Covers(c, a) then [Held(a.id, a.from - c.ef, cur[a.from..a.to], Whole)]
    else if !Partial(c, a) then []
    else if c.ef <= a.from then [Held(a.id, a.from - c.ef, cur[a.from..c.et], Head)]
    else if c.et >= a.to then [Held(a.id, 0, cur[c.ef..a.to], Tail)]
    else []
  }

  function PiecesOf(ps: seq<Planned>, cur: Text, c: Cut, foreign: bool): seq<Held>
    requires CutFits(|cur|, c) && Placed(cur, ps)
  {
    if ps == [] then []
    else PieceOf(ps[0].a, cur, c, foreign) + PiecesOf(ps[1..], cur, c, foreign)
  }

  // ------------------------------------------------------- earlier insertions

  function Follow(ins: Insertion, c: Cut): Option<Insertion> {
    if c.et <= ins.at then Some(ins.(at := ins.at + |c.insert| - (c.et - c.ef)))
    else if c.ef >= ins.at + |ins.text| then Some(ins)
    else None
  }

  function FollowAll(inserts: seq<Insertion>, c: Cut): seq<Insertion> {
    if inserts == [] then []
    else
      var f := Follow(inserts[0], c);
      (if f.Some? then [f.value] else []) + FollowAll(inserts[1..], c)
  }

  // ------------------------------------------------------- one file, one batch

  datatype FileState = FileState(cur: Text, anchors: seq<Planned>, inserts: seq<Insertion>)

  function StepFile(st: FileState, c: Cut, ctx: Context): FileState
    requires CutFits(|st.cur|, c)
  {
    if Idle(c) then st
    else FileState(ApplyCut(st.cur, c), StepAnchors(st.anchors, c, ctx),
                   FollowAll(st.inserts, c) + if c.insert == [] then [] else [Insertion(c.ef, c.insert)])
  }

  function StepMemory(m: Memory, st: FileState, c: Cut, foreign: bool): Memory
    requires CutFits(|st.cur|, c) && Placed(st.cur, st.anchors)
  {
    Remembered(m, st.cur[c.ef..c.et], PiecesOf(st.anchors, st.cur, c, foreign))
  }

  lemma {:induction false} StepInText(cur: Text, p: Planned, c: Cut, ctx: Context)
    requires CutFits(|cur|, c) && (Attached(p.a) ==> InText(cur, p.a))
    ensures Attached(StepAnchor(p, c, ctx).a) ==> Attached(p.a) && InText(ApplyCut(cur, c), StepAnchor(p, c, ctx).a)
  {
    DeletedInText(|cur|, p, c, ctx);
    InsertedInText(|cur| - (c.et - c.ef), DeleteUnder(p, c, ctx), c, Partial(c, p.a));
  }

  /** An anchor the deletion leaves attached is a span of what it leaves, on both sides of it if it was partial. */
  lemma {:induction false} DeletedInText(len: nat, p: Planned, c: Cut, ctx: Context)
    requires CutFits(len, c) && (Attached(p.a) ==> 0 <= p.a.from < p.a.to <= len)
    ensures var a := DeleteUnder(p, c, ctx).a;
            Attached(a) ==>
              && Attached(p.a) && 0 <= a.from < a.to <= len - (c.et - c.ef)
              && (Partial(c, p.a) ==> a.from <= c.ef <= a.to)
  {
  }

  lemma {:induction false} InsertedInText(len: nat, p: Planned, c: Cut, partial: bool)
    requires Attached(p.a) ==> 0 <= p.a.from < p.a.to <= len
    ensures var a := InsertUnder(p, c, partial).a;
            Attached(a) ==> Attached(p.a) && 0 <= a.from < a.to <= len + |c.insert|
  {
  }

  lemma {:induction false} StepPlaced(st: FileState, c: Cut, ctx: Context)
    requires CutFits(|st.cur|, c) && Placed(st.cur, st.anchors)
    ensures Placed(StepFile(st, c, ctx).cur, StepFile(st, c, ctx).anchors)
  {
    if !Idle(c) {
      var ps := StepAnchors(st.anchors, c, ctx);
      forall i | 0 <= i < |ps|
        ensures Attached(ps[i].a) ==> InText(ApplyCut(st.cur, c), ps[i].a)
      {
        assert st.anchors[i] in st.anchors;
        StepInText(st.cur, st.anchors[i], c, ctx);
      }
    }
  }

  function RunFile(st: FileState, cuts: seq<Cut>, ctx: Context): FileState
    requires Valid(|st.cur|, cuts)
    decreases |cuts|
  {
    if cuts == [] then st
    else RunFile(StepFile(st, cuts[0], ctx), cuts[1..], ctx.(edit := ctx.edit + 1))
  }

  function RunMemory(m: Memory, st: FileState, cuts: seq<Cut>, ctx: Context): Memory
    requires Valid(|st.cur|, cuts) && Placed(st.cur, st.anchors)
    decreases |cuts|
  {
    if cuts == [] then m
    else
      StepPlaced(st, cuts[0], ctx);
      RunMemory(StepMemory(m, st, cuts[0], ctx.foreign), StepFile(st, cuts[0], ctx), cuts[1..],
                ctx.(edit := ctx.edit + 1))
  }

  // ------------------------------------------------------- pieces fit

  lemma {:induction false} PiecesFit(ps: seq<Planned>, cur: Text, c: Cut, foreign: bool)
    requires CutFits(|cur|, c) && Placed(cur, ps)
    ensures forall h <- PiecesOf(ps, cur, c, foreign) :: Fits(cur[c.ef..c.et], h)
    ensures PiecesOf(ps, cur, c, foreign) != [] ==> cur[c.ef..c.et] != []
  {
    if ps == [] {
    } else {
      assert ps[0] in ps;
      PiecesFit(ps[1..], cur, c, foreign);
      var a := ps[0].a;
      if Attached(a) && Covers(c, a) {
        SliceOfSlice(cur, c.ef, c.et, a.from - c.ef, a.to - c.ef);
      } else if Partial(c, a) && c.ef <= a.from {
        SliceOfSlice(cur, c.ef, c.et, a.from - c.ef, c.et - c.ef);
      } else if Partial(c, a) && c.et >= a.to {
        SliceOfSlice(cur, c.ef, c.et, 0, a.to - c.ef);
      }
    }
  }

  lemma {:induction false} StepMemorySound(m: Memory, st: FileState, c: Cut, foreign: bool)
    requires CutFits(|st.cur|, c) && Placed(st.cur, st.anchors) && Sound(m)
    ensures Sound(StepMemory(m, st, c, foreign))
  {
    PiecesFit(st.anchors, st.cur, c, foreign);
    RememberSound(m, st.cur[c.ef..c.et], PiecesOf(st.anchors, st.cur, c, foreign));
  }

  /** Memory entries hold pieces that sit at their offset, through every batch. */
  lemma {:induction false} RunMemorySound(m: Memory, st: FileState, cuts: seq<Cut>, ctx: Context)
    requires Valid(|st.cur|, cuts) && Placed(st.cur, st.anchors) && Sound(m)
    ensures Sound(RunMemory(m, st, cuts, ctx))
    ensures Placed(RunFile(st, cuts, ctx).cur, RunFile(st, cuts, ctx).anchors)
    decreases |cuts|
  {
    if cuts == [] {
    } else {
      StepMemorySound(m, st, cuts[0], ctx.foreign);
      StepPlaced(st, cuts[0], ctx);
      RunMemorySound(StepMemory(m, st, cuts[0], ctx.foreign), StepFile(st, cuts[0], ctx), cuts[1..],
                     ctx.(edit := ctx.edit + 1));
    }
  }

  lemma {:induction false} RunText(st: FileState, cuts: seq<Cut>, ctx: Context)
    requires Valid(|st.cur|, cuts)
    ensures RunFile(st, cuts, ctx).cur == ApplyCuts(st.cur, cuts)
    decreases |cuts|
  {
    if cuts == [] {
    } else {
      IdleKeeps(st.cur, cuts[0]);
      RunText(StepFile(st, cuts[0], ctx), cuts[1..], ctx.(edit := ctx.edit + 1));
    }
  }

  // ------------------------------------------------------- insertions stay readable

  predicate Reads(cur: Text, ins: Insertion) {
    ins.text != [] && OccursAt(cur, ins.text, ins.at)
  }

  predicate Apart(x: Insertion, y: Insertion) {
    x.at + |x.text| <= y.at || y.at + |y.text| <= x.at
  }

  predicate PairwiseApart(inserts: seq<Insertion>) {
    forall i, j :: 0 <= i < j < |inserts| ==> Apart(inserts[i], inserts[j])
  }

  predicate Readable(cur: Text, inserts: seq<Insertion>) {
    PairwiseApart(inserts) && forall ins <- inserts :: Reads(cur, ins)
  }

  lemma {:induction false} FollowReads(cur: Text, ins: Insertion, c: Cut)
    requires CutFits(|cur|, c) && Reads(cur, ins) && Follow(ins, c).Some?
    ensures Reads(ApplyCut(cur, c), Follow(ins, c).value)
    ensures !Idle(c) && c.insert != [] ==> Apart(Follow(ins, c).value, Insertion(c.ef, c.insert))
  {
    var r := ApplyCut(cur, c);
    var f := Follow(ins, c).value;
    forall k | 0 <= k < |ins.text|
      ensures r[f.at + k] == ins.text[k]
    {
      assert cur[ins.at..ins.at + |ins.text|][k] == cur[ins.at + k];
    }
    assert r[f.at..f.at + |f.text|] == ins.text;
  }

  lemma {:induction false} FollowAllMembers(inserts: seq<Insertion>, c: Cut)
    ensures forall y <- FollowAll(inserts, c) :: exists x <- inserts :: Follow(x, c) == Some(y)
  {
    if inserts == [] {
    } else {
      FollowAllMembers(inserts[1..], c);
      assert inserts == [inserts[0]] + inserts[1..];
    }
  }

  lemma {:induction false} FollowAllApart(inserts: seq<Insertion>, c: Cut)
    requires PairwiseApart(inserts) && c.ef <= c.et
    ensures PairwiseApart(FollowAll(inserts, c))
  {
    if inserts == [] {
    } else {
      var rest := FollowAll(inserts[1..], c);
      FollowAllApart(inserts[1..], c);
      FollowAllMembers(inserts[1..], c);
      var f := Follow(inserts[0], c);
      if f.Some? {
        forall j | 0 <= j < |rest|
          ensures Apart(f.value, rest[j])
        {
          var x :| x in inserts[1..] && Follow(x, c) == Some(rest[j]);
          assert Apart(inserts[0], x);
        }
      }
    }
  }

  lemma {:induction false} StepReadable(st: FileState, c: Cut, ctx: Context)
    requires CutFits(|st.cur|, c) && Readable(st.cur, st.inserts)
    ensures Readable(StepFile(st, c, ctx).cur, StepFile(st, c, ctx).inserts)
  {
    if !Idle(c) {
      var cur := ApplyCut(st.cur, c);
      var kept := FollowAll(st.inserts, c);
      FollowAllApart(st.inserts, c);
      FollowAllMembers(st.inserts, c);
      forall y <- kept
        ensures Reads(cur, y)
        ensures c.insert != [] ==> Apart(y, Insertion(c.ef, c.insert))
      {
        var x :| x in st.inserts && Follow(x, c) == Some(y);
        FollowReads(st.cur, x, c);
      }
      assert c.insert != [] ==> Reads(cur, Insertion(c.ef, c.insert));
    }
  }

  /**
   * After any batch, composed or not, every insertion still listed reads
   * verbatim at its recorded offset, and no two of them share a character.
   */
  lemma {:induction false} InsertionsStayReadable(st: FileState, cuts: seq<Cut>, ctx: Context)
    requires Valid(|st.cur|, cuts) && Readable(st.cur, st.inserts)
    ensures Readable(RunFile(st, cuts, ctx).cur, RunFile(st, cuts, ctx).inserts)
    decreases |cuts|
  {
    if cuts == [] {
    } else {
      StepReadable(st, cuts[0], ctx);
      InsertionsStayReadable(StepFile(st, cuts[0], ctx), cuts[1..], ctx.(edit := ctx.edit + 1));
    }
  }
}
