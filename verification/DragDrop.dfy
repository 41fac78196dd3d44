/**
 * Drag and drop: one operation deletes a text and inserts it elsewhere, in
 * the same file or in another, and the comments in it go with it.
 */
module DragDrop {
  import opened Sequences
  import opened Utf16
  import opened SessionMemory
  import opened AnchorEdits
  import opened AnchorRepin
  import opened AnchorPlan
  import opened CutPaste

  /** The edits of the two files, or of the one, in the order the operation lists them. */
  predicate IsDrag(files: seq<PlanFile>, c: nat, ef: int, et: int, d: nat, at: int, s: Text) {
    && (forall f <- files :: FileOk(f)) && c < |files| && d < |files| && s != []
    && 0 <= ef < et <= |files[c].before| && 0 <= at <= |files[d].before|
    && (forall i :: 0 <= i < |files| && i != c && i != d ==> files[i].edits == [])
    && if c != d then files[c].edits == [Edit(ef, et, [])] && files[d].edits == [Edit(at, at, s)]
       else if at <= ef then files[c].edits == [Edit(at, at, s), Edit(ef, et, [])]
       else et <= at && files[c].edits == [Edit(ef, et, []), Edit(at, at, s)]
  }

  /** Where the dropped text is when the operation is done. */
  function DropAt(c: nat, ef: int, et: int, d: nat, at: int): int {
    if c == d && at > ef then at - (et - ef) else at
  }

  // ------------------------------------------------------- what lands

  /** The piece a deletion at `ef` takes of an anchor it takes whole. */
  function HeldFor(f: PlanFile, ef: int, a: Anchor): Held
    requires InText(f.before, a) && ef <= a.from
  {
    Held(a.id, a.from - ef, f.before[a.from..a.to], Whole)
  }

  /** The entry is the deleted text with the anchor's piece, and no comment has two. */
  predicate Carries(f: PlanFile, ef: int, et: int, a: Anchor, e: Entry)
    requires InText(f.before, a) && 0 <= ef <= a.from && a.to <= et <= |f.before|
  {
    && e.text == f.before[ef..et] && DistinctHeld(e.held)
    && HeldFor(f, ef, a) in e.held && Fits(e.text, HeldFor(f, ef, a))
  }

  /** The anchor `x` waits as `a` would, detached by the deletion. */
  predicate WaitsAs(x: Planned, a: Anchor) {
    x.a.id == a.id && Waits(x)
  }

  /**
   * One text is remembered when phase 1 is done, and whatever else the
   * operation inserts, one of its insertions alone holds that text, once. Every
   * anchor that is ready for a piece of it takes the piece.
   */
  lemma {:induction false} RememberedLands(files: seq<PlanFile>, m: Memory, e: Entry, d: nat, k: nat, ins: Insertion,
                                          o: nat, h: Held, j: int, x: Planned) returns (q: Planned)
    requires (forall f <- files :: FileOk(f)) && UniqueInput(files)
    requires Memorised(m, files, false).entries == [e] && h in e.held && DistinctHeld(e.held) && Fits(e.text, h)
    requires LoneHolder(WorksOf(files, false), d, k, e) && ins == WorksOf(files, false)[d].inserts[k]
    requires OnlyAt(ins.text, e.text, o) && OccursAt(WorksOf(files, false)[d].after, ins.text, ins.at)
    requires Has(WorksOf(files, false), j, x) && Ready(d, ins.at + o + h.offset, h, j, x)
    ensures var r := Plan(files, m, false);
            && Has(r.works, d, q) && GrewBy(x, q, h, ins.at + o + h.offset)
            && OccursAt(r.works[d].after, h.text, ins.at + o + h.offset)
  {
    var works := WorksOf(files, false);
    LandsInside(works[d].after, ins, e.text, o, h);
    WorksUnique(files, false);
    q := HitPins(Repin(works, Memorised(m, files, false), []), d, k, ins, e, o, h, j, x);
  }

  lemma {:induction false} LandsInside(after: Text, ins: Insertion, text: Text, o: nat, h: Held)
    requires OccursAt(after, ins.text, ins.at) && OccursAt(ins.text, text, o) && Fits(text, h)
    ensures OccursAt(after, h.text, ins.at + o + h.offset)
  {
    OccursWithin(after, ins.text, ins.at, text, o);
    OccursWithin(after, text, ins.at + o, h.text, h.offset);
  }

  lemma {:induction false} InsertedReads(before: Text, at: int, s: Text)
    requires 0 <= at <= |before|
    ensures OccursAt(before[..at] + s + before[at..], s, at)
  {
    assert (before[..at] + s + before[at..])[at..at + |s|] == s;
  }

  // ------------------------------------------------------- what is remembered

  /** A file that deletes nothing. */
  predicate DeletesNothing(f: PlanFile) {
    f.edits == [] || (|f.edits| == 1 && f.edits[0].from == f.edits[0].to)
  }

  lemma {:induction false} NothingRemembered(m: Memory, f: PlanFile)
    requires FileOk(f) && DeletesNothing(f)
    ensures FileMemory(m, f, false) == m
  {
    if f.edits != [] {
      var e := f.edits[0];
      OneStep(f, e, m);
      NoPieces(FreshAll(f.anchors), f.before, Cut(e.from, e.to, e.insert));
    }
  }

  lemma {:induction false} NoneRemember(m: Memory, files: seq<PlanFile>)
    requires forall f <- files :: FileOk(f) && DeletesNothing(f)
    ensures Memorised(m, files, false) == m
    decreases files
  {
    if files != [] {
      assert files[0] in files;
      NothingRemembered(m, files[0]);
      NoneRemember(m, files[1..]);
    }
  }

  lemma {:induction false} OnlyOneRemembers(m: Memory, files: seq<PlanFile>, c: nat)
    requires (forall f <- files :: FileOk(f)) && c < |files|
    requires forall i :: 0 <= i < |files| && i != c ==> DeletesNothing(files[i])
    ensures Memorised(m, files, false) == FileMemory(m, files[c], false)
    decreases files
  {
    if c == 0 {
      NoneRemember(FileMemory(m, files[0], false), files[1..]);
    } else {
      NothingRemembered(m, files[0]);
      OnlyOneRemembers(m, files[1..], c - 1);
    }
  }

  /** The piece of an anchor the deletion takes whole, among the pieces of a file with unique ids. */
  lemma {:induction false} WholePieceHeld(ps: seq<Planned>, cur: Text, c: Cut, p: Planned)
    requires CutFits(|cur|, c) && c.ef < c.et && Placed(cur, ps) && p in ps && (forall id :: Count(ps, id) <= 1)
    requires Attached(p.a) && Covers(c, p.a)
    ensures var held := PiecesOf(ps, cur, c, false);
            var h := Held(p.a.id, p.a.from - c.ef, cur[p.a.from..p.a.to], Whole);
            h in held && DistinctHeld(held) && Fits(cur[c.ef..c.et], h)
  {
    PieceKept(ps, cur, c, p, Held(p.a.id, p.a.from - c.ef, cur[p.a.from..p.a.to], Whole));
    PiecesFit(ps, cur, c, false);
    PiecesDistinct(ps, cur, c);
  }

  // ------------------------------------------------------- the deletion and the drop in place

  /** The comment of `a` ends attached over exactly its old text, as far into the drop as it was into the deleted text. */
  predicate Dragged(f: PlanFile, ef: int, r: Repin, d: nat, at: int, a: Anchor, q: Planned)
    requires InText(f.before, a)
  {
    && d < |r.works| && q in r.works[d].anchors && q.a.id == a.id && Attached(q.a)
    && q.a.from == at + (a.from - ef) && q.a.to - q.a.from == a.to - a.from
    && InText(r.works[d].after, q.a) && r.works[d].after[q.a.from..q.a.to] == f.before[a.from..a.to]
  }

  lemma {:induction false} CarriedLands(files: seq<PlanFile>, m: Memory, e: Entry, c: nat, ef: int, et: int, i: nat,
                                       d: nat, ins: Insertion, o: nat, x: Planned) returns (q: Planned)
    requires (forall f <- files :: FileOk(f)) && UniqueInput(files) && c < |files| && i < |files[c].anchors|
    requires InText(files[c].before, files[c].anchors[i])
    requires 0 <= ef <= files[c].anchors[i].from && files[c].anchors[i].to <= et <= |files[c].before|
    requires Memorised(m, files, false).entries == [e] && Carries(files[c], ef, et, files[c].anchors[i], e)
    requires OnlyInsertion(WorksOf(files, false), d, ins) && ins.at >= 0 && OnlyAt(ins.text, e.text, o)
    requires OccursAt(WorksOf(files, false)[d].after, ins.text, ins.at)
    requires Has(WorksOf(files, false), c, x) && WaitsAs(x, files[c].anchors[i])
    ensures Dragged(files[c], ef, Plan(files, m, false), d, ins.at + o, files[c].anchors[i], q)
  {
    var h := HeldFor(files[c], ef, files[c].anchors[i]);
    q := PieceCarried(files, m, e, files[c], ef, files[c].anchors[i], c, d, ins, o, x, h);
  }

  lemma {:induction false} PieceCarried(files: seq<PlanFile>, m: Memory, e: Entry, f: PlanFile, ef: int, a: Anchor,
                                       j: nat, d: nat, ins: Insertion, o: nat, x: Planned, h: Held) returns (q: Planned)
    requires (forall g <- files :: FileOk(g)) && UniqueInput(files)
    requires InText(f.before, a) && 0 <= ef <= a.from && h == HeldFor(f, ef, a)
    requires Memorised(m, files, false).entries == [e] && e.text != [] && h in e.held && DistinctHeld(e.held) && Fits(e.text, h)
    requires OnlyInsertion(WorksOf(files, false), d, ins) && ins.at >= 0 && OnlyAt(ins.text, e.text, o)
    requires OccursAt(WorksOf(files, false)[d].after, ins.text, ins.at)
    requires Has(WorksOf(files, false), j, x) && WaitsAs(x, a)
    ensures Dragged(f, ef, Plan(files, m, false), d, ins.at + o, a, q)
  {
    WaitingIsReady(f, ef, a, d, ins.at + o + h.offset, j, x);
    q := DroppedLands(files, m, e, d, ins, o, h, j, x);
    PinnedReads(f, ef, a, Plan(files, m, false), d, ins.at + o, x, q, h, ins.at + o + h.offset);
  }

  lemma {:induction false} DroppedLands(files: seq<PlanFile>, m: Memory, e: Entry, d: nat, ins: Insertion, o: nat,
                                       h: Held, j: int, x: Planned) returns (q: Planned)
    requires (forall f <- files :: FileOk(f)) && UniqueInput(files)
    requires Memorised(m, files, false).entries == [e] && e.text != [] && h in e.held && DistinctHeld(e.held) && Fits(e.text, h)
    requires OnlyInsertion(WorksOf(files, false), d, ins)
    requires OnlyAt(ins.text, e.text, o) && OccursAt(WorksOf(files, false)[d].after, ins.text, ins.at)
    requires Has(WorksOf(files, false), j, x) && Ready(d, ins.at + o + h.offset, h, j, x)
    ensures var r := Plan(files, m, false);
            && Has(r.works, d, q) && GrewBy(x, q, h, ins.at + o + h.offset)
            && OccursAt(r.works[d].after, h.text, ins.at + o + h.offset)
  {
    AloneHolds(WorksOf(files, false), d, ins, e);
    q := RememberedLands(files, m, e, d, 0, ins, o, h, j, x);
  }

  lemma {:induction false} AloneHolds(works: seq<Work>, d: nat, ins: Insertion, e: Entry)
    requires OnlyInsertion(works, d, ins) && e.text != []
    ensures LoneHolder(works, d, 0, e) && works[d].inserts[0] == ins
  {
  }

  lemma {:induction false} WaitingIsReady(f: PlanFile, ef: int, a: Anchor, d: nat, from: int, j: int, x: Planned)
    requires InText(f.before, a) && 0 <= ef <= a.from && WaitsAs(x, a) && from >= 0
    ensures Ready(d, from, HeldFor(f, ef, a), j, x)
  {
  }

  lemma {:induction false} PinnedReads(f: PlanFile, ef: int, a: Anchor, r: Repin, d: nat, at: int, x: Planned, q: Planned,
                                      h: Held, from: int)
    requires InText(f.before, a) && 0 <= ef <= a.from && WaitsAs(x, a) && Has(r.works, d, q)
    requires h == HeldFor(f, ef, a) && from == at + h.offset
    requires GrewBy(x, q, h, from) && OccursAt(r.works[d].after, h.text, from)
    ensures Dragged(f, ef, r, d, at, a, q)
  {
  }

  lemma {:induction false} UniqueInFile(files: seq<PlanFile>, c: nat)
    requires UniqueInput(files) && c < |files|
    ensures forall id :: Count(FreshAll(files[c].anchors), id) <= 1
  {
    forall id ensures Count(FreshAll(files[c].anchors), id) <= 1 { FileInput(files, c, id); }
  }

  // ------------------------------------------------------- two files

  /** The file the text is taken from. */
  lemma {:induction false} CutFile(f: PlanFile, ef: int, et: int, i: nat, m: Memory) returns (e: Entry, x: Planned)
    requires FileOk(f) && f.edits == [Edit(ef, et, [])] && 0 <= ef < et <= |f.before|
    requires i < |f.anchors| && Attached(f.anchors[i]) && InText(f.before, f.anchors[i])
    requires ef <= f.anchors[i].from && f.anchors[i].to <= et
    requires (forall id :: Count(FreshAll(f.anchors), id) <= 1) && m.entries == [] && m.limit > 0
    ensures FileMemory(m, f, false).entries == [e] && Carries(f, ef, et, f.anchors[i], e)
    ensures x in WorkOf(f, false).anchors && WaitsAs(x, f.anchors[i]) && WorkOf(f, false).inserts == []
  {
    OneStep(f, Edit(ef, et, []), m);
    e := DeletionCarries(f, Cut(ef, et, []), i, m.next);
    FirstRemembered(m, e.text, e.held);
    CutDetaches(f, ef, et, i);
    x := WorkOf(f, false).anchors[i];
  }

  lemma {:induction false} DropsInto(files: seq<PlanFile>, c: nat, ef: int, et: int, d: nat, at: int, s: Text)
    requires IsDrag(files, c, ef, et, d, at, s) && c != d
    ensures OnlyInsertion(WorksOf(files, false), d, Insertion(at, s))
    ensures WorkOf(files[d], false).after == files[d].before[..at] + s + files[d].before[at..]
  {
    assert files[c] in files && files[d] in files;
    PasteWork(files[d], at, s);
    OneStep(files[c], Edit(ef, et, []), Memory(0, [], 0));
    forall i | 0 <= i < |files| && i != d
      ensures WorkOf(files[i], false).inserts == []
    {
      if i != c { assert Running(files[i].edits, 0) == []; }
    }
  }

  lemma {:induction false} DragBetweenFiles(files: seq<PlanFile>, c: nat, ef: int, et: int, d: nat, at: int, s: Text,
                                           m: Memory, i: nat, o: nat) returns (q: Planned)
    requires IsDrag(files, c, ef, et, d, at, s) && c != d && UniqueInput(files) && m.entries == [] && m.limit > 0
    requires i < |files[c].anchors| && Attached(files[c].anchors[i]) && InText(files[c].before, files[c].anchors[i])
    requires ef <= files[c].anchors[i].from && files[c].anchors[i].to <= et
    requires OnlyAt(s, CutText(files[c], ef, et), o)
    ensures Dragged(files[c], ef, Plan(files, m, false), d, at + o, files[c].anchors[i], q)
  {
    assert files[c] in files && files[d] in files;
    UniqueInFile(files, c);
    var e, x := CutFile(files[c], ef, et, i, m);
    OnlyOneRemembers(m, files, c);
    DropsInto(files, c, ef, et, d, at, s);
    InsertedReads(files[d].before, at, s);
    q := CarriedLands(files, m, e, c, ef, et, i, d, Insertion(at, s), o, x);
  }

  // ------------------------------------------------------- one file

  /** A batch of two edits is two steps. */
  lemma {:induction false} TwoSteps(f: PlanFile, c1: Cut, c2: Cut, st: FileState)
    requires FileOk(f) && Running(f.edits, 0) == [c1, c2]
    requires CutFits(|f.before|, c1) ==> st == StepFile(Start(f), c1, Context(0, f.fragments, false))
    ensures CutFits(|f.before|, c1) && CutFits(|st.cur|, c2) && Placed(f.before, FreshAll(f.anchors))
    ensures st.cur == ApplyCut(f.before, c1) && Placed(st.cur, st.anchors)
    ensures Phase1(f, false) == StepFile(st, c2, Context(1, f.fragments, false))
  {
    var ctx := Context(0, f.fragments, false);
    assert [c1, c2][1..] == [c2] && [c2][1..] == [];
    assert Valid(|f.before| + |c1.insert| - (c1.et - c1.ef), [c2]);
    IdleKeeps(f.before, c1);
    StepPlaced(Start(f), c1, ctx);
    var st2 := StepFile(st, c2, ctx.(edit := 1));
    assert RunFile(st2, [], ctx.(edit := 2)) == st2;
    assert RunFile(st, [c2], ctx.(edit := 1)) == st2;
  }

  lemma {:induction false} TwoStepsMemory(f: PlanFile, c1: Cut, c2: Cut, st: FileState, m: Memory)
    requires FileOk(f) && Running(f.edits, 0) == [c1, c2] && CutFits(|f.before|, c1) && Placed(f.before, FreshAll(f.anchors))
    requires st == StepFile(Start(f), c1, Context(0, f.fragments, false)) && CutFits(|st.cur|, c2) && Placed(st.cur, st.anchors)
    ensures FileMemory(m, f, false) == StepMemory(StepMemory(m, Start(f), c1, false), st, c2, false)
  {
    var ctx := Context(0, f.fragments, false);
    assert [c1, c2][1..] == [c2] && [c2][1..] == [];
    StepPlaced(st, c2, ctx.(edit := 1));
    LastStepMemory(StepMemory(m, Start(f), c1, false), st, c2, ctx.(edit := 1));
  }

  lemma {:induction false} LastStepMemory(m: Memory, st: FileState, c: Cut, ctx: Context)
    requires CutFits(|st.cur|, c) && Placed(st.cur, st.anchors)
    ensures Valid(|st.cur|, [c]) && RunMemory(m, st, [c], ctx) == StepMemory(m, st, c, ctx.foreign)
  {
    assert [c][1..] == [];
    StepPlaced(st, c, ctx);
    var m1, st1 := StepMemory(m, st, c, ctx.foreign), StepFile(st, c, ctx);
    assert RunMemory(m1, st1, [], ctx.(edit := ctx.edit + 1)) == m1;
  }

  /** Only this file has edits, and it has one insertion. */
  lemma {:induction false} OnlyInsertionHere(files: seq<PlanFile>, c: nat, ins: Insertion)
    requires (forall f <- files :: FileOk(f)) && c < |files|
    requires forall i :: 0 <= i < |files| && i != c ==> files[i].edits == []
    requires WorkOf(files[c], false).inserts == [ins]
    ensures OnlyInsertion(WorksOf(files, false), c, ins)
  {
    forall i | 0 <= i < |files| && i != c
      ensures WorkOf(files[i], false).inserts == []
    {
      assert Running(files[i].edits, 0) == [];
    }
  }

  lemma {:induction false} RunningTwo(x: Edit, y: Edit)
    ensures Running([x, y], 0) == [Cut(x.from, x.to, x.insert), Cut(y.from + NetChange(x), y.to + NetChange(x), y.insert)]
  {
    assert [x, y][1..] == [y] && [y][1..] == [];
    assert Running([y], NetChange(x)) == [Cut(y.from + NetChange(x), y.to + NetChange(x), y.insert)];
  }

  /** What one file that both loses and gains the text leaves for phase 2. */
  ghost predicate DragsIn(f: PlanFile, m: Memory, ef: int, et: int, i: nat, ins: Insertion, e: Entry, x: Planned)
    requires FileOk(f) && i < |f.anchors| && InText(f.before, f.anchors[i])
    requires 0 <= ef <= f.anchors[i].from && f.anchors[i].to <= et <= |f.before|
  {
    && FileMemory(m, f, false).entries == [e] && Carries(f, ef, et, f.anchors[i], e)
    && WorkOf(f, false).inserts == [ins] && ins.at >= 0 && OccursAt(WorkOf(f, false).after, ins.text, ins.at)
    && x in WorkOf(f, false).anchors && WaitsAs(x, f.anchors[i])
  }

  lemma {:induction false} DragWithinFile(files: seq<PlanFile>, c: nat, ef: int, et: int, m: Memory, i: nat, ins: Insertion,
                                         e: Entry, x: Planned, o: nat) returns (q: Planned)
    requires (forall f <- files :: FileOk(f)) && UniqueInput(files) && c < |files| && i < |files[c].anchors|
    requires forall j :: 0 <= j < |files| && j != c ==> files[j].edits == []
    requires InText(files[c].before, files[c].anchors[i])
    requires 0 <= ef <= files[c].anchors[i].from && files[c].anchors[i].to <= et <= |files[c].before|
    requires DragsIn(files[c], m, ef, et, i, ins, e, x) && OnlyAt(ins.text, CutText(files[c], ef, et), o)
    ensures Dragged(files[c], ef, Plan(files, m, false), c, ins.at + o, files[c].anchors[i], q)
  {
    OnlyOneRemembers(m, files, c);
    OnlyInsertionHere(files, c, ins);
    q := CarriedLands(files, m, e, c, ef, et, i, c, ins, o, x);
  }

  /** Dropped after the place it came from: the deletion is made first. */
  lemma {:induction false} DownFile(f: PlanFile, ef: int, et: int, at: int, s: Text, m: Memory, i: nat)
    returns (e: Entry, x: Planned)
    requires FileOk(f) && f.edits == [Edit(ef, et, []), Edit(at, at, s)] && s != []
    requires 0 <= ef < et <= at <= |f.before|
    requires i < |f.anchors| && Attached(f.anchors[i]) && InText(f.before, f.anchors[i])
    requires ef <= f.anchors[i].from && f.anchors[i].to <= et
    requires (forall id :: Count(FreshAll(f.anchors), id) <= 1) && m.entries == [] && m.limit > 0
    ensures DragsIn(f, m, ef, et, i, Insertion(at - (et - ef), s), e, x)
  {
    var to := at - (et - ef);
    RunningTwo(f.edits[0], f.edits[1]);
    e, x := DownCuts(f, Cut(ef, et, []), Cut(to, to, s), m, i);
  }

  lemma {:induction false} DownCuts(f: PlanFile, c1: Cut, c2: Cut, m: Memory, i: nat) returns (e: Entry, x: Planned)
    requires FileOk(f) && Running(f.edits, 0) == [c1, c2] && CutFits(|f.before|, c1)
    requires c1.ef < c1.et && c1.insert == [] && c2.ef == c2.et && c2.insert != [] && m.entries == [] && m.limit > 0
    requires i < |f.anchors| && Attached(f.anchors[i]) && InText(f.before, f.anchors[i]) && Covers(c1, f.anchors[i])
    requires forall id :: Count(FreshAll(f.anchors), id) <= 1
    ensures c2.ef >= 0 && DragsIn(f, m, c1.ef, c1.et, i, Insertion(c2.ef, c2.insert), e, x)
  {
    var st := StepFile(Start(f), c1, Context(0, f.fragments, false));
    TwoSteps(f, c1, c2, st);
    e, x := DownSteps(f, c1, c2, st, m, i);
  }

  lemma {:induction false} DownSteps(f: PlanFile, c1: Cut, c2: Cut, st: FileState, m: Memory, i: nat)
    returns (e: Entry, x: Planned)
    requires FileOk(f) && Running(f.edits, 0) == [c1, c2] && CutFits(|f.before|, c1) && Placed(f.before, FreshAll(f.anchors))
    requires st == StepFile(Start(f), c1, Context(0, f.fragments, false)) && CutFits(|st.cur|, c2) && Placed(st.cur, st.anchors)
    requires Phase1(f, false) == StepFile(st, c2, Context(1, f.fragments, false))
    requires c1.ef < c1.et && c1.insert == [] && c2.ef == c2.et && c2.insert != [] && m.entries == [] && m.limit > 0
    requires i < |f.anchors| && Attached(f.anchors[i]) && InText(f.before, f.anchors[i]) && Covers(c1, f.anchors[i])
    requires forall id :: Count(FreshAll(f.anchors), id) <= 1
    ensures DragsIn(f, m, c1.ef, c1.et, i, Insertion(c2.ef, c2.insert), e, x)
  {
    e := DownMemory(f, c1, c2, st, m, i);
    x := DownWork(f, c1, c2, st, i);
  }

  /** A first deletion is remembered, and a later insertion adds nothing. */
  lemma {:induction false} DownMemory(f: PlanFile, c1: Cut, c2: Cut, st: FileState, m: Memory, i: nat) returns (e: Entry)
    requires FileOk(f) && Running(f.edits, 0) == [c1, c2] && CutFits(|f.before|, c1) && Placed(f.before, FreshAll(f.anchors))
    requires st == StepFile(Start(f), c1, Context(0, f.fragments, false)) && CutFits(|st.cur|, c2) && Placed(st.cur, st.anchors)
    requires c1.ef < c1.et && c2.ef == c2.et && m.entries == [] && m.limit > 0
    requires i < |f.anchors| && Attached(f.anchors[i]) && InText(f.before, f.anchors[i]) && Covers(c1, f.anchors[i])
    requires forall id :: Count(FreshAll(f.anchors), id) <= 1
    ensures FileMemory(m, f, false).entries == [e] && Carries(f, c1.ef, c1.et, f.anchors[i], e)
  {
    e := DeletionCarries(f, c1, i, m.next);
    FirstRemembered(m, e.text, e.held);
    NoPieces(st.anchors, st.cur, c2);
    TwoStepsMemory(f, c1, c2, st, m);
  }

  lemma {:induction false} DeletionCarries(f: PlanFile, c: Cut, i: nat, key: nat) returns (e: Entry)
    requires CutFits(|f.before|, c) && Placed(f.before, FreshAll(f.anchors)) && c.ef < c.et
    requires i < |f.anchors| && Attached(f.anchors[i]) && InText(f.before, f.anchors[i]) && Covers(c, f.anchors[i])
    requires forall id :: Count(FreshAll(f.anchors), id) <= 1
    ensures e == Entry(key, f.before[c.ef..c.et], PiecesOf(FreshAll(f.anchors), f.before, c, false)) && e.held != []
    ensures Carries(f, c.ef, c.et, f.anchors[i], e)
  {
    var ps := FreshAll(f.anchors);
    assert ps[i] in ps;
    WholePieceHeld(ps, f.before, c, ps[i]);
    e := Entry(key, f.before[c.ef..c.et], PiecesOf(ps, f.before, c, false));
  }

  lemma {:induction false} FirstRemembered(m: Memory, text: Text, held: seq<Held>)
    requires m.entries == [] && m.limit > 0 && text != [] && held != []
    ensures Remembered(m, text, held).entries == [Entry(m.next, text, held)]
  {
  }

  lemma {:induction false} DownWork(f: PlanFile, c1: Cut, c2: Cut, st: FileState, i: nat) returns (x: Planned)
    requires FileOk(f) && CutFits(|f.before|, c1) && c1.insert == [] && c1.ef < c1.et && c2.insert != [] && c2.ef == c2.et
    requires st == StepFile(Start(f), c1, Context(0, f.fragments, false)) && CutFits(|st.cur|, c2)
    requires Phase1(f, false) == StepFile(st, c2, Context(1, f.fragments, false))
    requires i < |f.anchors| && Attached(f.anchors[i]) && Covers(c1, f.anchors[i])
    ensures WorkOf(f, false).inserts == [Insertion(c2.ef, c2.insert)] && OccursAt(WorkOf(f, false).after, c2.insert, c2.ef)
    ensures x in WorkOf(f, false).anchors && WaitsAs(x, f.anchors[i])
  {
    assert st.anchors[i] == StepAnchor(Fresh(f.anchors[i]), c1, Context(0, f.fragments, false));
    InsertedReads(st.cur, c2.ef, c2.insert);
    x := WorkOf(f, false).anchors[i];
  }

  lemma {:induction false} ShiftedReads(before: Text, at: int, s: Text, from: int, to: int)
    requires 0 <= at <= from <= to <= |before|
    ensures ApplyCut(before, Cut(at, at, s))[from + |s|..to + |s|] == before[from..to]
  {
    var cur := before[..at] + s + before[at..];
    forall k | 0 <= k < to - from
      ensures cur[from + |s|..to + |s|][k] == before[from..to][k]
    {
      assert cur[from + |s| + k] == before[from + k];
    }
  }

  lemma {:induction false} UniqueAfterStep(ps: seq<Planned>, qs: seq<Planned>, c: Cut, ctx: Context)
    requires (forall id :: Count(ps, id) <= 1) && qs == StepAnchors(ps, c, ctx)
    ensures forall id :: Count(qs, id) <= 1
  {
    forall id ensures Count(qs, id) <= 1 { SameIdsSameCount(qs, ps, id); }
  }

  /** Dropped before the place it came from: the insertion is made first, and moves the text and its anchors. */
  lemma {:induction false} UpFile(f: PlanFile, ef: int, et: int, at: int, s: Text, m: Memory, i: nat)
    returns (e: Entry, x: Planned)
    requires FileOk(f) && f.edits == [Edit(at, at, s), Edit(ef, et, [])] && s != []
    requires 0 <= at <= ef < et <= |f.before|
    requires i < |f.anchors| && Attached(f.anchors[i]) && InText(f.before, f.anchors[i])
    requires ef <= f.anchors[i].from && f.anchors[i].to <= et
    requires (forall id :: Count(FreshAll(f.anchors), id) <= 1) && m.entries == [] && m.limit > 0
    ensures DragsIn(f, m, ef, et, i, Insertion(at, s), e, x)
  {
    var n, a := |s|, f.anchors[i];
    var c1, c2 := Cut(at, at, s), Cut(ef + n, et + n, []);
    RunningTwo(f.edits[0], f.edits[1]);
    var st := StepFile(Start(f), c1, Context(0, f.fragments, false));
    TwoSteps(f, c1, c2, st);
    assert st.anchors[i].a == a.(from := a.from + n, to := a.to + n);
    UniqueAfterStep(FreshAll(f.anchors), st.anchors, c1, Context(0, f.fragments, false));
    ShiftedReads(f.before, at, s, ef, et);
    ShiftedReads(f.before, at, s, a.from, a.to);
    e := UpMemory(f, c1, c2, st, m, i, ef, et);
    x := UpWork(f, c1, c2, st, i);
  }

  /** A first insertion adds nothing, and the deletion after it is remembered. */
  lemma {:induction false} UpMemory(f: PlanFile, c1: Cut, c2: Cut, st: FileState, m: Memory, i: nat, ef: int, et: int)
    returns (e: Entry)
    requires FileOk(f) && Running(f.edits, 0) == [c1, c2] && CutFits(|f.before|, c1) && Placed(f.before, FreshAll(f.anchors))
    requires st == StepFile(Start(f), c1, Context(0, f.fragments, false)) && CutFits(|st.cur|, c2) && Placed(st.cur, st.anchors)
    requires c1.ef == c1.et && c2.ef < c2.et && m.entries == [] && m.limit > 0
    requires i < |f.anchors| && |st.anchors| == |f.anchors| && InText(f.before, f.anchors[i])
    requires 0 <= ef <= f.anchors[i].from && f.anchors[i].to <= et <= |f.before|
    requires var a, p, n := f.anchors[i], st.anchors[i].a, |c1.insert|;
             && Attached(p) && p.id == a.id && p.from == a.from + n && p.to == a.to + n
             && c2.ef == ef + n && c2.et == et + n
             && InText(st.cur, p) && st.cur[p.from..p.to] == f.before[a.from..a.to] && st.cur[c2.ef..c2.et] == f.before[ef..et]
    requires forall id :: Count(st.anchors, id) <= 1
    ensures FileMemory(m, f, false).entries == [e] && Carries(f, ef, et, f.anchors[i], e)
  {
    assert st.anchors[i] in st.anchors;
    WholePieceHeld(st.anchors, st.cur, c2, st.anchors[i]);
    var held := PiecesOf(st.anchors, st.cur, c2, false);
    e := Entry(m.next, f.before[ef..et], held);
    FirstRemembered(m, f.before[ef..et], held);
    NoPieces(FreshAll(f.anchors), f.before, c1);
    TwoStepsMemory(f, c1, c2, st, m);
  }

  /** The insertion stands after the later deletion, and the dropped text reads there. */
  lemma {:induction false} UpWork(f: PlanFile, c1: Cut, c2: Cut, st: FileState, i: nat) returns (x: Planned)
    requires FileOk(f) && CutFits(|f.before|, c1) && c1.ef == c1.et && c1.insert != []
    requires st == StepFile(Start(f), c1, Context(0, f.fragments, false)) && CutFits(|st.cur|, c2)
    requires c2.insert == [] && c1.ef + |c1.insert| <= c2.ef < c2.et
    requires Phase1(f, false) == StepFile(st, c2, Context(1, f.fragments, false))
    requires i < |f.anchors| && Attached(st.anchors[i].a) && st.anchors[i].a.id == f.anchors[i].id && Covers(c2, st.anchors[i].a)
    ensures WorkOf(f, false).inserts == [Insertion(c1.ef, c1.insert)] && OccursAt(WorkOf(f, false).after, c1.insert, c1.ef)
    ensures x in WorkOf(f, false).anchors && WaitsAs(x, f.anchors[i])
  {
    var ins := Insertion(c1.ef, c1.insert);
    assert [ins][1..] == [] && FollowAll([ins], c2) == [ins];
    assert st.inserts == [ins];
    InsertedReads(f.before, c1.ef, c1.insert);
    ReadsBefore(st.cur, c2, c1.insert, c1.ef);
    x := WorkOf(f, false).anchors[i];
  }

  lemma {:induction false} ReadsBefore(cur: Text, c: Cut, s: Text, at: int)
    requires CutFits(|cur|, c) && OccursAt(cur, s, at) && at + |s| <= c.ef
    ensures OccursAt(ApplyCut(cur, c), s, at)
  {
    var after := ApplyCut(cur, c);
    assert after[at..at + |s|] == cur[at..at + |s|];
  }

  // ------------------------------------------------------- drag and drop

  /**
   * One operation that deletes a text and inserts, in any file, a text that
   * holds it exactly once leaves every comment that was in it attached over
   * exactly its old text, at its old offset in it.
   */
  lemma {:induction false} DragAndDrop(files: seq<PlanFile>, c: nat, ef: int, et: int, d: nat, at: int, s: Text,
                                      m: Memory, i: nat, o: nat) returns (q: Planned)
    requires IsDrag(files, c, ef, et, d, at, s) && UniqueInput(files) && m.entries == [] && m.limit > 0
    requires i < |files[c].anchors| && Attached(files[c].anchors[i]) && InText(files[c].before, files[c].anchors[i])
    requires ef <= files[c].anchors[i].from && files[c].anchors[i].to <= et
    requires OnlyAt(s, CutText(files[c], ef, et), o)
    ensures Dragged(files[c], ef, Plan(files, m, false), d, DropAt(c, ef, et, d, at) + o, files[c].anchors[i], q)
  {
    if c != d {
      q := DragBetweenFiles(files, c, ef, et, d, at, s, m, i, o);
    } else {
      UniqueInFile(files, c);
      assert files[c] in files;
      if at <= ef {
        var e, x := UpFile(files[c], ef, et, at, s, m, i);
        q := DragWithinFile(files, c, ef, et, m, i, Insertion(at, s), e, x, o);
      } else {
        var e, x := DownFile(files[c], ef, et, at, s, m, i);
        q := DragWithinFile(files, c, ef, et, m, i, Insertion(at - (et - ef), s), e, x, o);
      }
    }
  }
}
