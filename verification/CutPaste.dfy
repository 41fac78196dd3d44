/** Cut and paste keep comments exact. */
module CutPaste {
  import opened Common
  import opened Sequences
  import opened Utf16
  import opened SessionMemory
  import opened AnchorEdits
  import opened AnchorRepin
  import opened AnchorRepinRuns
  import opened AnchorPlan

  // ------------------------------------------------------- pieces of one hit

  predicate DistinctHeld(held: seq<Held>) {
    forall i, j :: 0 <= i < j < |held| ==> held[i].id != held[j].id
  }

  /** The anchor `x` waits, detached, for a whole piece of its text. */
  predicate Waits(x: Planned) {
    !Attached(x.a) && x.a.length.Some?
  }

  predicate PinnedOver(q: Planned, id: string, from: int, len: nat) {
    q.a.id == id && Attached(q.a) && q.a.from == from && q.a.to == from + len
  }

  lemma {:induction false} PieceLeavesOthers(works: seq<Work>, w: nat, from: int, h: Held, i: int, x: Planned)
    requires Unique(works) && w < |works| && ApplyPiece(works, w, from, h).Some?
    requires Has(works, i, x) && x.a.id != h.id
    ensures var works' := ApplyPiece(works, w, from, h).value;
            Has(works', i, x) && Unique(works') && SameTexts(works, works')
  {
    ApplyPieceMovesOne(works, w, from, h, i, x);
    PieceUnique(works, w, from, h);
    ApplyPieceSound(works, w, from, h);
  }

  /** Pieces of other comments leave an anchor where it is. */
  lemma {:induction false} OthersLeave(r: Repin, w: nat, k: nat, ins: Insertion, hit: Hit, held: seq<Held>, i: int,
                                       x: Planned)
    requires Unique(r.works) && w < |r.works| && Has(r.works, i, x) && forall h <- held :: h.id != x.a.id
    ensures Has(ApplyPieces(r, w, k, ins, hit, held).works, i, x)
    decreases held
  {
    if held != [] {
      var y := Landing(w, k, ins, hit, held[0]);
      var next := ApplyPiece(r.works, w, y.from, held[0]);
      if next.Some? {
        PieceLeavesOthers(r.works, w, y.from, held[0], i, x);
        OthersLeave(Repin(next.value, r.memory, r.log + [y]), w, k, ins, hit, held[1..], i, x);
      } else {
        OthersLeave(r, w, k, ins, hit, held[1..], i, x);
      }
    }
  }

  /** The anchor `x` of file `i` can take the piece where it lands in file `w`. */
  predicate Ready(w: nat, from: int, h: Held, i: int, x: Planned) {
    && x.a.id == h.id && h.text != [] && from >= 0
    && if h.side.Whole? then Waits(x) else i == w && Attached(x.a) && AtEdge(x.a, h.side, from, from + |h.text|)
  }

  lemma {:induction false} PiecePins(works: seq<Work>, w: nat, from: int, h: Held, i: int, x: Planned)
    returns (q: Planned)
    requires Unique(works) && w < |works| && Has(works, i, x) && Ready(w, from, h, i, x)
    requires OccursAt(works[w].after, h.text, from)
    ensures ApplyPiece(works, w, from, h).Some?
    ensures var works' := ApplyPiece(works, w, from, h).value;
            Has(works', w, q) && GrewBy(x, q, h, from) && Unique(works')
  {
    var o := OwnerOf(works, h.id);
    assert o.Some? by {
      if o.None? { assert works[i] in works; }
    }
    var index := IndexOfId(works[o.value].anchors, h.id).value;
    OnePlace(works, i, o.value, x, works[o.value].anchors[index]);
    q := MovedBy(works, w, from, h).2;
    ApplyPieceMovesOne(works, w, from, h, w, q);
    PieceUnique(works, w, from, h);
  }

  /** Every anchor that is ready for a piece the hit holds takes it. */
  lemma {:induction false} PiecesPin(r: Repin, w: nat, k: nat, ins: Insertion, hit: Hit, held: seq<Held>,
                                     h: Held, i: int, x: Planned) returns (q: Planned)
    requires Unique(r.works) && w < |r.works| && DistinctHeld(held) && h in held
    requires Has(r.works, i, x) && Ready(w, Landing(w, k, ins, hit, h).from, h, i, x)
    requires OccursAt(r.works[w].after, h.text, Landing(w, k, ins, hit, h).from)
    ensures Has(ApplyPieces(r, w, k, ins, hit, held).works, w, q)
    ensures GrewBy(x, q, h, Landing(w, k, ins, hit, h).from)
    decreases held
  {
    var y := Landing(w, k, ins, hit, held[0]);
    var next := ApplyPiece(r.works, w, y.from, held[0]);
    if held[0] == h {
      q := PiecePins(r.works, w, y.from, h, i, x);
      OthersLeave(Repin(next.value, r.memory, r.log + [y]), w, k, ins, hit, held[1..], w, q);
    } else {
      assert h in held[1..] && held[0].id != h.id;
      if next.Some? {
        PieceLeavesOthers(r.works, w, y.from, held[0], i, x);
        q := PiecesPin(Repin(next.value, r.memory, r.log + [y]), w, k, ins, hit, held[1..], h, i, x);
      } else {
        q := PiecesPin(r, w, k, ins, hit, held[1..], h, i, x);
      }
    }
  }

  // ------------------------------------------------------- one insertion, one entry

  lemma {:induction false} NoInsertsNoRepin(r: Repin, w: nat)
    requires w <= |r.works| && forall i :: w <= i < |r.works| ==> r.works[i].inserts == []
    ensures RepinFrom(r, w) == r
    decreases |r.works| - w
  {
    if w < |r.works| { NoInsertsNoRepin(r, w + 1); }
  }

  /** Only file `d` has insertions, and it has one. */
  predicate OnlyInsertion(works: seq<Work>, d: nat, ins: Insertion) {
    && d < |works| && works[d].inserts == [ins]
    && forall i :: 0 <= i < |works| && i != d ==> works[i].inserts == []
  }

  lemma {:induction false} ApplyPiecesTexts(r: Repin, w: nat, k: nat, ins: Insertion, hit: Hit, held: seq<Held>)
    requires w < |r.works|
    ensures SameTexts(r.works, ApplyPieces(r, w, k, ins, hit, held).works)
    decreases held
  {
    if held != [] {
      var y := Landing(w, k, ins, hit, held[0]);
      var next := ApplyPiece(r.works, w, y.from, held[0]);
      if next.Some? { ApplyPieceSound(r.works, w, y.from, held[0]); }
      ApplyPiecesTexts(if next.Some? then Repin(next.value, r.memory, r.log + [y]) else r, w, k, ins, hit, held[1..]);
    }
  }

  /** Of all insertions of the operation, only insertion `k` of file `d` can hold the entry's text. */
  predicate LoneHolder(works: seq<Work>, d: nat, k: nat, e: Entry) {
    && e.text != [] && d < |works| && k < |works[d].inserts|
    && forall i, j :: 0 <= i < |works| && 0 <= j < |works[i].inserts| && (i != d || j != k) ==>
                        Locate(works[i].inserts[j].text, e.text).None?
  }

  predicate AtMost(m: Memory, e: Entry) {
    m.entries == [] || m.entries == [e]
  }

  lemma {:induction false} InsertionPasses(r: Repin, w: nat, k: nat, ins: Insertion, e: Entry)
    requires w < |r.works| && e.text != [] && AtMost(r.memory, e) && Locate(ins.text, e.text).None?
    ensures RepinInsertion(r, w, k, ins, [], |r.memory.entries|) == r
  {
    if r.memory.entries == [e] { assert FindBelow(r.memory, ins.text, [], 1) == FindBelow(r.memory, ins.text, [], 0); }
  }

  lemma {:induction false} FilePasses(r: Repin, w: nat, inserts: seq<Insertion>, k: nat, e: Entry)
    requires w < |r.works| && k <= |inserts| && e.text != [] && AtMost(r.memory, e)
    requires forall j :: k <= j < |inserts| ==> Locate(inserts[j].text, e.text).None?
    ensures RepinFile(r, w, inserts, k) == r
    decreases |inserts| - k
  {
    if k < |inserts| {
      InsertionPasses(r, w, k, inserts[k], e);
      FilePasses(r, w, inserts, k + 1, e);
    }
  }

  lemma {:induction false} FilesPass(r: Repin, w: nat, e: Entry)
    requires w <= |r.works| && e.text != [] && AtMost(r.memory, e)
    requires forall i, j :: w <= i < |r.works| && 0 <= j < |r.works[i].inserts| ==>
                              Locate(r.works[i].inserts[j].text, e.text).None?
    ensures RepinFrom(r, w) == r
    decreases |r.works| - w
  {
    if w < |r.works| {
      FilePasses(r, w, r.works[w].inserts, 0, e);
      FilesPass(r, w + 1, e);
    }
  }

  lemma {:induction false} SkipToFile(r: Repin, w: nat, d: nat, k: nat, e: Entry)
    requires LoneHolder(r.works, d, k, e) && AtMost(r.memory, e) && w <= d
    ensures RepinFrom(r, w) == RepinFrom(r, d)
    decreases d - w
  {
    if w < d {
      FilePasses(r, w, r.works[w].inserts, 0, e);
      SkipToFile(r, w + 1, d, k, e);
    }
  }

  lemma {:induction false} SkipToInsertion(r: Repin, d: nat, j: nat, k: nat, e: Entry)
    requires LoneHolder(r.works, d, k, e) && AtMost(r.memory, e) && j <= k
    ensures RepinFile(r, d, r.works[d].inserts, j) == RepinFile(r, d, r.works[d].inserts, k)
    decreases k - j
  {
    if j < k {
      InsertionPasses(r, d, j, r.works[d].inserts[j], e);
      SkipToInsertion(r, d, j + 1, k, e);
    }
  }

  /** The insertion that holds the text is that one hit. */
  lemma {:induction false} InsertionHits(r: Repin, d: nat, k: nat, ins: Insertion, e: Entry, at: nat)
    requires d < |r.works| && r.memory.entries == [e] && e.text != [] && OnlyAt(ins.text, e.text, at)
    ensures RepinInsertion(r, d, k, ins, [], 1) == AfterHit(r, d, k, ins, Hit(e, 0, at, 0))
    ensures AtMost(AfterHit(r, d, k, ins, Hit(e, 0, at, 0)).memory, e)
    ensures SameTexts(r.works, AfterHit(r, d, k, ins, Hit(e, 0, at, 0)).works)
  {
    var hit := Hit(e, 0, at, 0);
    LocateMeans(ins.text, e.text);
    assert Rotated(e.text, 0) == e.text;
    assert FindBelow(r.memory, ins.text, [], 1) == Some(hit);
    var r' := AfterHit(r, d, k, ins, hit);
    var claimed := ClaimedAfter(r, d, k, ins, hit, []);
    assert RepinInsertion(r, d, k, ins, [], 1) == RepinInsertion(r', d, k, ins, claimed, 0);
    assert RepinInsertion(r', d, k, ins, claimed, 0) == r';
    ApplyPiecesTexts(r, d, k, ins, hit, e.held);
    PiecesLogged(r, d, k, ins, hit, e.held);
  }

  /** With one entry that one insertion holds, and any others that do not, phase 2 is that one hit. */
  lemma {:induction false} OneHit(r: Repin, d: nat, k: nat, ins: Insertion, e: Entry, at: nat)
    requires LoneHolder(r.works, d, k, e) && r.memory.entries == [e] && ins == r.works[d].inserts[k]
    requires OnlyAt(ins.text, e.text, at)
    ensures RepinFrom(r, 0) == AfterHit(r, d, k, ins, Hit(e, 0, at, 0))
  {
    var inserts := r.works[d].inserts;
    var r' := AfterHit(r, d, k, ins, Hit(e, 0, at, 0));
    SkipToFile(r, 0, d, k, e);
    SkipToInsertion(r, d, 0, k, e);
    InsertionHits(r, d, k, ins, e, at);
    FilePasses(r', d, inserts, k + 1, e);
    assert RepinFile(r, d, inserts, k) == r';
    FilesPass(r', d + 1, e);
  }

  // ------------------------------------------------------- the cut

  /** One deletion in file `c`, and nothing else. */
  predicate IsCut(files: seq<PlanFile>, c: nat, ef: int, et: int) {
    && (forall f <- files :: FileOk(f))
    && c < |files| && files[c].edits == [Edit(ef, et, [])] && 0 <= ef < et <= |files[c].before|
    && forall i :: 0 <= i < |files| && i != c ==> files[i].edits == []
  }

  /** What the cut takes of an anchor is among the pieces it holds. */
  lemma {:induction false} PieceKept(ps: seq<Planned>, cur: Text, c: Cut, p: Planned, h: Held)
    requires CutFits(|cur|, c) && Placed(cur, ps) && p in ps && h in PieceOf(p.a, cur, c, false)
    ensures h in PiecesOf(ps, cur, c, false)
  {
    if ps[0] != p { PieceKept(ps[1..], cur, c, p, h); }
  }

  lemma {:induction false} PiecesNamed(ps: seq<Planned>, cur: Text, c: Cut)
    requires CutFits(|cur|, c) && Placed(cur, ps)
    ensures forall h <- PiecesOf(ps, cur, c, false) :: Count(ps, h.id) > 0
  {
    if ps != [] {
      PiecesNamed(ps[1..], cur, c);
      assert PiecesOf(ps, cur, c, false) == PieceOf(ps[0].a, cur, c, false) + PiecesOf(ps[1..], cur, c, false);
    }
  }

  lemma {:induction false} PiecesDistinct(ps: seq<Planned>, cur: Text, c: Cut)
    requires CutFits(|cur|, c) && Placed(cur, ps) && forall id :: Count(ps, id) <= 1
    ensures DistinctHeld(PiecesOf(ps, cur, c, false))
  {
    if ps != [] {
      forall id ensures Count(ps[1..], id) <= 1 { assert Count(ps, id) <= 1; }
      PiecesDistinct(ps[1..], cur, c);
      PiecesNamed(ps[1..], cur, c);
      assert Count(ps, ps[0].a.id) <= 1;
    }
  }

  lemma {:induction false} NoEditsNoMemory(m: Memory, files: seq<PlanFile>)
    requires forall f <- files :: FileOk(f) && f.edits == []
    ensures Memorised(m, files, false) == m
    decreases files
  {
    if files != [] {
      assert files[0] in files;
      NoEditsNoMemory(m, files[1..]);
    }
  }

  lemma {:induction false} OnlyCutRemembered(m: Memory, files: seq<PlanFile>, c: nat)
    requires (forall f <- files :: FileOk(f)) && c < |files|
    requires forall i :: 0 <= i < |files| && i != c ==> files[i].edits == []
    ensures Memorised(m, files, false) == FileMemory(m, files[c], false)
    decreases files
  {
    if c == 0 {
      NoEditsNoMemory(FileMemory(m, files[0], false), files[1..]);
    } else {
      assert FileMemory(m, files[0], false) == m;
      OnlyCutRemembered(m, files[1..], c - 1);
    }
  }

  /** A batch of one edit is one step. */
  lemma {:induction false} OneStep(f: PlanFile, e: Edit, m: Memory)
    requires FileOk(f) && f.edits == [e]
    ensures var c, ctx := Cut(e.from, e.to, e.insert), Context(0, f.fragments, false);
            && CutFits(|f.before|, c) && Placed(f.before, FreshAll(f.anchors))
            && Running(f.edits, 0) == [c]
            && Phase1(f, false) == StepFile(Start(f), c, ctx)
            && FileMemory(m, f, false) == StepMemory(m, Start(f), c, false)
  {
    var c, ctx := Cut(e.from, e.to, e.insert), Context(0, f.fragments, false);
    assert [e][1..] == [] && Running([e], 0) == [c];
    assert [c][1..] == [];
    StepPlaced(Start(f), c, ctx);
    var st := StepFile(Start(f), c, ctx);
    assert RunFile(st, [], ctx.(edit := 1)) == st;
    assert RunMemory(StepMemory(m, Start(f), c, false), st, [], ctx.(edit := 1)) == StepMemory(m, Start(f), c, false);
  }

  function CutText(f: PlanFile, ef: int, et: int): Text
    requires 0 <= ef <= et <= |f.before|
  {
    f.before[ef..et]
  }

  function CutPieces(f: PlanFile, ef: int, et: int): seq<Held>
    requires FileOk(f) && 0 <= ef <= et <= |f.before|
  {
    assert Placed(f.before, FreshAll(f.anchors));
    PiecesOf(FreshAll(f.anchors), f.before, Cut(ef, et, []), false)
  }

  /** A cut leaves no insertion, so phase 2 has nothing to do. */
  lemma {:induction false} CutPlan(files: seq<PlanFile>, c: nat, ef: int, et: int, m: Memory)
    requires IsCut(files, c, ef, et)
    ensures var r := Plan(files, m, false);
            && r.works == WorksOf(files, false)
            && r.memory == Remembered(m, CutText(files[c], ef, et), CutPieces(files[c], ef, et))
  {
    OnlyCutRemembered(m, files, c);
    assert files[c] in files;
    OneStep(files[c], Edit(ef, et, []), m);
    var r := Repin(WorksOf(files, false), Memorised(m, files, false), []);
    forall i | 0 <= i < |files|
      ensures r.works[i].inserts == []
    {
      if i != c { assert Running(files[i].edits, 0) == []; }
    }
    NoInsertsNoRepin(r, 0);
  }

  /** The anchors the cut covers are detached and wait for their text. */
  lemma {:induction false} CutDetaches(f: PlanFile, ef: int, et: int, i: nat)
    requires FileOk(f) && f.edits == [Edit(ef, et, [])] && 0 <= ef < et <= |f.before|
    requires i < |f.anchors| && Attached(f.anchors[i]) && ef <= f.anchors[i].from && f.anchors[i].to <= et
    ensures |WorkOf(f, false).anchors| == |f.anchors|
    ensures var x := WorkOf(f, false).anchors[i];
            x.a.id == f.anchors[i].id && x.a.detached && x.a.length == Some(f.anchors[i].to - f.anchors[i].from)
  {
    OneStep(f, Edit(ef, et, []), Memory(0, [], 0));
    assert Phase1(f, false).anchors[i] == StepAnchor(Fresh(f.anchors[i]), Cut(ef, et, []), Context(0, f.fragments, false));
  }

  // ------------------------------------------------------- the paste

  /** One insertion of `s` in file `d`, and nothing else. */
  predicate IsPaste(files: seq<PlanFile>, d: nat, at: int, s: Text) {
    && (forall f <- files :: FileOk(f))
    && d < |files| && files[d].edits == [Edit(at, at, s)] && 0 <= at <= |files[d].before|
    && forall i :: 0 <= i < |files| && i != d ==> files[i].edits == []
  }

  lemma {:induction false} PasteWork(f: PlanFile, at: int, s: Text)
    requires FileOk(f) && f.edits == [Edit(at, at, s)] && 0 <= at <= |f.before| && s != []
    ensures WorkOf(f, false).inserts == [Insertion(at, s)]
    ensures WorkOf(f, false).after == f.before[..at] + s + f.before[at..]
  {
    OneStep(f, Edit(at, at, s), Memory(0, [], 0));
  }

  lemma {:induction false} DetachedStays(st: FileState, cuts: seq<Cut>, ctx: Context, i: nat)
    requires Valid(|st.cur|, cuts) && i < |st.anchors| && !Attached(st.anchors[i].a)
    ensures |RunFile(st, cuts, ctx).anchors| == |st.anchors| && RunFile(st, cuts, ctx).anchors[i] == st.anchors[i]
    decreases cuts
  {
    if cuts != [] { DetachedStays(StepFile(st, cuts[0], ctx), cuts[1..], ctx.(edit := ctx.edit + 1), i); }
  }

  lemma {:induction false} PasteMemory(m: Memory, files: seq<PlanFile>, d: nat, at: int, s: Text)
    requires IsPaste(files, d, at, s)
    ensures Memorised(m, files, false) == m
  {
    OnlyCutRemembered(m, files, d);
    var f := files[d];
    assert f in files;
    OneStep(f, Edit(at, at, s), m);
    NoPieces(FreshAll(f.anchors), f.before, Cut(at, at, s));
  }

  lemma {:induction false} NoPieces(ps: seq<Planned>, cur: Text, c: Cut)
    requires CutFits(|cur|, c) && c.ef == c.et && Placed(cur, ps)
    ensures PiecesOf(ps, cur, c, false) == []
  {
    if ps != [] { NoPieces(ps[1..], cur, c); }
  }

  lemma {:induction false} PieceReads(before: Text, at: int, s: Text, deleted: Text, o: nat, h: Held)
    requires 0 <= at <= |before| && OccursAt(s, deleted, o) && Fits(deleted, h)
    ensures OccursAt(before[..at] + s + before[at..], h.text, at + o + h.offset)
  {
    SliceOfSlice(s, o, o + |deleted|, h.offset, h.offset + |h.text|);
    var after := before[..at] + s + before[at..];
    assert after[at..at + |s|] == s;
    SliceOfSlice(after, at, at + |s|, o + h.offset, o + h.offset + |h.text|);
  }

  // ------------------------------------------------------- the round trip

  /**
   * Cut and paste round trip: from an empty memory, one deletion takes an
   * anchor whole, and then one insertion, in any file of a later operation
   * that still knows the comment, holds the deleted text exactly once. The
   * comment ends attached over exactly its old text, at its old offset in it.
   */
  lemma {:induction false} CutAndPaste(files: seq<PlanFile>, c: nat, ef: int, et: int, i: nat, m: Memory,
                                      pasted: seq<PlanFile>, d: nat, at: int, s: Text, o: nat, j: nat, k: nat)
    returns (q: Planned)
    requires IsCut(files, c, ef, et) && UniqueInput(files) && m.entries == [] && m.limit > 0
    requires i < |files[c].anchors| && Attached(files[c].anchors[i])
    requires ef <= files[c].anchors[i].from && files[c].anchors[i].to <= et
    requires IsPaste(pasted, d, at, s) && UniqueInput(pasted) && OnlyAt(s, CutText(files[c], ef, et), o)
    requires |WorkOf(files[c], false).anchors| == |files[c].anchors|
    requires j < |pasted| && k < |pasted[j].anchors| && pasted[j].anchors[k] == WorkOf(files[c], false).anchors[i].a
    ensures var r := Plan(pasted, Plan(files, m, false).memory, false);
            var a := files[c].anchors[i];
            && |r.works| == |pasted| && q in r.works[d].anchors
            && q.a.id == a.id && Attached(q.a)
            && q.a.from == at + o + (a.from - ef) && q.a.to - q.a.from == a.to - a.from
            && InText(r.works[d].after, q.a)
            && r.works[d].after[q.a.from..q.a.to] == files[c].before[a.from..a.to]
  {
    var a := files[c].anchors[i];
    var deleted, held := CutText(files[c], ef, et), CutPieces(files[c], ef, et);
    var e := Entry(m.next, deleted, held);
    CutPlan(files, c, ef, et, m);
    var h := Held(a.id, a.from - ef, files[c].before[a.from..a.to], Whole);
    HeldByCut(files, c, ef, et, i, h);
    var m1 := Memory(m.limit, [e], m.next + 1);
    assert Plan(files, m, false).memory == m1;
    CutDetaches(files[c], ef, et, i);
    q := PasteFinds(pasted, d, at, s, m1, e, o, h, j, k);
  }

  /** A paste that holds one remembered text once pins every anchor waiting in it. */
  lemma {:induction false} PasteFinds(files: seq<PlanFile>, d: nat, at: int, s: Text, m: Memory, e: Entry, o: nat,
                                      h: Held, j: nat, k: nat)
    returns (q: Planned)
    requires IsPaste(files, d, at, s) && UniqueInput(files) && m.entries == [e] && e.text != []
    requires OnlyAt(s, e.text, o) && h in e.held && DistinctHeld(e.held) && Fits(e.text, h) && h.side.Whole?
    requires j < |files| && k < |files[j].anchors| && files[j].anchors[k].id == h.id
    requires !Attached(files[j].anchors[k]) && files[j].anchors[k].length.Some?
    ensures var r := Plan(files, m, false);
            && |r.works| == |files| && q in r.works[d].anchors
            && PinnedOver(q, h.id, at + o + h.offset, |h.text|)
            && OccursAt(r.works[d].after, h.text, q.a.from)
  {
    var x := WaitingWork(files, j, k);
    q := PasteLands(files, d, at, s, m, e, o, h, j, x);
  }

  /** A paste that holds one remembered text once gives each anchor that is ready for a piece of it the piece. */
  lemma {:induction false} PasteLands(files: seq<PlanFile>, d: nat, at: int, s: Text, m: Memory, e: Entry, o: nat,
                                      h: Held, j: nat, x: Planned)
    returns (q: Planned)
    requires IsPaste(files, d, at, s) && s != [] && UniqueInput(files) && m.entries == [e] && e.text != []
    requires OnlyAt(s, e.text, o) && h in e.held && DistinctHeld(e.held) && Fits(e.text, h)
    requires Has(WorksOf(files, false), j, x) && Ready(d, at + o + h.offset, h, j, x)
    ensures var r := Plan(files, m, false);
            && |r.works| == |files| && q in r.works[d].anchors && GrewBy(x, q, h, at + o + h.offset)
            && r.works[d].after == WorkOf(files[d], false).after
            && OccursAt(r.works[d].after, h.text, at + o + h.offset)
  {
    var r := Repin(WorksOf(files, false), m, []);
    assert files[d] in files;
    PasteMemory(m, files, d, at, s);
    PasteWork(files[d], at, s);
    OnlyPaste(files, d, at, s);
    PieceReads(files[d].before, at, s, e.text, o, h);
    WorksUnique(files, false);
    q := HitPins(r, d, 0, Insertion(at, s), e, o, h, j, x);
  }

  lemma {:induction false} HitPins(r: Repin, d: nat, k: nat, ins: Insertion, e: Entry, o: nat, h: Held, j: int, x: Planned)
    returns (q: Planned)
    requires LoneHolder(r.works, d, k, e) && ins == r.works[d].inserts[k] && Unique(r.works) && r.memory.entries == [e]
    requires OnlyAt(ins.text, e.text, o) && h in e.held && DistinctHeld(e.held)
    requires Has(r.works, j, x) && Ready(d, ins.at + o + h.offset, h, j, x)
    requires OccursAt(r.works[d].after, h.text, ins.at + o + h.offset)
    ensures var r' := RepinFrom(r, 0);
            Has(r'.works, d, q) && GrewBy(x, q, h, ins.at + o + h.offset) && r'.works[d].after == r.works[d].after
  {
    var hit := Hit(e, 0, o, 0);
    OneHit(r, d, k, ins, e, o);
    q := PiecesPin(r, d, k, ins, hit, e.held, h, j, x);
    ApplyPiecesTexts(r, d, k, ins, hit, e.held);
  }

  lemma {:induction false} OnlyPaste(files: seq<PlanFile>, d: nat, at: int, s: Text)
    requires IsPaste(files, d, at, s) && s != []
    ensures OnlyInsertion(WorksOf(files, false), d, Insertion(at, s))
  {
    assert files[d] in files;
    PasteWork(files[d], at, s);
    forall i | 0 <= i < |files| && i != d
      ensures WorkOf(files[i], false).inserts == []
    {
      assert Running(files[i].edits, 0) == [];
    }
  }

  lemma {:induction false} WaitingWork(files: seq<PlanFile>, j: nat, k: nat) returns (x: Planned)
    requires (forall f <- files :: FileOk(f)) && j < |files| && k < |files[j].anchors|
    requires !Attached(files[j].anchors[k])
    ensures Has(WorksOf(files, false), j, x) && x.a == files[j].anchors[k]
  {
    var f := files[j];
    assert f in files;
    DetachedStays(Start(f), Running(f.edits, 0), Context(0, f.fragments, false), k);
    x := WorkOf(f, false).anchors[k];
  }

  lemma {:induction false} FileInput(files: seq<PlanFile>, c: nat, id: string)
    requires c < |files|
    ensures Count(FreshAll(files[c].anchors), id) <= InputCount(files, id)
  {
    if c > 0 { FileInput(files[1..], c - 1, id); }
  }

  lemma {:induction false} HeldByCut(files: seq<PlanFile>, c: nat, ef: int, et: int, i: nat, h: Held)
    requires IsCut(files, c, ef, et) && UniqueInput(files)
    requires i < |files[c].anchors| && (Attached(files[c].anchors[i]) ==> InText(files[c].before, files[c].anchors[i]))
    requires h in PieceOf(files[c].anchors[i], files[c].before, Cut(ef, et, []), false)
    ensures var held := CutPieces(files[c], ef, et);
            h in held && held != [] && DistinctHeld(held) && Fits(CutText(files[c], ef, et), h)
  {
    var f := files[c];
    var ps := FreshAll(f.anchors);
    assert f in files;
    OneStep(f, Edit(ef, et, []), Memory(0, [], 0));
    assert ps[i] in ps;
    PieceKept(ps, f.before, Cut(ef, et, []), ps[i], h);
    PiecesFit(ps, f.before, Cut(ef, et, []), false);
    forall id ensures Count(ps, id) <= 1 { FileInput(files, c, id); }
    PiecesDistinct(ps, f.before, Cut(ef, et, []));
  }
}
