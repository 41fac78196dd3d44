/** A cut that takes one end of a comment, and the end put back. */
module PartialCut {
  import opened Common
  import opened Sequences
  import opened Utf16
  import opened SessionMemory
  import opened AnchorEdits
  import opened AnchorIdentity
  import opened AnchorRepin
  import opened AnchorRepinRuns
  import opened AnchorPlan
  import opened CutPaste

  /** The deletion takes the start of the anchor and leaves its end. */
  predicate TakesHead(a: Anchor, ef: int, et: int) {
    ef <= a.from < et < a.to
  }

  /** The deletion takes the end of the anchor and leaves its start. */
  predicate TakesTail(a: Anchor, ef: int, et: int) {
    a.from < ef < a.to <= et
  }

  // ------------------------------------------------------- what a cut remembers

  /** The end a cut took, as it is remembered. */
  function EndOf(f: PlanFile, a: Anchor, ef: int, et: int): Held
    requires InText(f.before, a) && 0 <= ef <= et <= |f.before| && (TakesHead(a, ef, et) || TakesTail(a, ef, et))
  {
    if TakesHead(a, ef, et) then Held(a.id, a.from - ef, f.before[a.from..et], Head)
    else Held(a.id, 0, f.before[ef..a.to], Tail)
  }

  lemma {:induction false} EndIsHeld(files: seq<PlanFile>, c: nat, ef: int, et: int, i: nat, m: Memory)
    requires IsCut(files, c, ef, et) && UniqueInput(files) && m.entries == [] && m.limit > 0
    requires i < |files[c].anchors| && Attached(files[c].anchors[i])
    requires var a := files[c].anchors[i]; InText(files[c].before, a) && (TakesHead(a, ef, et) || TakesTail(a, ef, et))
    ensures var e := Entry(m.next, CutText(files[c], ef, et), CutPieces(files[c], ef, et));
            var h := EndOf(files[c], files[c].anchors[i], ef, et);
            && Plan(files, m, false).memory == Memory(m.limit, [e], m.next + 1)
            && h in e.held && DistinctHeld(e.held) && Fits(e.text, h)
  {
    CutPlan(files, c, ef, et, m);
    HeldByCut(files, c, ef, et, i, EndOf(files[c], files[c].anchors[i], ef, et));
  }

  /** The anchor loses text to the deletion at one of its ends. */
  predicate LosesAnEnd(a: Anchor, ef: int, et: int) {
    Attached(a) && a.from < et && ef < a.to && (ef <= a.from || a.to <= et)
  }

  lemma {:induction false} PiecesWhere(ps: seq<Planned>, cur: Text, c: Cut)
    requires CutFits(|cur|, c) && c.ef < c.et && Placed(cur, ps)
    ensures PiecesOf(ps, cur, c, false) == [] <==> forall p <- ps :: !LosesAnEnd(p.a, c.ef, c.et)
  {
    if ps != [] {
      PiecesWhere(ps[1..], cur, c);
      assert ps[0] in ps;
      assert PieceOf(ps[0].a, cur, c, false) == [] <==> !LosesAnEnd(ps[0].a, c.ef, c.et);
      assert ps == [ps[0]] + ps[1..];
    }
  }

  /** A cut is remembered exactly when it takes an end of some comment, or a whole one. */
  lemma {:induction false} CutRemembersWhen(files: seq<PlanFile>, c: nat, ef: int, et: int, m: Memory)
    requires IsCut(files, c, ef, et)
    ensures Plan(files, m, false).memory == m <==> forall a <- files[c].anchors :: !LosesAnEnd(a, ef, et)
  {
    var f := files[c];
    assert f in files;
    var ps, cut := FreshAll(f.anchors), Cut(ef, et, []);
    CutPlan(files, c, ef, et, m);
    OneStep(f, Edit(ef, et, []), m);
    PiecesWhere(ps, f.before, cut);
    assert (forall p <- ps :: !LosesAnEnd(p.a, ef, et)) <==> forall a <- f.anchors :: !LosesAnEnd(a, ef, et) by {
      if forall p <- ps :: !LosesAnEnd(p.a, ef, et) {
        forall a <- f.anchors ensures !LosesAnEnd(a, ef, et) {
          var i :| 0 <= i < |f.anchors| && f.anchors[i] == a;
          assert ps[i] in ps;
        }
      }
    }
    assert Remembered(m, f.before[ef..et], CutPieces(f, ef, et)).next == m.next <==> CutPieces(f, ef, et) == [];
  }

  // ------------------------------------------------------- the anchor in the paste

  /** The insertion is at the edge that lost its end, with the deleted text beside the anchor. */
  predicate AtItsEdge(a: Anchor, ef: int, et: int, b: Anchor, at: int, s: Text, o: nat) {
    if TakesHead(a, ef, et) then at == b.from && o + (et - ef) == |s| else at == b.to && o == 0
  }

  /** An insertion at either edge of an anchor moves it, or stays past it, and its text is the same. */
  lemma {:induction false} EdgeInsertion(f: PlanFile, at: int, s: Text, k: nat)
    requires FileOk(f) && f.edits == [Edit(at, at, s)] && s != [] && k < |f.anchors| && Attached(f.anchors[k])
    requires at == f.anchors[k].from || at == f.anchors[k].to
    ensures |WorkOf(f, false).anchors| == |f.anchors|
    ensures var b, x, after := f.anchors[k], WorkOf(f, false).anchors[k], WorkOf(f, false).after;
            var shift := if at == b.from then |s| else 0;
            && x.a == b.(from := b.from + shift, to := b.to + shift)
            && InText(f.before, b) && InText(after, x.a) && after[x.a.from..x.a.to] == f.before[b.from..b.to]
  {
    var b, c := f.anchors[k], Cut(at, at, s);
    assert b in f.anchors;
    OneStep(f, Edit(at, at, s), Memory(0, [], 0));
    assert Phase1(f, false).anchors[k] == StepAnchor(Fresh(b), c, Context(0, f.fragments, false));
    ClearSlice(f.before, c, b.from, b.to);
  }

  /** An anchor that grew by an end reads its text with the end beside it. */
  lemma {:induction false} GrownReads(after: Text, x: Planned, q: Planned, h: Held, from: int)
    requires Attached(x.a) && InText(after, x.a) && GrewBy(x, q, h, from) && OccursAt(after, h.text, from)
    ensures InText(after, q.a)
    ensures after[q.a.from..q.a.to] ==
            if h.side.Head? then h.text + after[x.a.from..x.a.to] else after[x.a.from..x.a.to] + h.text
  {
  }

  // ------------------------------------------------------- the round trip

  /**
   * The anchor `b` of file `g` lost the end of `a` that a cut of `f` took; it is
   * `q` once `s` is inserted in `g`, and covers its own text and the end.
   */
  predicate CoversAgain(f: PlanFile, ef: int, et: int, a: Anchor, g: PlanFile, b: Anchor, at: int, s: Text, o: nat,
                        w: Work, q: Planned)
    requires 0 <= ef <= et <= |f.before| && 0 <= at <= |g.before|
  {
    && q in w.anchors && q.a.id == a.id && Attached(q.a)
    && w.after == g.before[..at] + s + g.before[at..]
    && InText(f.before, a) && InText(g.before, b) && InText(w.after, q.a)
    && if TakesHead(a, ef, et) then
         && q.a.from == at + o + (a.from - ef)
         && w.after[q.a.from..q.a.to] == f.before[a.from..et] + g.before[b.from..b.to]
       else
         && ef <= a.to <= |f.before| && q.a.from == b.from
         && w.after[q.a.from..q.a.to] == g.before[b.from..b.to] + f.before[ef..a.to]
  }

  /**
   * The end comes back: from an empty memory, one deletion takes one end of an
   * attached anchor. In a later operation that finds the comment attached, one
   * insertion at the edge that lost the end holds the deleted text exactly
   * once, beside the anchor. The comment then covers the end again.
   */
  lemma {:induction false} EndComesBack(files: seq<PlanFile>, c: nat, ef: int, et: int, i: nat, m: Memory,
                                       pasted: seq<PlanFile>, d: nat, at: int, s: Text, o: nat, k: nat)
    returns (q: Planned)
    requires IsCut(files, c, ef, et) && UniqueInput(files) && m.entries == [] && m.limit > 0
    requires i < |files[c].anchors| && Attached(files[c].anchors[i])
    requires var a := files[c].anchors[i]; TakesHead(a, ef, et) || TakesTail(a, ef, et)
    requires IsPaste(pasted, d, at, s) && UniqueInput(pasted) && OnlyAt(s, CutText(files[c], ef, et), o)
    requires k < |pasted[d].anchors| && Attached(pasted[d].anchors[k]) && pasted[d].anchors[k].id == files[c].anchors[i].id
    requires AtItsEdge(files[c].anchors[i], ef, et, pasted[d].anchors[k], at, s, o)
    ensures var r := Plan(pasted, Plan(files, m, false).memory, false);
            && |r.works| == |pasted|
            && CoversAgain(files[c], ef, et, files[c].anchors[i], pasted[d], pasted[d].anchors[k], at, s, o, r.works[d], q)
  {
    var f, g := files[c], pasted[d];
    var a, b := f.anchors[i], g.anchors[k];
    assert f in files && a in f.anchors && g in pasted && b in g.anchors;
    EndIsHeld(files, c, ef, et, i, m);
    var e := Entry(m.next, CutText(f, ef, et), CutPieces(f, ef, et));
    q := EndLands(pasted, d, at, s, Memory(m.limit, [e], m.next + 1), e, f, ef, et, a, o, k);
  }

  lemma {:induction false} EndLands(pasted: seq<PlanFile>, d: nat, at: int, s: Text, m: Memory, e: Entry,
                                   f: PlanFile, ef: int, et: int, a: Anchor, o: nat, k: nat)
    returns (q: Planned)
    requires InText(f.before, a) && 0 <= ef < et <= |f.before| && (TakesHead(a, ef, et) || TakesTail(a, ef, et))
    requires IsPaste(pasted, d, at, s) && UniqueInput(pasted)
    requires m.entries == [e] && e.text == CutText(f, ef, et) && EndOf(f, a, ef, et) in e.held && DistinctHeld(e.held)
    requires Fits(e.text, EndOf(f, a, ef, et)) && OnlyAt(s, e.text, o)
    requires k < |pasted[d].anchors| && Attached(pasted[d].anchors[k]) && pasted[d].anchors[k].id == a.id
    requires AtItsEdge(a, ef, et, pasted[d].anchors[k], at, s, o)
    ensures var r := Plan(pasted, m, false);
            && |r.works| == |pasted|
            && CoversAgain(f, ef, et, a, pasted[d], pasted[d].anchors[k], at, s, o, r.works[d], q)
  {
    var g, h := pasted[d], EndOf(f, a, ef, et);
    assert g in pasted;
    EdgeInsertion(g, at, s, k);
    PasteWork(g, at, s);
    var x := WorkOf(g, false).anchors[k];
    EdgeReady(f, ef, et, a, g.anchors[k], d, at, s, o, x);
    q := PasteLands(pasted, d, at, s, m, e, o, h, d, x);
    EndCovered(f, ef, et, a, g, g.anchors[k], at, s, o, Plan(pasted, m, false).works[d], x, q);
  }

  /** The anchor as the insertion left it: moved past an insertion at its start, and reading as it did. */
  predicate MovedAside(b: Anchor, at: int, s: Text, x: Planned) {
    var shift := if at == b.from then |s| else 0;
    x.a.id == b.id && Attached(x.a) && x.a.from == b.from + shift && x.a.to == b.to + shift
  }

  lemma {:induction false} EdgeReady(f: PlanFile, ef: int, et: int, a: Anchor, b: Anchor, d: nat, at: int, s: Text, o: nat,
                                     x: Planned)
    requires InText(f.before, a) && 0 <= ef < et <= |f.before| && (TakesHead(a, ef, et) || TakesTail(a, ef, et))
    requires b.id == a.id && b.from < b.to && at >= 0 && AtItsEdge(a, ef, et, b, at, s, o) && MovedAside(b, at, s, x)
    ensures Ready(d, at + o + EndOf(f, a, ef, et).offset, EndOf(f, a, ef, et), d, x)
  {
  }

  lemma {:induction false} EndCovered(f: PlanFile, ef: int, et: int, a: Anchor, g: PlanFile, b: Anchor, at: int, s: Text,
                                     o: nat, w: Work, x: Planned, q: Planned)
    requires InText(f.before, a) && 0 <= ef < et <= |f.before| && (TakesHead(a, ef, et) || TakesTail(a, ef, et))
    requires InText(g.before, b) && b.id == a.id && 0 <= at <= |g.before| && AtItsEdge(a, ef, et, b, at, s, o)
    requires w.after == g.before[..at] + s + g.before[at..] && q in w.anchors
    requires MovedAside(b, at, s, x) && InText(w.after, x.a) && w.after[x.a.from..x.a.to] == g.before[b.from..b.to]
    requires GrewBy(x, q, EndOf(f, a, ef, et), at + o + EndOf(f, a, ef, et).offset)
    requires OccursAt(w.after, EndOf(f, a, ef, et).text, at + o + EndOf(f, a, ef, et).offset)
    ensures CoversAgain(f, ef, et, a, g, b, at, s, o, w, q)
  {
    var h := EndOf(f, a, ef, et);
    GrownReads(w.after, x, q, h, at + o + h.offset);
  }

  /** What a cut of one end leaves: the rest of the anchor, beside the cut. */
  lemma {:induction false} CutLeavesRest(f: PlanFile, ef: int, et: int, i: nat)
    requires FileOk(f) && f.edits == [Edit(ef, et, [])] && 0 <= ef < et <= |f.before|
    requires i < |f.anchors| && Attached(f.anchors[i])
    requires TakesHead(f.anchors[i], ef, et) || TakesTail(f.anchors[i], ef, et)
    ensures |WorkOf(f, false).anchors| == |f.anchors|
    ensures var a, b := f.anchors[i], WorkOf(f, false).anchors[i].a;
            && b.id == a.id && Attached(b) && InText(f.before, a) && InText(WorkOf(f, false).after, b)
            && WorkOf(f, false).after == f.before[..ef] + f.before[et..]
            && (if TakesHead(a, ef, et) then b.from == ef else b.to == ef)
            && WorkOf(f, false).after[b.from..b.to] ==
               if TakesHead(a, ef, et) then f.before[et..a.to] else f.before[a.from..ef]
  {
    var a, c := f.anchors[i], Cut(ef, et, []);
    assert a in f.anchors;
    OneStep(f, Edit(ef, et, []), Memory(0, [], 0));
    assert Phase1(f, false).anchors[i] == StepAnchor(Fresh(a), c, Context(0, f.fragments, false));
    assert f.before[..ef] + [] + f.before[et..] == f.before[..ef] + f.before[et..];
    if TakesHead(a, ef, et) {
      ClearSlice(f.before, c, et, a.to);
    } else {
      ClearSlice(f.before, c, a.from, ef);
    }
  }

  /**
   * Partial cut and paste round trip: from an empty memory, one deletion takes
   * only the head or only the tail of an attached anchor. Then one insertion at
   * the place of the cut holds the deleted text exactly once, beside what is
   * left of the anchor. The comment ends attached over exactly its old text;
   * and if nothing else was inserted, at its old place in the old text.
   */
  lemma {:induction false} PartialCutAndPaste(files: seq<PlanFile>, c: nat, ef: int, et: int, i: nat, m: Memory,
                                             pasted: seq<PlanFile>, d: nat, s: Text, o: nat, k: nat)
    returns (q: Planned)
    requires IsCut(files, c, ef, et) && UniqueInput(files) && m.entries == [] && m.limit > 0
    requires i < |files[c].anchors| && Attached(files[c].anchors[i])
    requires var a := files[c].anchors[i]; TakesHead(a, ef, et) || TakesTail(a, ef, et)
    requires |WorkOf(files[c], false).anchors| == |files[c].anchors|
    requires IsPaste(pasted, d, ef, s) && UniqueInput(pasted) && OnlyAt(s, CutText(files[c], ef, et), o)
    requires if TakesHead(files[c].anchors[i], ef, et) then o + (et - ef) == |s| else o == 0
    requires pasted[d].before == WorkOf(files[c], false).after
    requires k < |pasted[d].anchors| && pasted[d].anchors[k] == WorkOf(files[c], false).anchors[i].a
    ensures var r := Plan(pasted, Plan(files, m, false).memory, false);
            var a := files[c].anchors[i];
            && |r.works| == |pasted| && q in r.works[d].anchors
            && q.a.id == a.id && Attached(q.a) && InText(files[c].before, a) && InText(r.works[d].after, q.a)
            && r.works[d].after[q.a.from..q.a.to] == files[c].before[a.from..a.to]
            && (|s| == et - ef ==> r.works[d].after == files[c].before && q.a.from == a.from && q.a.to == a.to)
  {
    var a, f := files[c].anchors[i], files[c];
    assert f in files && a in f.anchors && pasted[d] in pasted;
    CutLeavesRest(f, ef, et, i);
    q := EndComesBack(files, c, ef, et, i, m, pasted, d, ef, s, o, k);
    EndsMeet(f, ef, et, a);
    if |s| == et - ef { PutBackWhole(f, ef, et, s, o); }
  }

  lemma {:induction false} EndsMeet(f: PlanFile, ef: int, et: int, a: Anchor)
    requires InText(f.before, a) && 0 <= ef < et <= |f.before|
    ensures TakesHead(a, ef, et) ==> f.before[a.from..et] + f.before[et..a.to] == f.before[a.from..a.to]
    ensures TakesTail(a, ef, et) ==> f.before[a.from..ef] + f.before[ef..a.to] == f.before[a.from..a.to]
  {
  }

  lemma {:induction false} PutBackWhole(f: PlanFile, ef: int, et: int, s: Text, o: nat)
    requires 0 <= ef <= et <= |f.before| && OccursAt(s, CutText(f, ef, et), o) && |s| == et - ef
    ensures var left := f.before[..ef] + f.before[et..];
            left[..ef] + s + left[ef..] == f.before
  {
    var left := f.before[..ef] + f.before[et..];
    assert s == s[0..|s|] == f.before[ef..et];
    assert left[..ef] == f.before[..ef] && left[ef..] == f.before[et..];
    InThree(f.before, ef, et);
  }

  // ------------------------------------------------------- pasted elsewhere

  lemma {:induction false} PieceRefused(works: seq<Work>, w: nat, from: int, h: Held, i: int, x: Planned)
    requires Unique(works) && w < |works| && Has(works, i, x) && x.a.id == h.id && Attached(x.a)
    requires !Ready(w, from, h, i, x)
    ensures ApplyPiece(works, w, from, h).None?
  {
    if ApplyPiece(works, w, from, h).Some? {
      var (owner, p, q) := MovedBy(works, w, from, h);
      OnePlace(works, i, owner, x, p);
    }
  }

  lemma {:induction false} PiecesRefused(r: Repin, w: nat, k: nat, ins: Insertion, hit: Hit, held: seq<Held>, i: int,
                                        x: Planned)
    requires Unique(r.works) && w < |r.works| && Has(r.works, i, x) && Attached(x.a)
    requires forall h <- held :: h.id == x.a.id ==> !Ready(w, Landing(w, k, ins, hit, h).from, h, i, x)
    ensures Has(ApplyPieces(r, w, k, ins, hit, held).works, i, x)
    decreases held
  {
    if held != [] {
      var y := Landing(w, k, ins, hit, held[0]);
      assert held[0] in held;
      if held[0].id == x.a.id { PieceRefused(r.works, w, y.from, held[0], i, x); }
      var next := ApplyPiece(r.works, w, y.from, held[0]);
      if next.Some? {
        PieceLeavesOthers(r.works, w, y.from, held[0], i, x);
        PiecesRefused(Repin(next.value, r.memory, r.log + [y]), w, k, ins, hit, held[1..], i, x);
      } else {
        PiecesRefused(r, w, k, ins, hit, held[1..], i, x);
      }
    }
  }

  /** Where one insertion puts the offsets of an attached anchor. */
  lemma {:induction false} InsertionMoves(f: PlanFile, edits: seq<Edit>, k: nat)
    requires FileOk(f) && f.edits == edits && k < |f.anchors| && Attached(f.anchors[k])
    requires edits == [] || (|edits| == 1 && edits[0].from == edits[0].to)
    ensures |WorkOf(f, false).anchors| == |f.anchors|
    ensures var b, x := f.anchors[k], WorkOf(f, false).anchors[k].a;
            && x.id == b.id && Attached(x)
            && (edits != [] ==>
                  && x.from == b.from + (if edits[0].from <= b.from then |edits[0].insert| else 0)
                  && x.to == b.to + (if edits[0].from < b.to then |edits[0].insert| else 0))
  {
    var b := f.anchors[k];
    assert b in f.anchors;
    if edits == [] {
      assert Running(edits, 0) == [];
    } else {
      var e := edits[0];
      assert edits == [e];
      OneStep(f, e, Memory(0, [], 0));
      assert Phase1(f, false).anchors[k] == if Idle(Cut(e.from, e.to, e.insert)) then Fresh(b) else
        StepAnchor(Fresh(b), Cut(e.from, e.to, e.insert), Context(0, f.fragments, false));
    }
  }

  /**
   * Only there: an attached anchor is left as phase 1 leaves it by a paste of
   * the deleted text in another file, or in its own but not at the edge that
   * lost the end, with the deleted text beside the anchor.
   */
  lemma {:induction false} EndPastedElsewhere(files: seq<PlanFile>, c: nat, ef: int, et: int, i: nat, m: Memory,
                                             pasted: seq<PlanFile>, d: nat, at: int, s: Text, o: nat, j: nat, k: nat)
    requires IsCut(files, c, ef, et) && UniqueInput(files) && m.entries == [] && m.limit > 0
    requires i < |files[c].anchors| && Attached(files[c].anchors[i])
    requires var a := files[c].anchors[i]; TakesHead(a, ef, et) || TakesTail(a, ef, et)
    requires IsPaste(pasted, d, at, s) && UniqueInput(pasted) && OnlyAt(s, CutText(files[c], ef, et), o)
    requires j < |pasted| && k < |pasted[j].anchors| && Attached(pasted[j].anchors[k])
    requires pasted[j].anchors[k].id == files[c].anchors[i].id
    requires j != d || !AtItsEdge(files[c].anchors[i], ef, et, pasted[j].anchors[k], at, s, o)
    ensures var r := Plan(pasted, Plan(files, m, false).memory, false);
            && |r.works| == |pasted| && k < |WorkOf(pasted[j], false).anchors|
            && WorkOf(pasted[j], false).anchors[k] in r.works[j].anchors
  {
    var f, a := files[c], files[c].anchors[i];
    assert f in files && a in f.anchors && pasted[d] in pasted && pasted[j] in pasted;
    EndIsHeld(files, c, ef, et, i, m);
    var h, e := EndOf(f, a, ef, et), Entry(m.next, CutText(f, ef, et), CutPieces(f, ef, et));
    InsertionMoves(pasted[j], pasted[j].edits, k);
    var x := WorkOf(pasted[j], false).anchors[k];
    assert !Ready(d, at + o + h.offset, h, j, x);
    PasteRefused(pasted, d, at, s, Memory(m.limit, [e], m.next + 1), e, o, h, j, x);
  }

  lemma {:induction false} PasteRefused(files: seq<PlanFile>, d: nat, at: int, s: Text, m: Memory, e: Entry, o: nat,
                                       h: Held, j: nat, x: Planned)
    requires IsPaste(files, d, at, s) && s != [] && UniqueInput(files) && m.entries == [e] && e.text != []
    requires OnlyAt(s, e.text, o) && h in e.held && DistinctHeld(e.held)
    requires Has(WorksOf(files, false), j, x) && x.a.id == h.id && Attached(x.a) && !Ready(d, at + o + h.offset, h, j, x)
    ensures Has(Plan(files, m, false).works, j, x)
  {
    var r, ins, hit := Repin(WorksOf(files, false), m, []), Insertion(at, s), Hit(e, 0, o, 0);
    PasteMemory(m, files, d, at, s);
    OnlyPaste(files, d, at, s);
    WorksUnique(files, false);
    OneHit(r, d, 0, ins, e, o);
    PiecesRefused(r, d, 0, ins, hit, e.held, j, x);
  }
}
