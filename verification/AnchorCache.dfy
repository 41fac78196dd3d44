/** What recording an operation does to each cached comment. */
module AnchorCache {
  import opened Common
  import opened Utf16
  import opened SessionMemory
  import opened AnchorEdits
  import opened AnchorIdentity
  import opened AnchorRepin
  import opened AnchorRepinRuns
  import opened AnchorPlan
  import opened AnchorWrites
  import opened AnchorIndex

  // ------------------------------------------------------- one file of the cache

  lemma {:induction false} FoundAt(cache: seq<Cached>, i: nat)
    requires DistinctFiles(cache) && i < |cache|
    ensures FileIndex(cache, cache[i].fileId) == Some(i)
  {
    assert cache[i] in cache;
  }

  function MergedWith(c: Cached, names: set<string>, w: Work): Cached {
    Cached(c.fileId, w.after, (if w.fileId in names then [] else Split(c.anchors, false)) + Plain(w.anchors))
  }

  predicate DistinctWorks(works: seq<Work>) {
    forall i, j :: 0 <= i < j < |works| ==> works[i].fileId != works[j].fileId
  }

  lemma {:induction false} MergeAt(cache: seq<Cached>, names: set<string>, w: Work, i: nat)
    requires DistinctFiles(cache) && i < |cache|
    ensures Merge(cache, names, w)[i] == if w.fileId == cache[i].fileId then MergedWith(cache[i], names, w) else cache[i]
    ensures DistinctFiles(Merge(cache, names, w))
  {
    if w.fileId == cache[i].fileId { FoundAt(cache, i); }
  }

  /** A file takes the one plan that is for it, and stays as it is without one. */
  lemma {:induction false} MergeAllAt(cache: seq<Cached>, names: set<string>, works: seq<Work>, i: nat)
    requires DistinctFiles(cache) && DistinctWorks(works) && i < |cache|
    ensures |MergeAll(cache, names, works)| == |cache|
    ensures forall k :: 0 <= k < |works| && works[k].fileId == cache[i].fileId ==>
                          MergeAll(cache, names, works)[i] == MergedWith(cache[i], names, works[k])
    ensures (forall w <- works :: w.fileId != cache[i].fileId) ==> MergeAll(cache, names, works)[i] == cache[i]
    decreases works
  {
    if works != [] {
      MergeAt(cache, names, works[0], i);
      MergeAllAt(Merge(cache, names, works[0]), names, works[1..], i);
      assert forall k :: 1 <= k < |works| ==> works[k] == works[1..][k - 1];
      assert works[0] in works;
    }
  }

  // ------------------------------------------------------- the plan of an operation

  lemma {:induction false} PlanForFiles(cache: seq<Cached>, files: seq<Named>, m: Memory)
    requires CacheOk(cache) && Recordable(cache, files) && Sound(m)
    ensures var input := Input(cache, files);
            && (forall f <- input :: FileOk(f)) && UniqueInput(input) && DistinctInput(input)
            && var r := Plan(input, m, false);
            && Sane(WorksOf(input, false), Memorised(m, input, false), r)
            && |r.works| == |input| && DistinctWorks(r.works)
            && forall k :: 0 <= k < |input| ==> r.works[k].fileId == input[k].fileId
  {
    var input := Input(cache, files);
    InputFits(cache, files);
    InputUnique(cache, files);
    InputStands(cache, files);
    PlanIsSound(input, m, false);
  }

  /** A named file takes the text and the anchors its plan has. */
  lemma {:induction false} NamedTakesPlan(cache: seq<Cached>, files: seq<Named>, m: Memory, k: nat, i: nat)
    requires CacheOk(cache) && Recordable(cache, files) && Sound(m)
    requires k < |files| && i < |cache| && cache[i].fileId == files[k].fileId
    ensures forall f <- Input(cache, files) :: FileOk(f)
    ensures |Recorded(cache, files, m)| == |cache| && |Plan(Input(cache, files), m, false).works| >= |files|
    ensures Recorded(cache, files, m)[i] == MergedWith(cache[i], NamesOf(files), Plan(Input(cache, files), m, false).works[k])
    ensures cache[i].fileId in NamesOf(files)
  {
    PlanForFiles(cache, files, m);
    MergeAllAt(cache, NamesOf(files), Plan(Input(cache, files), m, false).works, i);
    assert files[k] in files;
  }

  lemma {:induction false} NamedInputIs(cache: seq<Cached>, files: seq<Named>, k: nat, i: nat)
    requires DistinctFiles(cache) && Recordable(cache, files)
    requires k < |files| && i < |cache| && cache[i].fileId == files[k].fileId
    ensures k < |Input(cache, files)| && Input(cache, files)[k] == NamedInput(cache[i], files[k])
  {
    FoundAt(cache, i);
    assert files[k] in files;
  }

  // ------------------------------------------------------- a comment of a named file

  /** The edits of a named file in the coordinates of the text each applies to. */
  function CutsOf(f: Named): seq<Cut> {
    Running(f.edits, 0)
  }

  /** The edits are this session's own. */
  function Session(f: Named): Context {
    Context(0, f.fragments, false)
  }

  /** The comment the file holds under this id, as the plan leaves it. */
  lemma {:induction false} CommentIsThere(works0: seq<Work>, works: seq<Work>, j: nat, p0: Planned)
    returns (g: nat, q: Planned)
    requires Unique(works0) && SameCounts(works0, works) && Has(works0, j, p0)
    ensures Has(works, g, q) && q.a.id == p0.a.id
  {
    var id := p0.a.id;
    MemberCounts(works0[j].anchors, p0);
    FileCount(works0, j, id);
    assert CountAll(works, id) == CountAll(works0, id) > 0;
    g, q := CountedIsThere(works, id);
  }

  lemma {:induction false} CountedIsThere(works: seq<Work>, id: string) returns (g: nat, q: Planned)
    requires CountAll(works, id) > 0
    ensures Has(works, g, q) && q.a.id == id
  {
    if Count(works[0].anchors, id) > 0 {
      g := 0;
      q := CountedIsIn(works[0].anchors, id);
    } else {
      g, q := CountedIsThere(works[1..], id);
      g := g + 1;
    }
  }

  lemma {:induction false} CountedIsIn(ps: seq<Planned>, id: string) returns (q: Planned)
    requires Count(ps, id) > 0
    ensures q in ps && q.a.id == id
  {
    q := ps[0];
    if ps[0].a.id != id { q := CountedIsIn(ps[1..], id); }
  }

  /** The anchor phase 1 makes of a cached one. */
  function Moved(c: Cached, f: Named, n: nat): Planned
    requires FileOk(NamedInput(c, f)) && n < |WorkOf(NamedInput(c, f), false).anchors|
  {
    WorkOf(NamedInput(c, f), false).anchors[n]
  }

  /** Phase 1 keeps a file's anchors in their order, and follows the characters of each attached one. */
  lemma {:induction false} MovedFollows(c: Cached, f: Named, n: nat)
    requires FileOk(NamedInput(c, f)) && n < |c.anchors| && Attached(c.anchors[n])
    ensures |WorkOf(NamedInput(c, f), false).anchors| == |c.anchors|
    ensures var a, p, cells := c.anchors[n], Moved(c, f, n).a, RunCells(CellsOf(c.text, c.anchors[n]), CutsOf(f));
            && SameComment(p, a) && Tracks(cells, ApplyCuts(c.text, CutsOf(f)), p) && Faithful(cells, c.text, a)
            && (Attached(p) <==> SomeInside(cells))
    ensures WorkOf(NamedInput(c, f), false).after == ApplyCuts(c.text, CutsOf(f))
  {
    var input := NamedInput(c, f);
    var st, cuts, ctx := Start(input), CutsOf(f), Session(f);
    assert Placed(st.cur, st.anchors);
    assert st.anchors[n].a == c.anchors[n];
    AnchorsFollowCharacters(st, n, cuts, ctx);
    RunText(st, cuts, ctx);
    WrittenExactly(input, false, n);
  }

  /** A comment of an edited file is somewhere in the plan, explained by what phase 1 made of it. */
  lemma {:induction false} NamedComment(cache: seq<Cached>, files: seq<Named>, m: Memory, k: nat, i: nat, n: nat)
    returns (g: nat, p: Planned)
    requires CacheOk(cache) && Recordable(cache, files) && Sound(m)
    requires k < |files| && i < |cache| && cache[i].fileId == files[k].fileId && n < |cache[i].anchors|
    ensures forall f <- Input(cache, files) :: FileOk(f)
    ensures FileOk(NamedInput(cache[i], files[k]))
    ensures |WorkOf(NamedInput(cache[i], files[k]), false).anchors| == |cache[i].anchors|
    ensures |Recorded(cache, files, m)| == |cache|
    ensures Recorded(cache, files, m)[i].text == WorkOf(NamedInput(cache[i], files[k]), false).after
    ensures Has(Plan(Input(cache, files), m, false).works, g, p) && p.a.id == cache[i].anchors[n].id
    ensures Explained(k, Moved(cache[i], files[k], n), g, p, Plan(Input(cache, files), m, false).log)
    ensures g == k ==> p.a in Recorded(cache, files, m)[i].anchors
    ensures g == k && Attached(p.a) ==> InText(Recorded(cache, files, m)[i].text, p.a)
  {
    PlanForFiles(cache, files, m);
    NamedInputIs(cache, files, k, i);
    NamedTakesPlan(cache, files, m, k, i);
    var input := Input(cache, files);
    var works0, r := WorksOf(input, false), Plan(input, m, false);
    assert input[k] in input;
    WrittenExactly(input[k], false, n);
    var p0 := Moved(cache[i], files[k], n);
    assert Has(works0, k, p0);
    WorksUnique(input, false);
    g, p := CommentIsThere(works0, r.works, k, p0);
    assert Explained(k, p0, g, p, r.log);
    if g == k { InMerged(cache[i], NamesOf(files), r.works[k], p); }
  }

  lemma {:induction false} InMerged(c: Cached, names: set<string>, w: Work, p: Planned)
    requires p in w.anchors
    ensures p.a in MergedWith(c, names, w).anchors
  {
    var k :| 0 <= k < |w.anchors| && w.anchors[k] == p;
    assert Plain(w.anchors)[k] == p.a;
  }

  /** The comment covers the characters it is about, and those only unless a piece was put back into it. */
  ghost predicate CoversCharacters(q: Anchor, text: Text, cells: seq<Cell>, log: seq<Application>) {
    && Attached(q) && InText(text, q) && |cells| == |text|
    && (forall k :: 0 <= k < |cells| && cells[k].inside ==> q.from <= k < q.to)
    && ((forall x <- log :: !Names(x, q.id)) ==> forall k :: 0 <= k < |cells| ==> (cells[k].inside <==> q.from <= k < q.to))
  }

  /**
   * The cache follows characters: when an operation leaves some character of a
   * cached, attached comment of an edited file, the comment is in that file
   * afterwards, attached, with its quote. It covers every character left of it
   * and of what was written into it, and nothing else but the remembered pieces
   * the operation put back at its ends.
   */
  lemma {:induction false} RecordedFollows(cache: seq<Cached>, files: seq<Named>, m: Memory, k: nat, i: nat, n: nat)
    returns (q: Anchor)
    requires CacheOk(cache) && Recordable(cache, files) && Sound(m)
    requires k < |files| && i < |cache| && cache[i].fileId == files[k].fileId
    requires n < |cache[i].anchors| && Attached(cache[i].anchors[n])
    requires Valid(|cache[i].text|, CutsOf(files[k]))
    requires SomeInside(RunCells(CellsOf(cache[i].text, cache[i].anchors[n]), CutsOf(files[k])))
    ensures forall f <- Input(cache, files) :: FileOk(f)
    ensures |Recorded(cache, files, m)| == |cache|
    ensures var a, after := cache[i].anchors[n], Recorded(cache, files, m)[i];
            && after.text == ApplyCuts(cache[i].text, CutsOf(files[k]))
            && q in after.anchors && q.id == a.id && q.quote == a.quote
            && CoversCharacters(q, after.text, RunCells(CellsOf(cache[i].text, a), CutsOf(files[k])),
                                Plan(Input(cache, files), m, false).log)
  {
    var g, p := NamedComment(cache, files, m, k, i, n);
    q := p.a;
    MovedFollows(cache[i], files[k], n);
  }

  /** When no character of it is left the comment is let go, unless its text came back in the same operation. */
  lemma {:induction false} RecordedLetsGo(cache: seq<Cached>, files: seq<Named>, m: Memory, k: nat, i: nat, n: nat)
    returns (q: Anchor)
    requires CacheOk(cache) && Recordable(cache, files) && Sound(m)
    requires k < |files| && i < |cache| && cache[i].fileId == files[k].fileId
    requires n < |cache[i].anchors| && Attached(cache[i].anchors[n])
    requires Valid(|cache[i].text|, CutsOf(files[k]))
    requires !SomeInside(RunCells(CellsOf(cache[i].text, cache[i].anchors[n]), CutsOf(files[k])))
    requires forall f <- Input(cache, files) :: FileOk(f)
    requires forall x <- Plan(Input(cache, files), m, false).log :: !Names(x, cache[i].anchors[n].id)
    ensures |Recorded(cache, files, m)| == |cache|
    ensures q in Recorded(cache, files, m)[i].anchors && SameComment(q, cache[i].anchors[n]) && q.detached
  {
    var g, p := NamedComment(cache, files, m, k, i, n);
    q := p.a;
    MovedFollows(cache[i], files[k], n);
    WrittenExactly(NamedInput(cache[i], files[k]), false, n);
  }

  /**
   * A comment of an edited file that was not attached stays as it was unless
   * its text came back, and one that arrived collapsed is detached with no
   * span to bring back.
   */
  lemma {:induction false} RecordedWaits(cache: seq<Cached>, files: seq<Named>, m: Memory, k: nat, i: nat, n: nat)
    returns (q: Anchor)
    requires CacheOk(cache) && Recordable(cache, files) && Sound(m)
    requires k < |files| && i < |cache| && cache[i].fileId == files[k].fileId
    requires n < |cache[i].anchors| && !Attached(cache[i].anchors[n])
    requires forall f <- Input(cache, files) :: FileOk(f)
    requires forall x <- Plan(Input(cache, files), m, false).log :: !Names(x, cache[i].anchors[n].id)
    ensures |Recorded(cache, files, m)| == |cache|
    ensures var a := cache[i].anchors[n];
            && q in Recorded(cache, files, m)[i].anchors && SameComment(q, a)
            && (if a.detached || a.unresolved then q == a
                else a.collapsed && q.detached && !q.collapsed && q.length.None?)
  {
    var g, p := NamedComment(cache, files, m, k, i, n);
    q := p.a;
    WaitingMoved(cache[i], files[k], n);
  }

  lemma {:induction false} WaitingMoved(c: Cached, f: Named, n: nat)
    requires FileOk(NamedInput(c, f)) && n < |c.anchors| && !Attached(c.anchors[n])
    ensures |WorkOf(NamedInput(c, f), false).anchors| == |c.anchors|
    ensures var a, p := c.anchors[n], Moved(c, f, n).a;
            && SameComment(p, a)
            && (if a.detached || a.unresolved then p == a
                else a.collapsed && p.detached && !p.collapsed && p.length.None?)
  {
    WrittenExactly(NamedInput(c, f), false, n);
    assert NamedInput(c, f).anchors[n] == AsRecorded(c.anchors[n]);
  }

  // ------------------------------------------------------- a comment no edit reaches

  /** The memory has no piece of the comment. */
  predicate HoldsNone(m: Memory, id: string) {
    forall e <- m.entries, h <- e.held :: h.id != id
  }

  lemma {:induction false} OnlyHurtIsHeld(ps: seq<Planned>, cur: Text, c: Cut, id: string)
    requires CutFits(|cur|, c) && Placed(cur, ps) && forall p <- ps :: p.a.id == id ==> !Hurts(c, p.a)
    ensures forall h <- PiecesOf(ps, cur, c, false) :: h.id != id
  {
    if ps != [] {
      assert ps[0] in ps;
      OnlyHurtIsHeld(ps[1..], cur, c, id);
      assert forall h <- PieceOf(ps[0].a, cur, c, false) :: h.id == ps[0].a.id && Hurts(c, ps[0].a);
    }
  }

  lemma {:induction false} RunHoldsNone(m: Memory, st: FileState, cuts: seq<Cut>, ctx: Context, id: string)
    requires Valid(|st.cur|, cuts) && Placed(st.cur, st.anchors) && HoldsNone(m, id) && !ctx.foreign
    requires forall p <- st.anchors :: p.a.id == id ==> !EverHurt(p, cuts, ctx)
    ensures HoldsNone(RunMemory(m, st, cuts, ctx), id)
    decreases cuts
  {
    if cuts != [] {
      StepHoldsNone(m, st, cuts[0], id);
      StepPlaced(st, cuts[0], ctx);
      StaysUnhurt(st, cuts, ctx, id);
      RunHoldsNone(StepMemory(m, st, cuts[0], false), StepFile(st, cuts[0], ctx), cuts[1..], ctx.(edit := ctx.edit + 1), id);
    }
  }

  lemma {:induction false} StepHoldsNone(m: Memory, st: FileState, c: Cut, id: string)
    requires CutFits(|st.cur|, c) && Placed(st.cur, st.anchors) && HoldsNone(m, id)
    requires forall p <- st.anchors :: p.a.id == id ==> !Hurts(c, p.a)
    ensures HoldsNone(StepMemory(m, st, c, false), id)
  {
    OnlyHurtIsHeld(st.anchors, st.cur, c, id);
  }

  lemma {:induction false} StaysUnhurt(st: FileState, cuts: seq<Cut>, ctx: Context, id: string)
    requires cuts != [] && CutFits(|st.cur|, cuts[0]) && forall p <- st.anchors :: p.a.id == id ==> !EverHurt(p, cuts, ctx)
    ensures forall q <- StepFile(st, cuts[0], ctx).anchors :: q.a.id == id ==>
              !EverHurt(q, cuts[1..], ctx.(edit := ctx.edit + 1))
  {
    var next := StepFile(st, cuts[0], ctx);
    forall q <- next.anchors | q.a.id == id
      ensures !EverHurt(q, cuts[1..], ctx.(edit := ctx.edit + 1))
    {
      var i :| 0 <= i < |next.anchors| && next.anchors[i] == q;
      assert st.anchors[i] in st.anchors;
      assert q == StepAnchor(st.anchors[i], cuts[0], ctx);
    }
  }

  /** No edit of the operation deletes text of the comment. */
  predicate Unhurt(f: PlanFile, id: string) {
    forall a <- f.anchors :: a.id == id ==> !EverHurt(Fresh(a), Running(f.edits, 0), Context(0, f.fragments, false))
  }

  lemma {:induction false} MemorisedHoldsNone(m: Memory, files: seq<PlanFile>, id: string)
    requires HoldsNone(m, id) && forall f <- files :: FileOk(f) && Unhurt(f, id)
    ensures HoldsNone(Memorised(m, files, false), id)
    decreases files
  {
    if files != [] {
      var f := files[0];
      assert f in files && Placed(f.before, FreshAll(f.anchors));
      RunHoldsNone(m, Start(f), Running(f.edits, 0), Context(0, f.fragments, false), id);
      MemorisedHoldsNone(FileMemory(m, f, false), files[1..], id);
    }
  }

  lemma {:induction false} SparedIsUnhurt(p: Planned, cuts: seq<Cut>, ctx: Context)
    requires Spared(p, cuts, ctx)
    ensures !EverHurt(p, cuts, ctx)
    decreases cuts
  {
    if cuts != [] { SparedIsUnhurt(StepAnchor(p, cuts[0], ctx), cuts[1..], ctx.(edit := ctx.edit + 1)); }
  }

  lemma {:induction false} AloneInInput(input: seq<PlanFile>, k: nat, n: nat, j: nat, a: Anchor)
    requires UniqueInput(input) && (forall f <- input :: FileOk(f)) && k < |input| && n < |input[k].anchors|
    requires j < |input| && a in input[j].anchors && a.id == input[k].anchors[n].id
    ensures j == k && a == input[k].anchors[n]
  {
    var begun := seq(|input|, l requires 0 <= l < |input| => Work(input[l].fileId, [], FreshAll(input[l].anchors), []));
    forall id ensures CountAll(begun, id) <= 1 { FreshCount(input, begun, id); }
    assert begun[k].anchors[n] in begun[k].anchors;
    var l :| 0 <= l < |input[j].anchors| && input[j].anchors[l] == a;
    assert begun[j].anchors[l] in begun[j].anchors;
    OnePlace(begun, k, j, Fresh(input[k].anchors[n]), Fresh(a));
  }

  lemma {:induction false} FreshCount(input: seq<PlanFile>, begun: seq<Work>, id: string)
    requires |begun| == |input| && forall l :: 0 <= l < |input| ==> begun[l].anchors == FreshAll(input[l].anchors)
    ensures CountAll(begun, id) == InputCount(input, id)
  {
    if input != [] { FreshCount(input[1..], begun[1..], id); }
  }

  lemma {:induction false} NothingPutBack(cache: seq<Cached>, files: seq<Named>, m: Memory, id: string)
    requires CacheOk(cache) && Recordable(cache, files) && Sound(m) && HoldsNone(m, id)
    requires forall f <- Input(cache, files) :: FileOk(f) && Unhurt(f, id)
    ensures forall x <- Plan(Input(cache, files), m, false).log :: !Names(x, id)
  {
    var input := Input(cache, files);
    PlanForFiles(cache, files, m);
    MemorisedHoldsNone(m, input, id);
    forall x <- Plan(input, m, false).log
      ensures !Names(x, id)
    {
      assert Justified(WorksOf(input, false), Memorised(m, input, false), x);
    }
  }

  /**
   * A comment no edit reaches into, with no piece remembered, stays in its file
   * attached over the same text.
   */
  lemma {:induction false} RecordedStays(cache: seq<Cached>, files: seq<Named>, m: Memory, k: nat, i: nat, n: nat)
    returns (q: Anchor)
    requires CacheOk(cache) && Recordable(cache, files) && Sound(m)
    requires k < |files| && i < |cache| && cache[i].fileId == files[k].fileId
    requires n < |cache[i].anchors| && Attached(cache[i].anchors[n]) && HoldsNone(m, cache[i].anchors[n].id)
    requires Spared(Fresh(cache[i].anchors[n]), CutsOf(files[k]), Session(files[k]))
    ensures forall f <- Input(cache, files) :: FileOk(f)
    ensures |Recorded(cache, files, m)| == |cache|
    ensures var a, after := cache[i].anchors[n], Recorded(cache, files, m)[i];
            && q in after.anchors && SameComment(q, a) && Attached(q)
            && InText(cache[i].text, a) && InText(after.text, q)
            && after.text[q.from..q.to] == cache[i].text[a.from..a.to]
  {
    var a, input := cache[i].anchors[n], Input(cache, files);
    assert cache[i] in cache && a in cache[i].anchors;
    var g, p := NamedComment(cache, files, m, k, i, n);
    q := p.a;
    SparedUnhurt(cache, files, m, k, i, n);
    NothingPutBack(cache, files, m, a.id);
    var f := NamedInput(cache[i], files[k]);
    assert Start(f).anchors[n] == Fresh(a);
    SparedTextStays(Start(f), n, CutsOf(files[k]), Session(files[k]));
    WrittenExactly(f, false, n);
  }

  lemma {:induction false} SparedUnhurt(cache: seq<Cached>, files: seq<Named>, m: Memory, k: nat, i: nat, n: nat)
    requires CacheOk(cache) && Recordable(cache, files) && Sound(m)
    requires k < |files| && i < |cache| && cache[i].fileId == files[k].fileId
    requires n < |cache[i].anchors| && Attached(cache[i].anchors[n])
    requires Spared(Fresh(cache[i].anchors[n]), CutsOf(files[k]), Session(files[k]))
    ensures forall f <- Input(cache, files) :: Unhurt(f, cache[i].anchors[n].id)
  {
    var a, input := cache[i].anchors[n], Input(cache, files);
    PlanForFiles(cache, files, m);
    NamedInputIs(cache, files, k, i);
    SparedIsUnhurt(Fresh(a), CutsOf(files[k]), Session(files[k]));
    assert input[k].anchors[n] == a;
    forall f <- input, b <- f.anchors | b.id == a.id
      ensures !EverHurt(Fresh(b), Running(f.edits, 0), Context(0, f.fragments, false))
    {
      var j :| 0 <= j < |input| && input[j] == f;
      AloneInInput(input, k, n, j, b);
    }
  }

  // ------------------------------------------------------- a file nobody named

  lemma {:induction false} SplitIs(anchors: seq<Anchor>, detached: bool)
    ensures forall a :: a in Split(anchors, detached) <==> a in anchors && a.detached == detached
  {
    if anchors != [] { SplitIs(anchors[1..], detached); }
  }

  lemma {:induction false} OthersHas(cache: seq<Cached>, names: set<string>, c: Cached)
    requires c in cache && c.fileId !in names && Split(c.anchors, true) != []
    ensures OtherInput(c) in Others(cache, names)
  {
    if cache[0] != c { OthersHas(cache[1..], names, c); }
  }

  lemma {:induction false} OthersWait(cache: seq<Cached>, names: set<string>)
    ensures forall f <- Others(cache, names) :: f.anchors != []
  {
    if cache != [] { OthersWait(cache[1..], names); }
  }

  /** A file without edits has no insertion and keeps its anchors through phase 1. */
  lemma {:induction false} NoEditsWork(f: PlanFile)
    requires FileOk(f) && f.edits == []
    ensures WorkOf(f, false).inserts == [] && WorkOf(f, false).after == f.before
    ensures |WorkOf(f, false).anchors| == |f.anchors|
    ensures forall l :: 0 <= l < |f.anchors| ==> WorkOf(f, false).anchors[l].a == f.anchors[l]
  {
    assert Running(f.edits, 0) == [];
  }

  /** Whatever a plan leaves in a file without edits was there. */
  lemma {:induction false} NothingPinnedThere(works0: seq<Work>, m0: Memory, r: Repin, j: nat, p: Planned)
    requires Unique(works0) && Sane(works0, m0, r) && j < |works0| && works0[j].inserts == [] && p in r.works[j].anchors
    ensures p in works0[j].anchors
  {
    var id := p.a.id;
    MemberCounts(r.works[j].anchors, p);
    FileCount(r.works, j, id);
    assert CountAll(works0, id) == CountAll(r.works, id);
    var g, p0 := CountedIsThere(works0, id);
    assert Has(r.works, j, p);
    assert Explained(g, p0, j, p, r.log);
    forall x <- r.log
      ensures !Names(x, p0.a.id)
    {
      assert Justified(works0, m0, x);
    }
  }

  /** What nothing was put back into stays where phase 1 left it. */
  lemma {:induction false} StaysThere(works0: seq<Work>, m0: Memory, r: Repin, j: nat, p0: Planned)
    requires Unique(works0) && Sane(works0, m0, r) && Has(works0, j, p0)
    requires forall x <- r.log :: !Names(x, p0.a.id)
    ensures Has(r.works, j, p0)
  {
    var g, p := CommentIsThere(works0, r.works, j, p0);
    assert Explained(j, p0, g, p, r.log);
  }

  lemma {:induction false} OtherAnchors(cache: seq<Cached>, files: seq<Named>, m: Memory, j: nat)
    requires CacheOk(cache) && Recordable(cache, files) && Sound(m) && j < |Input(cache, files)|
    requires Input(cache, files)[j].edits == []
    ensures (forall f <- Input(cache, files) :: FileOk(f)) && j < |Plan(Input(cache, files), m, false).works|
    ensures var f, r := Input(cache, files)[j], Plan(Input(cache, files), m, false);
            && r.works[j].after == f.before
            && (forall a <- Plain(r.works[j].anchors) :: a in f.anchors)
            && forall a <- f.anchors :: (forall x <- r.log :: !Names(x, a.id)) ==> a in Plain(r.works[j].anchors)
  {
    var input := Input(cache, files);
    PlanForFiles(cache, files, m);
    var works0, r, m0 := WorksOf(input, false), Plan(input, m, false), Memorised(m, input, false);
    var f, w := input[j], r.works[j];
    assert f in input;
    NoEditsWork(f);
    WorksUnique(input, false);
    forall a <- Plain(w.anchors) ensures a in f.anchors {
      var l :| 0 <= l < |w.anchors| && Plain(w.anchors)[l] == a;
      NothingPinnedThere(works0, m0, r, j, w.anchors[l]);
    }
    forall a <- f.anchors | forall x <- r.log :: !Names(x, a.id)
      ensures a in Plain(w.anchors)
    {
      var l :| 0 <= l < |f.anchors| && f.anchors[l] == a;
      StaysThere(works0, m0, r, j, works0[j].anchors[l]);
      var k :| 0 <= k < |w.anchors| && w.anchors[k] == works0[j].anchors[l];
      assert Plain(w.anchors)[k] == a;
    }
  }

  /**
   * A file the operation does not name keeps its text and every anchor that is
   * not detached, gains none, and loses only detached ones whose text came back
   * elsewhere.
   */
  lemma {:induction false} UnnamedStays(cache: seq<Cached>, files: seq<Named>, m: Memory, i: nat)
    requires CacheOk(cache) && Recordable(cache, files) && Sound(m)
    requires i < |cache| && cache[i].fileId !in NamesOf(files)
    ensures forall f <- Input(cache, files) :: FileOk(f)
    ensures |Recorded(cache, files, m)| == |cache|
    ensures var was, after, log := cache[i], Recorded(cache, files, m)[i], Plan(Input(cache, files), m, false).log;
            && after.fileId == was.fileId && after.text == was.text
            && (forall a <- after.anchors :: a in was.anchors)
            && forall a <- was.anchors :: !a.detached || (forall x <- log :: !Names(x, a.id)) ==> a in after.anchors
  {
    PlanForFiles(cache, files, m);
    SplitIs(cache[i].anchors, true);
    if Split(cache[i].anchors, true) == [] {
      UnplannedStays(cache, files, m, i);
    } else {
      OthersHas(cache, NamesOf(files), cache[i]);
      PlannedStays(cache, files, m, i);
    }
  }

  lemma {:induction false} UnplannedStays(cache: seq<Cached>, files: seq<Named>, m: Memory, i: nat)
    requires CacheOk(cache) && Recordable(cache, files) && Sound(m) && forall f <- Input(cache, files) :: FileOk(f)
    requires i < |cache| && cache[i].fileId !in NamesOf(files) && Split(cache[i].anchors, true) == []
    ensures |Recorded(cache, files, m)| == |cache| && Recorded(cache, files, m)[i] == cache[i]
  {
    var input := Input(cache, files);
    PlanForFiles(cache, files, m);
    var r := Plan(input, m, false);
    MergeAllAt(cache, NamesOf(files), r.works, i);
    NobodyPlans(cache, files, i);
    forall w <- r.works ensures w.fileId != cache[i].fileId {
      var k :| 0 <= k < |r.works| && r.works[k] == w;
      assert input[k] in input;
    }
  }

  lemma {:induction false} PlannedStays(cache: seq<Cached>, files: seq<Named>, m: Memory, i: nat)
    requires CacheOk(cache) && Recordable(cache, files) && Sound(m) && forall f <- Input(cache, files) :: FileOk(f)
    requires i < |cache| && cache[i].fileId !in NamesOf(files)
    requires OtherInput(cache[i]) in Others(cache, NamesOf(files))
    ensures |Recorded(cache, files, m)| == |cache|
    ensures var was, after, log := cache[i], Recorded(cache, files, m)[i], Plan(Input(cache, files), m, false).log;
            && after.fileId == was.fileId && after.text == was.text
            && (forall a <- after.anchors :: a in was.anchors)
            && forall a <- was.anchors :: !a.detached || (forall x <- log :: !Names(x, a.id)) ==> a in after.anchors
  {
    var names, input, c := NamesOf(files), Input(cache, files), cache[i];
    PlanForFiles(cache, files, m);
    var r := Plan(input, m, false);
    MergeAllAt(cache, names, r.works, i);
    assert OtherInput(c) in input;
    var j :| 0 <= j < |input| && input[j] == OtherInput(c);
    OtherAnchors(cache, files, m, j);
    MergedKeeps(c, names, r.works[j], r.log);
  }

  lemma {:induction false} MergedKeeps(c: Cached, names: set<string>, w: Work, log: seq<Application>)
    requires w.fileId !in names && forall a <- Plain(w.anchors) :: a in Split(c.anchors, true)
    requires forall a <- Split(c.anchors, true) :: (forall x <- log :: !Names(x, a.id)) ==> a in Plain(w.anchors)
    ensures var after := MergedWith(c, names, w);
            && (forall a <- after.anchors :: a in c.anchors)
            && forall a <- c.anchors :: !a.detached || (forall x <- log :: !Names(x, a.id)) ==> a in after.anchors
  {
    SplitIs(c.anchors, true);
    SplitIs(c.anchors, false);
  }

  lemma {:induction false} NobodyPlans(cache: seq<Cached>, files: seq<Named>, i: nat)
    requires DistinctFiles(cache) && Recordable(cache, files) && i < |cache| && cache[i].fileId !in NamesOf(files)
    requires Split(cache[i].anchors, true) == []
    ensures forall f <- Input(cache, files) :: f.fileId != cache[i].fileId
  {
    var names := NamesOf(files);
    OthersAre(cache, names);
    OthersWait(cache, names);
    forall f <- Input(cache, files) ensures f.fileId != cache[i].fileId {
      if f in Others(cache, names) {
        var c :| c in cache && f == OtherInput(c);
      } else {
        var k :| 0 <= k < |files| && NamedInputs(cache, files)[k] == f;
        assert files[k] in files;
      }
    }
  }

  // ------------------------------------------------------- what is written

  /**
   * Every record that recording changes is written: a planned comment of an
   * edited file whose record is not to be written is in that file just as it
   * was cached.
   */
  lemma {:induction false} RecordingWrites(cache: seq<Cached>, files: seq<Named>, m: Memory, k: nat, i: nat, n: nat,
                                          g: nat, p: Planned)
    requires CacheOk(cache) && Recordable(cache, files) && Sound(m) && forall f <- Input(cache, files) :: FileOk(f)
    requires k < |files| && i < |cache| && cache[i].fileId == files[k].fileId && n < |cache[i].anchors|
    requires Has(AllRewritten(Plan(Input(cache, files), m, false).works, CollapsedIds(cache, files)), g, p)
    requires p.a.id == cache[i].anchors[n].id && !p.isSet
    ensures g == k && p.a == cache[i].anchors[n]
  {
    var input, ids := Input(cache, files), CollapsedIds(cache, files);
    var works := Plan(input, m, false).works;
    PlanForFiles(cache, files, m);
    NamedInputIs(cache, files, k, i);
    FoundAt(cache, i);
    assert files[k] in files && cache[i].anchors[n] in cache[i].anchors;
    var l :| 0 <= l < |AllRewritten(works, ids)[g].anchors| && AllRewritten(works, ids)[g].anchors[l] == p;
    assert works[g].anchors[l] == p;
    EveryChangeIsWritten(input, m, k, n, g, p);
    assert input[k].anchors[n] == AsRecorded(cache[i].anchors[n]);
  }
}
