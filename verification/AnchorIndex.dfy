/** The cache of resolved anchors, kept current by recording operations. */
module AnchorIndex {
  import opened Common
  import opened Utf16
  import opened SessionMemory
  import opened AnchorEdits
  import opened AnchorRepin
  import opened AnchorPlan
  import opened Planner

  /** A cached file. The cache lists its files in the order they were loaded. */
  datatype Cached = Cached(fileId: string, text: Text, anchors: seq<Anchor>)

  /** A file as the caller of `record` names it. */
  datatype Named = Named(fileId: string, edits: seq<Edit>, fragments: seq<FragmentRange>)

  // ------------------------------------------------------- the input of the planner

  function FileIndex(cache: seq<Cached>, fileId: string): (r: Option<nat>)
    ensures r.Some? ==> r.value < |cache| && cache[r.value].fileId == fileId
    ensures r.None? ==> forall c <- cache :: c.fileId != fileId
  {
    if cache == [] then None
    else if cache[0].fileId == fileId then Some(0)
    else
      var r := FileIndex(cache[1..], fileId);
      if r.None? then None else Some(r.value + 1)
  }

  /** An anchor that arrived collapsed is recorded as detached. */
  function AsRecorded(a: Anchor): (r: Anchor)
    ensures r.id == a.id
  {
    if a.detached || a.unresolved || !a.collapsed then a
    else a.(detached := true, collapsed := false, from := 0, to := 0, length := None)
  }

  function AllAsRecorded(anchors: seq<Anchor>): (r: seq<Anchor>)
    ensures |r| == |anchors| && forall i :: 0 <= i < |r| ==> r[i] == AsRecorded(anchors[i])
  {
    seq(|anchors|, i requires 0 <= i < |anchors| => AsRecorded(anchors[i]))
  }

  function Split(anchors: seq<Anchor>, detached: bool): seq<Anchor> {
    if anchors == [] then []
    else (if anchors[0].detached == detached then [anchors[0]] else []) + Split(anchors[1..], detached)
  }

  function NamedInput(c: Cached, f: Named): PlanFile {
    PlanFile(c.fileId, c.text, AllAsRecorded(c.anchors), f.edits, f.fragments)
  }

  function OtherInput(c: Cached): PlanFile {
    PlanFile(c.fileId, c.text, Split(c.anchors, true), [], [])
  }

  /** The cached files nobody named that hold detached anchors. */
  function Others(cache: seq<Cached>, names: set<string>): seq<PlanFile> {
    if cache == [] then []
    else
      var rest := Others(cache[1..], names);
      if cache[0].fileId in names || Split(cache[0].anchors, true) == [] then rest
      else [OtherInput(cache[0])] + rest
  }

  // ------------------------------------------------------- taking the plan in

  function Plain(ps: seq<Planned>): (r: seq<Anchor>)
    ensures |r| == |ps| && forall i :: 0 <= i < |r| ==> r[i] == ps[i].a
  {
    seq(|ps|, i requires 0 <= i < |ps| => ps[i].a)
  }

  /** One planned file: it replaces a named file, and joins the attached of another. */
  function Merge(cache: seq<Cached>, names: set<string>, w: Work): (r: seq<Cached>)
    ensures |r| == |cache| && forall i :: 0 <= i < |r| ==> r[i].fileId == cache[i].fileId
  {
    var i := FileIndex(cache, w.fileId);
    if i.None? then cache
    else
      var c := cache[i.value];
      var kept := if w.fileId in names then [] else Split(c.anchors, false);
      cache[i.value := Cached(c.fileId, w.after, kept + Plain(w.anchors))]
  }

  function MergeAll(cache: seq<Cached>, names: set<string>, works: seq<Work>): seq<Cached>
    decreases works
  {
    if works == [] then cache else MergeAll(Merge(cache, names, works[0]), names, works[1..])
  }

  // ------------------------------------------------------- counting comments

  function CountIn(anchors: seq<Anchor>, id: string): nat {
    if anchors == [] then 0 else (if anchors[0].id == id then 1 else 0) + CountIn(anchors[1..], id)
  }

  function CacheCount(cache: seq<Cached>, id: string): nat {
    if cache == [] then 0 else CountIn(cache[0].anchors, id) + CacheCount(cache[1..], id)
  }

  lemma {:induction false} CountInIds(anchors: seq<Anchor>, ps: seq<Planned>, id: string)
    requires |anchors| == |ps| && forall i :: 0 <= i < |ps| ==> anchors[i].id == ps[i].a.id
    ensures CountIn(anchors, id) == Count(ps, id)
  {
    if ps != [] { CountInIds(anchors[1..], ps[1..], id); }
  }

  lemma {:induction false} CountInConcat(a: seq<Anchor>, b: seq<Anchor>, id: string)
    ensures CountIn(a + b, id) == CountIn(a, id) + CountIn(b, id)
  {
    if a == [] {
      assert a + b == b;
    } else {
      assert (a + b)[1..] == a[1..] + b;
      CountInConcat(a[1..], b, id);
    }
  }

  lemma {:induction false} CountInSplit(anchors: seq<Anchor>, id: string)
    ensures CountIn(Split(anchors, true), id) + CountIn(Split(anchors, false), id) == CountIn(anchors, id)
  {
    if anchors != [] {
      CountInSplit(anchors[1..], id);
      var d := anchors[0].detached;
      assert Split(anchors, d)[1..] == Split(anchors[1..], d);
      assert Split(anchors, !d) == Split(anchors[1..], !d);
    }
  }

  lemma {:induction false} CacheCountUpdate(cache: seq<Cached>, i: nat, c: Cached, id: string)
    requires i < |cache|
    ensures CacheCount(cache[i := c], id) == CacheCount(cache, id) + CountIn(c.anchors, id) - CountIn(cache[i].anchors, id)
  {
    if i == 0 {
      assert cache[i := c][1..] == cache[1..];
    } else {
      CacheCountUpdate(cache[1..], i - 1, c, id);
      assert cache[i := c][1..] == cache[1..][i - 1 := c];
    }
  }

  /** The input file holds the comments of the cached file that it stands for. */
  ghost predicate StandsFor(cache: seq<Cached>, names: set<string>, f: PlanFile) {
    exists i :: 0 <= i < |cache| && cache[i].fileId == f.fileId && forall id ::
      CountIn(f.anchors, id) == CountIn(if f.fileId in names then cache[i].anchors else Split(cache[i].anchors, true), id)
  }

  ghost predicate DistinctFiles(cache: seq<Cached>) {
    forall i, j :: 0 <= i < j < |cache| ==> cache[i].fileId != cache[j].fileId
  }

  lemma {:induction false} MergeCounts(cache: seq<Cached>, names: set<string>, f: PlanFile, w: Work, id: string)
    requires DistinctFiles(cache) && StandsFor(cache, names, f) && w.fileId == f.fileId
    ensures CacheCount(Merge(cache, names, w), id) == CacheCount(cache, id) + Count(w.anchors, id) - CountIn(f.anchors, id)
  {
    var j :| 0 <= j < |cache| && cache[j].fileId == f.fileId && forall id ::
      CountIn(f.anchors, id) == CountIn(if f.fileId in names then cache[j].anchors else Split(cache[j].anchors, true), id);
    var i := FileIndex(cache, w.fileId).value;
    assert i == j;
    var kept := if w.fileId in names then [] else Split(cache[i].anchors, false);
    CacheCountUpdate(cache, i, Cached(cache[i].fileId, w.after, kept + Plain(w.anchors)), id);
    CountInConcat(kept, Plain(w.anchors), id);
    CountInIds(Plain(w.anchors), w.anchors, id);
    CountInSplit(cache[i].anchors, id);
  }

  lemma {:induction false} MergeLeavesOthers(cache: seq<Cached>, names: set<string>, w: Work, f: PlanFile)
    requires StandsFor(cache, names, f) && f.fileId != w.fileId
    ensures StandsFor(Merge(cache, names, w), names, f)
  {
    var i :| 0 <= i < |cache| && cache[i].fileId == f.fileId && forall id ::
      CountIn(f.anchors, id) == CountIn(if f.fileId in names then cache[i].anchors else Split(cache[i].anchors, true), id);
    assert Merge(cache, names, w)[i] == cache[i];
  }

  ghost predicate DistinctInput(files: seq<PlanFile>) {
    forall i, j :: 0 <= i < j < |files| ==> files[i].fileId != files[j].fileId
  }

  lemma {:induction false} MergeAllCounts(cache: seq<Cached>, names: set<string>, files: seq<PlanFile>,
                                          works: seq<Work>, id: string)
    requires DistinctFiles(cache) && DistinctInput(files) && forall f <- files :: StandsFor(cache, names, f)
    requires |works| == |files| && forall i :: 0 <= i < |files| ==> works[i].fileId == files[i].fileId
    ensures CacheCount(MergeAll(cache, names, works), id) ==
            CacheCount(cache, id) + CountAll(works, id) - InputCount(files, id)
    decreases works
  {
    if works != [] {
      var next := Merge(cache, names, works[0]);
      assert files[0] in files;
      MergeCounts(cache, names, files[0], works[0], id);
      forall f <- files[1..] ensures StandsFor(next, names, f) {
        MergeLeavesOthers(cache, names, works[0], f);
      }
      MergeAllCounts(next, names, files[1..], works[1..], id);
      CountInIds(files[0].anchors, FreshAll(files[0].anchors), id);
    }
  }

  // ------------------------------------------------------- a sound cache

  predicate CachePlaced(cache: seq<Cached>) {
    forall c <- cache, a <- c.anchors :: Attached(a) ==> InText(c.text, a)
  }

  ghost predicate CacheUnique(cache: seq<Cached>) {
    forall id :: CacheCount(cache, id) <= 1
  }

  lemma {:induction false} SplitMembers(anchors: seq<Anchor>, detached: bool)
    ensures forall a <- Split(anchors, detached) :: a in anchors && a.detached == detached
  {
    if anchors != [] { SplitMembers(anchors[1..], detached); }
  }

  /** A planned file that was not edited keeps its text. */
  predicate KeepsText(cache: seq<Cached>, names: set<string>, w: Work) {
    w.fileId !in names ==> forall c <- cache :: c.fileId == w.fileId ==> c.text == w.after
  }

  lemma {:induction false} MergePlaced(cache: seq<Cached>, names: set<string>, w: Work)
    requires CachePlaced(cache) && Placed(w.after, w.anchors) && KeepsText(cache, names, w)
    ensures CachePlaced(Merge(cache, names, w))
  {
    var i := FileIndex(cache, w.fileId);
    if i.Some? {
      var c := cache[i.value];
      assert c in cache;
      var kept := if w.fileId in names then [] else Split(c.anchors, false);
      SplitMembers(c.anchors, false);
      forall a <- kept + Plain(w.anchors) | Attached(a)
        ensures InText(w.after, a)
      {
        if a !in kept {
          var k :| 0 <= k < |w.anchors| && Plain(w.anchors)[k] == a;
          assert w.anchors[k] in w.anchors;
        }
      }
    }
  }

  lemma {:induction false} MergeAllPlaced(cache: seq<Cached>, names: set<string>, works: seq<Work>)
    requires CachePlaced(cache) && DistinctFiles(cache)
    requires forall w <- works :: Placed(w.after, w.anchors) && KeepsText(cache, names, w)
    ensures CachePlaced(MergeAll(cache, names, works)) && DistinctFiles(MergeAll(cache, names, works))
    decreases works
  {
    if works != [] {
      assert works[0] in works;
      MergePlaced(cache, names, works[0]);
      var next := Merge(cache, names, works[0]);
      forall w <- works[1..] ensures KeepsText(next, names, w) {
        MergeKeepsText(cache, names, works[0], w);
      }
      MergeAllPlaced(next, names, works[1..]);
    }
  }

  lemma {:induction false} MergeKeepsText(cache: seq<Cached>, names: set<string>, w: Work, v: Work)
    requires KeepsText(cache, names, w) && KeepsText(cache, names, v)
    ensures KeepsText(Merge(cache, names, w), names, v)
  {
    var next := Merge(cache, names, w);
    if v.fileId !in names {
      forall c <- next | c.fileId == v.fileId
        ensures c.text == v.after
      {
        var i :| 0 <= i < |next| && next[i] == c;
        assert cache[i] in cache;
      }
    }
  }

  // ------------------------------------------------------- the input is sound

  function NamedInputs(cache: seq<Cached>, files: seq<Named>): (r: seq<PlanFile>)
    requires forall f <- files :: FileIndex(cache, f.fileId).Some?
    ensures |r| == |files| && forall i :: 0 <= i < |r| ==> r[i].fileId == files[i].fileId
  {
    seq(|files|, i requires 0 <= i < |files| => NamedInput(cache[FileIndex(cache, files[i].fileId).value], files[i]))
  }

  function NamesOf(files: seq<Named>): set<string> {
    set f <- files :: f.fileId
  }

  function Input(cache: seq<Cached>, files: seq<Named>): seq<PlanFile>
    requires forall f <- files :: FileIndex(cache, f.fileId).Some?
  {
    NamedInputs(cache, files) + Others(cache, NamesOf(files))
  }

  /** What a caller promises: loaded files, each once, with edits inside their text. */
  predicate Recordable(cache: seq<Cached>, files: seq<Named>) {
    && (forall f <- files :: FileIndex(cache, f.fileId).Some?)
    && (forall i, j :: 0 <= i < j < |files| ==> files[i].fileId != files[j].fileId)
    && forall f <- files :: Valid(|cache[FileIndex(cache, f.fileId).value].text|, Running(f.edits, 0))
  }

  lemma {:induction false} CountInRecorded(anchors: seq<Anchor>, id: string)
    ensures CountIn(AllAsRecorded(anchors), id) == CountIn(anchors, id)
  {
    if anchors != [] {
      assert AllAsRecorded(anchors)[1..] == AllAsRecorded(anchors[1..]);
      CountInRecorded(anchors[1..], id);
    }
  }

  lemma {:induction false} OthersAre(cache: seq<Cached>, names: set<string>)
    requires DistinctFiles(cache)
    ensures DistinctInput(Others(cache, names))
    ensures forall f <- Others(cache, names) :: f.fileId !in names && exists c <- cache :: f == OtherInput(c)
  {
    if cache != [] {
      OthersAre(cache[1..], names);
      assert forall c <- cache[1..] :: c in cache && c.fileId != cache[0].fileId;
    }
  }

  lemma {:induction false} OtherStands(cache: seq<Cached>, names: set<string>, c: Cached)
    requires c in cache && c.fileId !in names
    ensures StandsFor(cache, names, OtherInput(c))
  {
    var i :| 0 <= i < |cache| && cache[i] == c;
  }

  lemma {:induction false} NamedStands(cache: seq<Cached>, files: seq<Named>, k: nat)
    requires (forall f <- files :: FileIndex(cache, f.fileId).Some?) && k < |files|
    ensures StandsFor(cache, NamesOf(files), NamedInputs(cache, files)[k])
  {
    var i := FileIndex(cache, files[k].fileId).value;
    forall id { CountInRecorded(cache[i].anchors, id); }
    assert files[k] in files;
  }

  lemma {:induction false} InputStands(cache: seq<Cached>, files: seq<Named>)
    requires DistinctFiles(cache) && Recordable(cache, files)
    ensures DistinctInput(Input(cache, files))
    ensures forall f <- Input(cache, files) :: StandsFor(cache, NamesOf(files), f)
  {
    var names, input := NamesOf(files), Input(cache, files);
    OthersAre(cache, names);
    forall k | 0 <= k < |files|
      ensures StandsFor(cache, names, NamedInputs(cache, files)[k]) && NamedInputs(cache, files)[k].fileId in names
    {
      NamedStands(cache, files, k);
      assert files[k] in files;
    }
    forall f <- Others(cache, names) ensures StandsFor(cache, names, f) {
      var c :| c in cache && f == OtherInput(c);
      OtherStands(cache, names, c);
    }
  }

  lemma {:induction false} InputFits(cache: seq<Cached>, files: seq<Named>)
    requires DistinctFiles(cache) && CachePlaced(cache) && Recordable(cache, files)
    ensures forall f <- Input(cache, files) :: FileOk(f)
  {
    OthersAre(cache, NamesOf(files));
    forall f <- Others(cache, NamesOf(files)) ensures FileOk(f) {
      var c :| c in cache && f == OtherInput(c);
      SplitMembers(c.anchors, true);
    }
    forall k | 0 <= k < |files|
      ensures FileOk(NamedInputs(cache, files)[k])
    {
      assert files[k] in files;
      NamedFits(cache[FileIndex(cache, files[k].fileId).value], files[k], cache);
    }
  }

  lemma {:induction false} NamedFits(c: Cached, f: Named, cache: seq<Cached>)
    requires c in cache && CachePlaced(cache) && Valid(|c.text|, Running(f.edits, 0))
    ensures FileOk(NamedInput(c, f))
  {
    forall a <- AllAsRecorded(c.anchors) | Attached(a)
      ensures InText(c.text, a)
    {
      var i :| 0 <= i < |c.anchors| && AllAsRecorded(c.anchors)[i] == a;
      assert c.anchors[i] in c.anchors;
    }
  }

  /** Files with no anchors at all, to count what the input takes from the cache. */
  function Emptied(files: seq<PlanFile>): (r: seq<Work>)
    ensures |r| == |files| && forall i :: 0 <= i < |r| ==> r[i].fileId == files[i].fileId && r[i].anchors == []
  {
    seq(|files|, i requires 0 <= i < |files| => Work(files[i].fileId, [], [], []))
  }

  lemma {:induction false} EmptyCounts(works: seq<Work>, id: string)
    requires forall w <- works :: w.anchors == []
    ensures CountAll(works, id) == 0
  {
    if works != [] { EmptyCounts(works[1..], id); }
  }

  lemma {:induction false} InputUnique(cache: seq<Cached>, files: seq<Named>)
    requires DistinctFiles(cache) && CacheUnique(cache) && Recordable(cache, files)
    ensures UniqueInput(Input(cache, files))
  {
    var input := Input(cache, files);
    InputStands(cache, files);
    forall id ensures InputCount(input, id) <= 1 {
      MergeAllCounts(cache, NamesOf(files), input, Emptied(input), id);
      EmptyCounts(Emptied(input), id);
    }
  }

  // ------------------------------------------------------- recording

  ghost predicate CacheOk(cache: seq<Cached>) {
    DistinctFiles(cache) && CachePlaced(cache) && CacheUnique(cache)
  }

  function Recorded(cache: seq<Cached>, files: seq<Named>, m: Memory): seq<Cached>
    requires Recordable(cache, files) && forall f <- Input(cache, files) :: FileOk(f)
  {
    MergeAll(cache, NamesOf(files), Plan(Input(cache, files), m, false).works)
  }

  /** An anchor that arrived collapsed, whose record is written as detached. */
  predicate ArrivedCollapsed(a: Anchor) {
    !a.detached && !a.unresolved && a.collapsed
  }

  function CollapsedIds(cache: seq<Cached>, files: seq<Named>): set<string>
    requires forall f <- files :: FileIndex(cache, f.fileId).Some?
  {
    set f, a | f in files && a in cache[FileIndex(cache, f.fileId).value].anchors && ArrivedCollapsed(a) :: a.id
  }

  function Rewritten(ps: seq<Planned>, ids: set<string>): (r: seq<Planned>)
    ensures |r| == |ps|
    ensures forall i :: 0 <= i < |r| ==> r[i] == if ps[i].a.id in ids then ps[i].(isSet := true) else ps[i]
  {
    seq(|ps|, i requires 0 <= i < |ps| => if ps[i].a.id in ids then ps[i].(isSet := true) else ps[i])
  }

  /** The plan with the records of collapsed anchors written too. */
  function AllRewritten(works: seq<Work>, ids: set<string>): (r: seq<Work>)
    ensures |r| == |works|
    ensures forall i :: 0 <= i < |r| ==> r[i] == works[i].(anchors := Rewritten(works[i].anchors, ids))
  {
    seq(|works|, i requires 0 <= i < |works| => works[i].(anchors := Rewritten(works[i].anchors, ids)))
  }

  lemma {:induction false} RewrittenMerges(cache: seq<Cached>, names: set<string>, works: seq<Work>, ids: set<string>)
    ensures MergeAll(cache, names, AllRewritten(works, ids)) == MergeAll(cache, names, works)
    decreases works
  {
    if works != [] {
      var w := AllRewritten(works, ids)[0];
      assert Plain(w.anchors) == Plain(works[0].anchors);
      assert AllRewritten(works, ids)[1..] == AllRewritten(works[1..], ids);
      RewrittenMerges(Merge(cache, names, works[0]), names, works[1..], ids);
    }
  }

  lemma {:induction false} OtherKeepsText(cache: seq<Cached>, files: seq<Named>, f: PlanFile)
    requires DistinctFiles(cache) && f in Others(cache, NamesOf(files)) && FileOk(f)
    ensures WorkOf(f, false).after == f.before
    ensures forall c <- cache :: c.fileId == f.fileId ==> c.text == f.before
  {
    OthersAre(cache, NamesOf(files));
    var c :| c in cache && f == OtherInput(c);
    assert Running(f.edits, 0) == [];
  }

  /**
   * Comments are conserved: recording any operation leaves every comment id in
   * the cache as often as it was there, whichever file it ends in, and leaves
   * every cached anchor a span of its file's new text.
   */
  lemma {:induction false} RecordingConserves(cache: seq<Cached>, files: seq<Named>, m: Memory)
    requires CacheOk(cache) && Recordable(cache, files) && Sound(m)
    ensures forall f <- Input(cache, files) :: FileOk(f)
    ensures var r := Recorded(cache, files, m);
            CacheOk(r) && forall id :: CacheCount(r, id) == CacheCount(cache, id)
    ensures Sound(Plan(Input(cache, files), m, false).memory)
  {
    var input, names := Input(cache, files), NamesOf(files);
    InputFits(cache, files);
    InputUnique(cache, files);
    InputStands(cache, files);
    PlanIsSound(input, m, false);
    var works := Plan(input, m, false).works;
    forall id ensures CacheCount(MergeAll(cache, names, works), id) == CacheCount(cache, id) {
      assert CountAll(works, id) == InputCount(input, id);
      MergeAllCounts(cache, names, input, works, id);
    }
    forall w <- works ensures Placed(w.after, w.anchors) && KeepsText(cache, names, w) {
      var i :| 0 <= i < |works| && works[i] == w;
      assert works[i].after == WorkOf(input[i], false).after;
      WorkKeepsText(cache, files, i);
    }
    MergeAllPlaced(cache, names, works);
  }

  lemma {:induction false} WorkKeepsText(cache: seq<Cached>, files: seq<Named>, i: nat)
    requires DistinctFiles(cache) && Recordable(cache, files) && i < |Input(cache, files)| && FileOk(Input(cache, files)[i])
    ensures KeepsText(cache, NamesOf(files), WorkOf(Input(cache, files)[i], false))
  {
    var f := Input(cache, files)[i];
    if i < |files| {
      assert files[i] in files;
    } else {
      assert f in Others(cache, NamesOf(files));
      OtherKeepsText(cache, files, f);
    }
  }

  class Index {
    var cache: seq<Cached>

    constructor (loaded: seq<Cached>)
      requires CacheOk(loaded)
      ensures cache == loaded
    {
      cache := loaded;
    }

    /** Records an operation whose text is already in the document. */
    method Record(files: seq<Named>, memory: MoveMemory) returns (r: Result<seq<Work>, string>)
      requires CacheOk(cache) && Sound(memory.View())
      requires (forall f <- files :: FileIndex(cache, f.fileId).Some?) ==> Recordable(cache, files)
      modifies this, memory
      ensures CacheOk(cache) && Sound(memory.View())
      ensures forall id :: CacheCount(cache, id) == old(CacheCount(cache, id))
      ensures r.Ok? <==> forall f <- files :: FileIndex(old(cache), f.fileId).Some?
      ensures r.Err? ==> cache == old(cache) && memory.View() == old(memory.View())
      ensures r.Ok? ==> Recordable(old(cache), files) && forall f <- Input(old(cache), files) :: FileOk(f)
      ensures r.Ok? ==> cache == Recorded(old(cache), files, old(memory.View()))
      ensures r.Ok? ==>
                r.value == AllRewritten(Plan(Input(old(cache), files), old(memory.View()), false).works,
                                        CollapsedIds(old(cache), files))
    {
      var input := CollectNamed(cache, files);
      if input.Err? { return Err(input.error); }
      var names := NamesOf(files);
      var others := CollectOthers(cache, names);
      RecordingConserves(cache, files, memory.View());
      var planned := PlanOperation(input.value + others, memory, false);
      var works := WriteCollapsed(planned, CollapsedIds(cache, files));
      RewrittenMerges(cache, names, planned, CollapsedIds(cache, files));
      TakePlan(names, works);
      r := Ok(works);
    }

    /** Takes the planned text and anchors of every file in the plan. */
    method TakePlan(names: set<string>, works: seq<Work>)
      modifies this
      ensures cache == MergeAll(old(cache), names, works)
    {
      for k := 0 to |works|
        invariant MergeAll(cache, names, works[k..]) == MergeAll(old(cache), names, works)
      {
        assert works[k..][1..] == works[k + 1..];
        cache := Merge(cache, names, works[k]);
      }
    }
  }

  /** The named files as they are cached, or the first that was never loaded. */
  method CollectNamed(cache: seq<Cached>, files: seq<Named>) returns (r: Result<seq<PlanFile>, string>)
    ensures r.Ok? <==> forall f <- files :: FileIndex(cache, f.fileId).Some?
    ensures r.Ok? ==> r.value == NamedInputs(cache, files)
  {
    var input: seq<PlanFile> := [];
    for i := 0 to |files|
      invariant forall f <- files[..i] :: FileIndex(cache, f.fileId).Some?
      invariant input == NamedInputs(cache, files[..i])
    {
      var entry := FileIndex(cache, files[i].fileId);
      if entry.None? {
        assert files[i] in files;
        return Err(files[i].fileId);
      }
      input := input + [NamedInput(cache[entry.value], files[i])];
      assert files[..i + 1] == files[..i] + [files[i]];
    }
    assert files[..|files|] == files;
    r := Ok(input);
  }

  /** Marks the anchors of every planned file that arrived collapsed as written. */
  method WriteCollapsed(works: seq<Work>, ids: set<string>) returns (r: seq<Work>)
    ensures r == AllRewritten(works, ids)
  {
    r := [];
    for i := 0 to |works|
      invariant r == AllRewritten(works[..i], ids)
    {
      var ps: seq<Planned> := [];
      for k := 0 to |works[i].anchors|
        invariant ps == Rewritten(works[i].anchors[..k], ids)
      {
        var p := works[i].anchors[k];
        ps := ps + [if p.a.id in ids then p.(isSet := true) else p];
      }
      assert works[i].anchors[..|works[i].anchors|] == works[i].anchors;
      r := r + [works[i].(anchors := ps)];
    }
    assert works[..|works|] == works;
  }

  /** The other cached files, walked in the order they were loaded. */
  method CollectOthers(cache: seq<Cached>, names: set<string>) returns (others: seq<PlanFile>)
    ensures others == Others(cache, names)
  {
    others := [];
    for i := 0 to |cache|
      invariant others + Others(cache[i..], names) == Others(cache, names)
    {
      assert cache[i..][1..] == cache[i + 1..];
      if cache[i].fileId in names { continue; }
      var anchors := Split(cache[i].anchors, true);
      if |anchors| > 0 { others := others + [PlanFile(cache[i].fileId, cache[i].text, anchors, [], [])]; }
    }
  }
}
