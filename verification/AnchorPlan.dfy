/** The planner as a whole: phase 1 on every file, then phase 2. */
module AnchorPlan {
  import opened Utf16
  import opened SessionMemory
  import opened AnchorEdits
  import opened AnchorRepin
  import opened AnchorRepinRuns

  /** A file as a caller names it for an operation. */
  datatype PlanFile = PlanFile(fileId: string, before: Text, anchors: seq<Anchor>, edits: seq<Edit>,
                               fragments: seq<FragmentRange>)

  /** What the planner asks of a file: spans and edits inside its text. */
  predicate FileOk(f: PlanFile) {
    && Valid(|f.before|, Running(f.edits, 0))
    && forall a <- f.anchors :: Attached(a) ==> InText(f.before, a)
  }

  function FreshAll(anchors: seq<Anchor>): (r: seq<Planned>)
    ensures |r| == |anchors| && forall i :: 0 <= i < |r| ==> r[i] == Fresh(anchors[i])
  {
    seq(|anchors|, i requires 0 <= i < |anchors| => Fresh(anchors[i]))
  }

  function Start(f: PlanFile): FileState {
    FileState(f.before, FreshAll(f.anchors), [])
  }

  function Settled(p: Planned): Planned {
    if p.moved && Attached(p.a) then p.(isSet := true) else p
  }

  function SettledAll(ps: seq<Planned>): (r: seq<Planned>)
    ensures |r| == |ps| && forall i :: 0 <= i < |r| ==> r[i] == Settled(ps[i])
  {
    seq(|ps|, i requires 0 <= i < |ps| => Settled(ps[i]))
  }

  function Phase1(f: PlanFile, foreign: bool): FileState
    requires FileOk(f)
  {
    RunFile(Start(f), Running(f.edits, 0), Context(0, f.fragments, foreign))
  }

  function WorkOf(f: PlanFile, foreign: bool): Work
    requires FileOk(f)
  {
    var st := Phase1(f, foreign);
    Work(f.fileId, st.cur, SettledAll(st.anchors), st.inserts)
  }

  function WorksOf(files: seq<PlanFile>, foreign: bool): (r: seq<Work>)
    requires forall f <- files :: FileOk(f)
    ensures |r| == |files| && forall i :: 0 <= i < |r| ==> r[i] == WorkOf(files[i], foreign)
  {
    seq(|files|, i requires 0 <= i < |files| => WorkOf(files[i], foreign))
  }

  function FileMemory(m: Memory, f: PlanFile, foreign: bool): Memory
    requires FileOk(f)
  {
    RunMemory(m, Start(f), Running(f.edits, 0), Context(0, f.fragments, foreign))
  }

  function Memorised(m: Memory, files: seq<PlanFile>, foreign: bool): Memory
    requires forall f <- files :: FileOk(f)
    decreases files
  {
    if files == [] then m
    else Memorised(FileMemory(m, files[0], foreign), files[1..], foreign)
  }

  function Plan(files: seq<PlanFile>, m: Memory, foreign: bool): Repin
    requires forall f <- files :: FileOk(f)
  {
    var r := Repin(WorksOf(files, foreign), Memorised(m, files, foreign), []);
    if foreign then r else RepinFrom(r, 0)
  }

  // ------------------------------------------------------- phase 1 of every file

  lemma {:induction false} MemorisedSound(m: Memory, files: seq<PlanFile>, foreign: bool)
    requires Sound(m) && forall f <- files :: FileOk(f)
    ensures Sound(Memorised(m, files, foreign))
    decreases files
  {
    if files != [] {
      var f := files[0];
      assert f in files;
      assert Placed(f.before, FreshAll(f.anchors));
      RunMemorySound(m, Start(f), Running(f.edits, 0), Context(0, f.fragments, foreign));
      MemorisedSound(FileMemory(m, f, foreign), files[1..], foreign);
    }
  }

  lemma {:induction false} RunKeepsIds(st: FileState, cuts: seq<Cut>, ctx: Context)
    requires Valid(|st.cur|, cuts)
    ensures |RunFile(st, cuts, ctx).anchors| == |st.anchors|
    ensures forall i :: 0 <= i < |st.anchors| ==> RunFile(st, cuts, ctx).anchors[i].a.id == st.anchors[i].a.id
    decreases cuts
  {
    if cuts != [] { RunKeepsIds(StepFile(st, cuts[0], ctx), cuts[1..], ctx.(edit := ctx.edit + 1)); }
  }

  lemma {:induction false} SameIdsSameCount(ps: seq<Planned>, qs: seq<Planned>, id: string)
    requires |ps| == |qs| && forall i :: 0 <= i < |ps| ==> ps[i].a.id == qs[i].a.id
    ensures Count(ps, id) == Count(qs, id)
  {
    if ps != [] { SameIdsSameCount(ps[1..], qs[1..], id); }
  }

  function InputCount(files: seq<PlanFile>, id: string): nat {
    if files == [] then 0 else Count(FreshAll(files[0].anchors), id) + InputCount(files[1..], id)
  }

  /** Phase 1 leaves every comment in its file. */
  lemma {:induction false} WorkCount(f: PlanFile, foreign: bool, id: string)
    requires FileOk(f)
    ensures Count(WorkOf(f, foreign).anchors, id) == Count(FreshAll(f.anchors), id)
  {
    RunKeepsIds(Start(f), Running(f.edits, 0), Context(0, f.fragments, foreign));
    SameIdsSameCount(WorkOf(f, foreign).anchors, FreshAll(f.anchors), id);
  }

  lemma {:induction false} SettledPlaced(text: Text, ps: seq<Planned>)
    requires Placed(text, ps)
    ensures Placed(text, SettledAll(ps))
  {
    forall p <- SettledAll(ps) | Attached(p.a)
      ensures InText(text, p.a)
    {
      var i :| 0 <= i < |ps| && SettledAll(ps)[i] == p;
      assert ps[i] in ps;
    }
  }

  lemma {:induction false} WorkPlaced(f: PlanFile, foreign: bool)
    requires FileOk(f)
    ensures Placed(WorkOf(f, foreign).after, WorkOf(f, foreign).anchors)
  {
    RunMemorySound(Memory(0, [], 0), Start(f), Running(f.edits, 0), Context(0, f.fragments, foreign));
    SettledPlaced(Phase1(f, foreign).cur, Phase1(f, foreign).anchors);
  }

  lemma {:induction false} WorksCount(files: seq<PlanFile>, foreign: bool, id: string)
    requires forall f <- files :: FileOk(f)
    ensures CountAll(WorksOf(files, foreign), id) == InputCount(files, id)
  {
    if files != [] {
      WorkCount(files[0], foreign, id);
      assert WorksOf(files, foreign)[1..] == WorksOf(files[1..], foreign);
      WorksCount(files[1..], foreign, id);
    }
  }

  // ------------------------------------------------------- the whole operation

  ghost predicate UniqueInput(files: seq<PlanFile>) {
    forall id :: InputCount(files, id) <= 1
  }

  lemma {:induction false} WorksUnique(files: seq<PlanFile>, foreign: bool)
    requires (forall f <- files :: FileOk(f)) && UniqueInput(files)
    ensures Unique(WorksOf(files, foreign))
  {
    forall id ensures CountAll(WorksOf(files, foreign), id) <= 1 { WorksCount(files, foreign, id); }
  }

  /**
   * Every operation, over any files and any sound memory: phase 2 is sound
   * with respect to phase 1, the spans its pieces are put on included; a
   * remembered text is forgotten exactly when a piece of it was put back; and
   * each comment id leaves as often as it came.
   */
  lemma {:induction false} PlanIsSound(files: seq<PlanFile>, m: Memory, foreign: bool)
    requires (forall f <- files :: FileOk(f)) && UniqueInput(files) && Sound(m)
    ensures var r := Plan(files, m, foreign);
            && Sane(WorksOf(files, foreign), Memorised(m, files, foreign), r) && SpansApart(WorksOf(files, foreign), r.log)
            && LeavesExactly(Memorised(m, files, foreign), r)
            && forall id :: CountAll(r.works, id) == InputCount(files, id)
  {
    var works, m1 := WorksOf(files, foreign), Memorised(m, files, foreign);
    MemorisedSound(m, files, foreign);
    forall id ensures CountAll(works, id) == InputCount(files, id) { WorksCount(files, foreign, id); }
    forall i | 0 <= i < |works|
      ensures Placed(works[i].after, works[i].anchors)
    {
      WorkPlaced(files[i], foreign);
    }
    RepinningIsSound(works, m1);
    EntriesLeaveExactly(works, m1);
    if foreign { NothingRepinned(works, m1); }
    var r := Plan(files, m, foreign);
    forall id ensures CountAll(r.works, id) == InputCount(files, id) {
      assert CountAll(r.works, id) == CountAll(works, id);
    }
  }

  lemma {:induction false} NothingRepinned(works: seq<Work>, m: Memory)
    requires Unique(works) && InPlace(works) && Sound(m)
    ensures Sane(works, m, Repin(works, m, []))
  {
    forall j, p0, i, p | Has(works, j, p0) && Has(works, i, p) && p0.a.id == p.a.id
      ensures Explained(j, p0, i, p, [])
    {
      OnePlace(works, j, i, p0, p);
    }
  }

  // ------------------------------------------------------- a whole session

  /** What a session does with its memory. */
  datatype Step = Operate(files: seq<PlanFile>, foreign: bool) | AttachByHand(id: string)

  ghost predicate StepOk(s: Step) {
    s.Operate? ==> (forall f <- s.files :: FileOk(f)) && UniqueInput(s.files)
  }

  ghost function AfterStep(m: Memory, s: Step): Memory
    requires StepOk(s)
  {
    match s
    case Operate(files, foreign) => Plan(files, m, foreign).memory
    case AttachByHand(id) => Forgot(m, id)
  }

  ghost function Session(m: Memory, steps: seq<Step>): Memory
    requires forall s <- steps :: StepOk(s)
    decreases steps
  {
    if steps == [] then m else Session(AfterStep(m, steps[0]), steps[1..])
  }

  /** The memory holds only fitting pieces after every session, from an empty start. */
  lemma {:induction false} SessionsKeepMemorySound(m: Memory, steps: seq<Step>)
    requires Sound(m) && forall s <- steps :: StepOk(s)
    ensures Sound(Session(m, steps))
    decreases steps
  {
    if steps != [] {
      var s := steps[0];
      assert s in steps;
      match s {
        case Operate(files, foreign) => PlanIsSound(files, m, foreign);
        case AttachByHand(id) => ForgetSound(m, id);
      }
      SessionsKeepMemorySound(AfterStep(m, s), steps[1..]);
    }
  }
}
