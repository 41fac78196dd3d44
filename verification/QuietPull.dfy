/**
 * A pull or a check that finds itself quiet is right, however edits on the
 * web, pulls, pushes and checks interleave.
 */
module QuietPull {
  import opened Common
  import opened SyncFiles
  import opened Reconcile
  import opened SyncState
  import opened SyncProtocol
  import PushSafety

  /** The recorded hashes equal the project's on every admitted path that is not excluded. */
  ghost predicate Agrees(cfg: Config, recorded: Records, web: Records) {
    forall p :: Counts(cfg, p) ==> ShaIn(recorded, p) == ShaIn(web, p)
  }

  /** A head read no later than now, which tells what the project holds if it is still the head. */
  ghost predicate HeadOk(cfg: Config, head: Option<Head>, recorded: Records, server: Server) {
    head.Some? ==> head.value <= server.head && (head.value == server.head ==> Agrees(cfg, recorded, server.files))
  }

  predicate NotAfter(head: Option<Head>, limit: Head) {
    head.Some? ==> head.value <= limit
  }

  /** Files read when the head was `readAt`. */
  predicate ReadOk(readAt: Head, web: Records, server: Server) {
    readAt <= server.head && (readAt == server.head ==> web == server.files)
  }

  /** The head a copy of the state recorded, against its own records. */
  ghost predicate CopyOk(cfg: Config, s: State, server: Server) {
    HeadOk(cfg, s.webHead, s.files, server)
  }

  /** What a pull or push read so far was read in order: the state, then the head, then the files. */
  ghost predicate ProcessOk(cfg: Config, process: Process, server: Server) {
    match process
    case Idle => true
    case Loaded(s) => CopyOk(cfg, s, server)
    case Posting(s, _) => CopyOk(cfg, s, server)
    case Pulling(s, d) => CopyOk(cfg, s, server) && NotAfter(d.head, server.head)
    case PullRead(s, d, readAt, web) =>
      CopyOk(cfg, s, server) && NotAfter(d.head, readAt) && NotAfter(s.webHead, readAt) && ReadOk(readAt, web, server)
  }

  /** And so with a check. */
  ghost predicate CheckOk(cfg: Config, c: Check, server: Server) {
    match c
    case CheckLoaded(s) => CopyOk(cfg, s, server)
    case Asked(_, head) => NotAfter(head, server.head)
    case CheckRead(_, head, readAt, web) => NotAfter(head, readAt) && ReadOk(readAt, web, server)
  }

  ghost predicate ChecksOk(cfg: Config, checks: map<nat, Check>, server: Server) {
    forall id <- checks :: CheckOk(cfg, checks[id], server)
  }

  ghost predicate QuietOk(cfg: Config, w: World) {
    && CopyOk(cfg, w.client, w.server) && ProcessOk(cfg, w.process, w.server) && ChecksOk(cfg, w.checks, w.server)
  }

  /** A project that moved: every head read before is behind, so nothing it told is relied on. */
  lemma {:induction false} MovedKeeps(cfg: Config, w: World, server: Server)
    requires QuietOk(cfg, w) && server.head > w.server.head
    ensures QuietOk(cfg, w.(server := server))
  {
    forall id <- w.checks
      ensures CheckOk(cfg, w.checks[id], server)
    {
      assert CheckOk(cfg, w.checks[id], w.server);
    }
  }

  /** A path whose web version is not a conflict is recorded at the web's hash. */
  lemma {:induction false} PulledPathAgrees(cfg: Config, s: State, web: Records, f: Folder, p: Path)
    requires Counts(cfg, p)
    requires !HasConflict(SidesOf(cfg, s, web, f)) || ShaIn(s.files, p) == ShaIn(web, p)
    ensures ShaIn(RecordsAfter(SidesOf(cfg, s, web, f)), p) == ShaIn(web, p)
  {
    var sides := SidesOf(cfg, s, web, f);
    assert ShaIn(sides.web, p) == ShaIn(web, p);
    if p in AllPaths(sides) && !HasConflict(sides) { assert !Decide(sides, p).Conflict?; }
  }

  lemma {:induction false} PulledAgrees(cfg: Config, s: State, web: Records, f: Folder)
    requires !HasConflict(SidesOf(cfg, s, web, f)) || Agrees(cfg, s.files, web)
    ensures Agrees(cfg, RecordsAfter(SidesOf(cfg, s, web, f)), web)
  {
    forall p | Counts(cfg, p)
      ensures ShaIn(RecordsAfter(SidesOf(cfg, s, web, f)), p) == ShaIn(web, p)
    {
      PulledPathAgrees(cfg, s, web, f, p);
    }
  }

  lemma {:induction false} PulledStateOk(cfg: Config, s: State, d: Discovery, readAt: Head, web: Records, f: Folder,
                                         server: Server)
    requires ProcessOk(cfg, PullRead(s, d, readAt, web), server)
    ensures CopyOk(cfg, PulledState(cfg, s, d, web, f), server)
  {
    if !HasConflict(SidesOf(cfg, s, web, f)) || Agrees(cfg, s.files, web) { PulledAgrees(cfg, s, web, f); }
  }

  lemma {:induction false} PullKeepsQuiet(cfg: Config, w: World, a: Action)
    requires QuietOk(cfg, w) && (a.PullAsk? || a.ReadProject? || a.PullFinish?)
    ensures QuietOk(cfg, StepPull(cfg, w, a))
  {
    if a.PullFinish? && w.process.PullRead? && a.saved {
      PulledStateOk(cfg, w.process.state, w.process.found, w.process.readAt, w.process.web, a.folder, w.server);
    }
  }

  lemma {:induction false} PushKeepsQuiet(cfg: Config, w: World, a: Action)
    requires QuietOk(cfg, w) && (a.PushSave? || a.PushRetry? || a.Resend? || a.Receive?)
    ensures QuietOk(cfg, StepPush(w, a))
  {
  }

  lemma {:induction false} RetainedAgrees(cfg: Config, s: State, web: Records)
    requires NothingNew(cfg, s, web)
    ensures Agrees(cfg, s.files, web)
  {
  }

  /** Even an old copy of the state is saved with a head it is true of. */
  lemma {:induction false} CheckedStateOk(cfg: Config, c: Check, server: Server)
    requires CheckOk(cfg, c, server) && c.CheckRead? && ChecksOff(cfg, c.state, c.head, c.web)
    ensures CopyOk(cfg, CheckedState(c.state, c.head), server)
  {
    RetainedAgrees(cfg, c.state, c.web);
  }

  lemma {:induction false} OneMoreCheck(cfg: Config, checks: map<nat, Check>, server: Server, id: nat, c: Check)
    requires ChecksOk(cfg, checks, server) && CheckOk(cfg, c, server)
    ensures ChecksOk(cfg, checks[id := c], server)
  {
  }

  lemma {:induction false} CheckKeepsQuiet(cfg: Config, w: World, a: Action)
    requires QuietOk(cfg, w)
    requires a.CheckLoad? || a.CheckAsk? || a.CheckFetch? || a.CheckFinish? || a.CheckStop?
    ensures QuietOk(cfg, StepCheck(cfg, w, a))
  {
    if !a.CheckLoad? && a.id in w.checks { assert CheckOk(cfg, w.checks[a.id], w.server); }
    if CheckSaves(cfg, w, a) { CheckedStateOk(cfg, w.checks[a.id], w.server); }
    var w' := StepCheck(cfg, w, a);
    if a.id in w'.checks && !a.CheckStop? && !a.CheckFinish? {
      OneMoreCheck(cfg, w.checks, w.server, a.id, w'.checks[a.id]);
    }
  }

  /** Every step of every call keeps it, checks that save an old copy included. */
  lemma {:induction false} StepKeepsQuietOk(cfg: Config, w: World, a: Action)
    requires QuietOk(cfg, w)
    ensures QuietOk(cfg, Step(cfg, w, a))
  {
    if a.PullAsk? || a.ReadProject? || a.PullFinish? { PullKeepsQuiet(cfg, w, a); }
    else if a.PushSave? || a.PushRetry? || a.Resend? || a.Receive? { PushKeepsQuiet(cfg, w, a); }
    else if a.CheckLoad? || a.CheckAsk? || a.CheckFetch? || a.CheckFinish? || a.CheckStop? { CheckKeepsQuiet(cfg, w, a); }
    else if a.Edit? || a.Deliver? {
      var w' := Step(cfg, w, a);
      if w'.server != w.server { MovedKeeps(cfg, w, w'.server); }
    }
  }

  lemma {:induction false} RunKeepsQuietOk(cfg: Config, w: World, actions: seq<Action>)
    requires QuietOk(cfg, w)
    ensures QuietOk(cfg, Run(cfg, w, actions))
    decreases |actions|
  {
    if actions != [] {
      StepKeepsQuietOk(cfg, w, actions[0]);
      RunKeepsQuietOk(cfg, Step(cfg, w, actions[0]), actions[1..]);
    }
  }

  /**
   * In every interleaving of edits on the web with pulls, pushes and checks,
   * overlapping ones included, whenever the saved head is the project's head,
   * the saved hashes are the project's.
   */
  lemma {:induction false} RecordedHeadIsTrue(cfg: Config, head: Head, files: Records, actions: seq<Action>)
    ensures var w := Run(cfg, Linked(head, files), actions);
            w.client.webHead == Some(w.server.head) ==> Agrees(cfg, w.client.files, w.server.files)
  {
    RunKeepsQuietOk(cfg, Linked(head, files), actions);
  }

  /** A pull that finds itself quiet is up to date with the project as it stood when the head was read. */
  lemma {:induction false} QuietPullIsTrue(cfg: Config, head: Head, files: Records, actions: seq<Action>, a: Action)
    requires a.PullAsk?
    ensures var w := Run(cfg, Linked(head, files), actions);
            w.process.Loaded? && w.process.state.pending.None? && IsQuiet(Found(w, a), w.process.state) ==>
              Agrees(cfg, w.process.state.files, w.server.files) && Step(cfg, w, a) == w.(process := Idle)
  {
    RunKeepsQuietOk(cfg, Linked(head, files), actions);
  }

  /**
   * A check that meets the head its copy recorded, and one that reads the
   * project and finds nothing new while the head stands, is right as well.
   */
  lemma {:induction false} QuietCheckIsTrue(cfg: Config, head: Head, files: Records, actions: seq<Action>, id: nat)
    ensures var w := Run(cfg, Linked(head, files), actions);
            id in w.checks ==>
              var c := w.checks[id];
              && (c.CheckLoaded? && c.state.webHead == Some(w.server.head) ==> Agrees(cfg, c.state.files, w.server.files))
              && (c.CheckRead? && NothingNew(cfg, c.state, c.web) && c.head == Some(w.server.head) ==>
                    Agrees(cfg, c.state.files, w.server.files))
  {
    RunKeepsQuietOk(cfg, Linked(head, files), actions);
    var w := Run(cfg, Linked(head, files), actions);
    if id in w.checks {
      var c := w.checks[id];
      assert CheckOk(cfg, c, w.server);
      if c.CheckRead? && NothingNew(cfg, c.state, c.web) { RetainedAgrees(cfg, c.state, c.web); }
    }
  }

  // ------------------------------------------------------- a pull settles

  /** A pull from its question to its save, with nothing happening in between. */
  function PullThrough(ask: Action, folder: Folder): seq<Action> {
    [ask, ReadProject, PullFinish(folder, true)]
  }

  lemma {:induction false} PullRuns(cfg: Config, w: World, ask: Action, folder: Folder)
    requires ask.PullAsk? && w.process.Loaded? && w.process.state.pending.None? && !IsQuiet(Found(w, ask), w.process.state)
    ensures var s := PulledState(cfg, w.process.state, Found(w, ask), w.server.files, folder);
            Run(cfg, w, PullThrough(ask, folder)) == w.(client := s, process := Idle, base := s.files, mark := |w.settled|)
  {
    PushSafety.RunOfThree(cfg, w, ask, ReadProject, PullFinish(folder, true));
  }

  /** An unseen named version, no base to compare with, or a head that is not the recorded one. */
  predicate HasWork(w: World, ask: Action)
    requires ask.PullAsk? && w.process.Loaded?
  {
    ask.newer || ask.fromHead || !ask.told || w.process.state.webHead != Some(w.server.head)
  }

  /**
   * A pull without conflicts brings the directory up to date, and while the
   * project stands the next one has its answer before it reads the project.
   */
  lemma {:induction false} NextPullIsQuiet(cfg: Config, w: World, ask: Action, folder: Folder, again: Action)
    requires ask.PullAsk? && ask.told && w.process.Loaded? && w.process.state.pending.None?
    requires HasWork(w, ask) && !HasConflict(SidesOf(cfg, w.process.state, w.server.files, folder))
    requires again.PullAsk? && again.told && !again.newer && !again.fromHead
    ensures var w1 := Run(cfg, w, PullThrough(ask, folder));
            && Agrees(cfg, w1.client.files, w.server.files) && w1.client.pulled == ask.sequence
            && Step(cfg, Step(cfg, w1, Load), again) == w1
  {
    PullRuns(cfg, w, ask, folder);
    PulledAgrees(cfg, w.process.state, w.server.files, folder);
  }

  /**
   * A pull that leaves a file unsettled meets the same version again: it
   * records neither the version nor the head, so asking once more with the
   * same answer reads the project again.
   */
  lemma {:induction false} ConflictIsMetAgain(cfg: Config, w: World, ask: Action, folder: Folder)
    requires ask.PullAsk? && w.process.Loaded? && w.process.state.pending.None?
    requires HasWork(w, ask) && HasConflict(SidesOf(cfg, w.process.state, w.server.files, folder))
    ensures var w1 := Run(cfg, w, PullThrough(ask, folder));
            && w1.client.pulled == w.process.state.pulled && w1.client.webHead == w.process.state.webHead
            && Step(cfg, Step(cfg, w1, Load), ask).process == Pulling(w1.client, Found(w, ask))
  {
    PullRuns(cfg, w, ask, folder);
  }

  /**
   * A check that finds the project's admitted files recorded as they are
   * records the head, and while the project stands the next one has its answer
   * before it reads the project.
   */
  lemma {:induction false} NextCheckIsCheap(cfg: Config, w: World, id: nat)
    requires id !in w.checks
    requires forall p :: RecordIn(w.client.files, p) == if cfg.admits(p) then RecordIn(w.server.files, p) else None
    ensures var w1 := Run(cfg, w, [CheckLoad(id), CheckAsk(id, true, false)] + [CheckFetch(id), CheckFinish(id, true)]);
            && w1 == w.(client := w.client.(webHead := Some(w.server.head)))
            && Run(cfg, w1, [CheckLoad(id), CheckAsk(id, true, false)]) == w1
  {
    var asking, reading := [CheckLoad(id), CheckAsk(id, true, false)], [CheckFetch(id), CheckFinish(id, true)];
    var head := Some(w.server.head);
    PushSafety.RunConcat(cfg, w, asking, reading);
    AskRuns(cfg, w, id);
    if w.client.webHead == head {
      PushSafety.RunOfTwo(cfg, w, CheckFetch(id), CheckFinish(id, true));
    } else {
      SameRecords(Retained(cfg, w.server.files), w.client.files);
      ReadRuns(cfg, w, id);
    }
    AskRuns(cfg, w.(client := w.client.(webHead := head)), id);
  }

  lemma {:induction false} SameRecords(a: Records, b: Records)
    requires forall p :: RecordIn(a, p) == RecordIn(b, p)
    ensures a == b
  {
    forall p ensures p in a <==> p in b { assert RecordIn(a, p) == RecordIn(b, p); }
    forall p | p in a ensures a[p] == b[p] { assert RecordIn(a, p) == RecordIn(b, p); }
  }

  lemma {:induction false} AskRuns(cfg: Config, w: World, id: nat)
    requires id !in w.checks
    ensures Run(cfg, w, [CheckLoad(id), CheckAsk(id, true, false)]) ==
            if w.client.webHead == Some(w.server.head) then w
            else w.(checks := w.checks[id := Asked(w.client, Some(w.server.head))])
  {
    var w1 := Step(cfg, w, CheckLoad(id));
    PushSafety.RunOfTwo(cfg, w, CheckLoad(id), CheckAsk(id, true, false));
    assert w1.checks - {id} == w.checks;
    assert w1.checks[id := Asked(w.client, Some(w.server.head))] == w.checks[id := Asked(w.client, Some(w.server.head))];
  }

  lemma {:induction false} ReadRuns(cfg: Config, w: World, id: nat)
    requires id !in w.checks && Retained(cfg, w.server.files) == w.client.files
    ensures var head := Some(w.server.head);
            Run(cfg, w.(checks := w.checks[id := Asked(w.client, head)]), [CheckFetch(id), CheckFinish(id, true)]) ==
            w.(client := w.client.(webHead := head))
  {
    var head := Some(w.server.head);
    var asked := w.(checks := w.checks[id := Asked(w.client, head)]);
    var read := Step(cfg, asked, CheckFetch(id));
    PushSafety.RunOfTwo(cfg, asked, CheckFetch(id), CheckFinish(id, true));
    assert read.checks[id] == CheckRead(w.client, head, w.server.head, w.server.files);
    assert read.checks - {id} == w.checks;
  }

  /** The rules apply to what comes in: a path they refuse, or that is excluded, is never recorded nor written. */
  lemma {:induction false} PullTakesOnlyCounted(cfg: Config, s: State, d: Discovery, web: Records, f: Folder,
                                                r: Reconciliation, p: Path)
    requires Sorts(SidesOf(cfg, s, web, f), r) && !Counts(cfg, p)
    ensures p in PulledState(cfg, s, d, web, f).files ==> p in s.files && s.files[p] == PulledState(cfg, s, d, web, f).files[p]
    ensures p in r.apply ==> p !in SidesOf(cfg, s, web, f).web
  {
    OutcomeIs(SidesOf(cfg, s, web, f), r);
    assert RecordIn(r.records, p) == RecordAfter(SidesOf(cfg, s, web, f), p);
  }
}
