/**
 * What a push keeps in every run: nothing the server accepted is lost and
 * nothing is invented, exactly as long as no check saves an old copy.
 */
module PushSafety {
  import opened Common
  import opened SyncFiles
  import opened PushPlan
  import opened SyncState
  import opened SyncProtocol

  /** The effects of pushes, in their order. */
  function Replay(files: Records, pushes: seq<Pending>): Records {
    if pushes == [] then files else Effects(Replay(files, pushes[..|pushes| - 1]), pushes[|pushes| - 1])
  }

  /** The saved request, when the server has already accepted it. */
  function InDoubt(pending: Option<Pending>, server: Server): seq<Pending> {
    if pending.Some? && pending.value.key in server.receipts then [pending.value] else []
  }

  /** Each change the server accepted is settled, or is exactly the saved pending request. */
  predicate Accounted(settled: seq<Pending>, pending: Option<Pending>, server: Server) {
    server.accepted == settled + InDoubt(pending, server)
  }

  /** The baseline is the last pull's with the saved effects of exactly the changes settled since. */
  predicate BaselineOk(files: Records, base: Records, settled: seq<Pending>, mark: nat) {
    mark <= |settled| && files == Replay(base, settled[mark..])
  }

  predicate HasKey(pushes: seq<Pending>, key: nat) {
    exists p <- pushes :: p.key == key
  }

  /** Receipts are kept for exactly the accepted keys. */
  ghost predicate ReceiptsOk(server: Server) {
    forall k :: k in server.receipts <==> HasKey(server.accepted, k)
  }

  predicate AllBelow(pushes: seq<Pending>, key: nat) {
    forall p <- pushes :: p.key < key
  }

  /** Keys never repeat: each push took a later one. */
  predicate KeysOk(settled: seq<Pending>, pending: Option<Pending>, nextKey: nat) {
    && Ascending(settled)
    && AllBelow(settled, if pending.Some? then pending.value.key else nextKey)
    && (pending.Some? ==> pending.value.key < nextKey)
  }

  predicate Ascending(pushes: seq<Pending>) {
    forall i, j :: 0 <= i < j < |pushes| ==> pushes[i].key < pushes[j].key
  }

  predicate Answers(s: Server, key: nat, a: Answer) {
    match a
    case Accepted(version) => key in s.receipts && s.receipts[key] == version
    case Refused => key !in s.receipts
  }

  /** A request is in flight only while it is saved, and an answer is about it. */
  predicate WireOk(pending: Option<Pending>, server: Server, post: Option<Pending>, reply: Option<Answer>) {
    && (post.Some? ==> pending == post)
    && (reply.Some? ==> post.None? && pending.Some? && Answers(server, pending.value.key, reply.value))
  }

  /** Two copies of the state hold the same baseline and the same pending push. */
  predicate Current(copy: State, saved: State) {
    copy.files == saved.files && copy.pending == saved.pending
  }

  /** The copy a pull or push works on is current, and a pull has no pending push. */
  predicate MemoryOk(process: Process, client: State) {
    match process
    case Idle => true
    case Loaded(state) => Current(state, client)
    case Posting(state, p) => Current(state, client) && state.pending == Some(p)
    case Pulling(state, _) => Current(state, client) && state.pending.None?
    case PullRead(state, _, _, _) => Current(state, client) && state.pending.None?
  }

  ghost predicate PushOk(w: World) {
    && Accounted(w.settled, w.client.pending, w.server) && BaselineOk(w.client.files, w.base, w.settled, w.mark)
    && w.client.pending == w.open
    && ReceiptsOk(w.server) && KeysOk(w.settled, w.client.pending, w.nextKey)
    && WireOk(w.client.pending, w.server, w.post, w.reply) && MemoryOk(w.process, w.client)
  }

  lemma {:induction false} HasKeyOne(pushes: seq<Pending>, p: Pending, k: nat)
    ensures HasKey(pushes + [p], k) <==> HasKey(pushes, k) || k == p.key
  {
    var all := pushes + [p];
    if HasKey(pushes, k) {
      var q :| q in pushes && q.key == k;
      assert q in all;
    }
    if k == p.key { assert p in all; }
  }

  lemma {:induction false} ReceiptAdded(s: Server, p: Pending, version: string)
    requires ReceiptsOk(s)
    ensures ReceiptsOk(Accept(s, p, version))
  {
    forall k ensures k in Accept(s, p, version).receipts <==> HasKey(Accept(s, p, version).accepted, k) {
      HasKeyOne(s.accepted, p, k);
    }
  }

  /** With no push in doubt, the key of the pending one was never accepted. */
  lemma {:induction false} NotYetAccepted(settled: seq<Pending>, pending: Option<Pending>, server: Server)
    requires Accounted(settled, pending, server) && InDoubt(pending, server) == []
    ensures server.accepted == settled
  {
  }

  lemma {:induction false} DeliverKeeps(cfg: Config, w: World, a: Action)
    requires PushOk(w) && a.Deliver?
    ensures PushOk(Step(cfg, w, a))
  {
    if w.post.Some? && w.post.value.key !in w.server.receipts && a.takes {
      NotYetAccepted(w.settled, w.client.pending, w.server);
      ReceiptAdded(w.server, w.post.value, a.version);
    }
  }

  lemma {:induction false} NextKeyIsFresh(w: World)
    requires PushOk(w) && w.client.pending.None?
    ensures w.nextKey !in w.server.receipts
  {
    NotYetAccepted(w.settled, w.client.pending, w.server);
    assert !HasKey(w.server.accepted, w.nextKey);
  }

  lemma {:induction false} PushSaveKeeps(w: World, a: Action)
    requires PushOk(w) && a.PushSave?
    ensures PushOk(StepPush(w, a))
  {
    if w.client.pending.None? { NextKeyIsFresh(w); }
  }

  lemma {:induction false} RetryKeeps(w: World, a: Action)
    requires PushOk(w) && (a.PushRetry? || a.Resend?)
    ensures PushOk(StepPush(w, a))
  {
  }

  lemma {:induction false} ReplayOne(files: Records, pushes: seq<Pending>, p: Pending)
    ensures Replay(files, pushes + [p]) == Effects(Replay(files, pushes), p)
  {
    assert (pushes + [p])[..|pushes|] == pushes;
  }

  lemma {:induction false} BaselineSettles(files: Records, base: Records, settled: seq<Pending>, mark: nat, p: Pending)
    requires BaselineOk(files, base, settled, mark)
    ensures BaselineOk(Effects(files, p), base, settled + [p], mark)
  {
    ReplayOne(base, settled[mark..], p);
    assert (settled + [p])[mark..] == settled[mark..] + [p];
  }

  lemma {:induction false} KeysSettle(settled: seq<Pending>, p: Pending, nextKey: nat)
    requires KeysOk(settled, Some(p), nextKey)
    ensures KeysOk(settled + [p], None, nextKey)
  {
  }

  lemma {:induction false} AcceptedKeeps(w: World, s: State, p: Pending, version: string)
    requires PushOk(w) && w.process == Posting(s, p) && w.reply == Some(Accepted(version))
    ensures PushOk(Received(w, s, p, Accepted(version)).(reply := None))
  {
    BaselineSettles(s.files, w.base, w.settled, w.mark, p);
    KeysSettle(w.settled, p, w.nextKey);
  }

  lemma {:induction false} ReceiveKeeps(w: World, a: Action)
    requires PushOk(w) && a.Receive?
    ensures PushOk(StepPush(w, a))
  {
    if w.process.Posting? && w.reply.Some? && a.saved && w.reply.value.Accepted? {
      AcceptedKeeps(w, w.process.state, w.process.pending, w.reply.value.version);
    }
  }

  lemma {:induction false} PulledBaseline(files: Records, settled: seq<Pending>)
    ensures BaselineOk(files, files, settled, |settled|)
  {
    assert settled[|settled|..] == [];
  }

  lemma {:induction false} PullKeeps(cfg: Config, w: World, a: Action)
    requires PushOk(w) && (a.PullAsk? || a.ReadProject? || a.PullFinish?)
    ensures PushOk(StepPull(cfg, w, a))
  {
    if a.PullFinish? && w.process.PullRead? && a.saved {
      var s := w.process.state;
      PulledKeeps(w, PulledState(cfg, s, w.process.found, w.process.web, a.folder));
    }
  }

  lemma {:induction false} PulledKeeps(w: World, pulled: State)
    requires PushOk(w) && w.process.PullRead? && pulled.pending == w.process.state.pending
    ensures PushOk(w.(client := pulled, process := Idle, base := pulled.files, mark := |w.settled|))
  {
    PulledBaseline(pulled.files, w.settled);
  }

  /**
   * Saving a check's copy keeps what a push keeps exactly when the copy is
   * current: the baseline and the pending push are still the saved ones.
   * Whoever holds the copy can compare it with what is saved.
   */
  lemma {:induction false} CheckSavesExactly(cfg: Config, w: World, a: Action)
    requires PushOk(w) && CheckSaves(cfg, w, a)
    ensures PushOk(Step(cfg, w, a)) <==> Current(w.checks[a.id].state, w.client)
  {
    var c := w.checks[a.id];
    CheckFinishIs(cfg, w, a);
    SavesExactly(w, CheckedState(c.state, c.head), Step(cfg, w, a));
  }

  lemma {:induction false} CheckFinishIs(cfg: Config, w: World, a: Action)
    requires CheckSaves(cfg, w, a)
    ensures Step(cfg, w, a) ==
            w.(client := CheckedState(w.checks[a.id].state, w.checks[a.id].head), checks := w.checks - {a.id})
  {
  }

  lemma {:induction false} SavesExactly(w: World, copy: State, w': World)
    requires PushOk(w) && w' == w.(client := copy, checks := w'.checks)
    ensures PushOk(w') <==> Current(copy, w.client)
  {
  }

  /** A step that saves no old copy of a check. */
  predicate CurrentAt(cfg: Config, w: World, a: Action) {
    CheckSaves(cfg, w, a) ==> Current(w.checks[a.id].state, w.client)
  }

  lemma {:induction false} CheckKeeps(cfg: Config, w: World, a: Action)
    requires PushOk(w) && CurrentAt(cfg, w, a)
    requires a.CheckLoad? || a.CheckAsk? || a.CheckFetch? || a.CheckFinish? || a.CheckStop?
    ensures PushOk(StepCheck(cfg, w, a))
  {
    if CheckSaves(cfg, w, a) {
      CheckSavesExactly(cfg, w, a);
    } else {
      OnlyChecksMove(cfg, w, a);
      OnlyChecksKeep(w, StepCheck(cfg, w, a));
    }
  }

  lemma {:induction false} OnlyChecksMove(cfg: Config, w: World, a: Action)
    requires !CheckSaves(cfg, w, a)
    requires a.CheckLoad? || a.CheckAsk? || a.CheckFetch? || a.CheckFinish? || a.CheckStop?
    ensures StepCheck(cfg, w, a) == w.(checks := StepCheck(cfg, w, a).checks)
  {
  }

  lemma {:induction false} OnlyChecksKeep(w: World, w': World)
    requires PushOk(w) && w' == w.(checks := w'.checks)
    ensures PushOk(w')
  {
  }

  lemma {:induction false} NetworkKeeps(cfg: Config, w: World, a: Action)
    requires PushOk(w) && (a.Edit? || a.Load? || a.LosePost? || a.LoseReply? || a.Stop?)
    ensures PushOk(Step(cfg, w, a))
  {
  }

  /** Every step keeps it, unless the step saves an old copy of a check. */
  lemma {:induction false} StepKeepsPushOk(cfg: Config, w: World, a: Action)
    requires PushOk(w) && CurrentAt(cfg, w, a)
    ensures PushOk(Step(cfg, w, a))
  {
    if a.Deliver? { DeliverKeeps(cfg, w, a); }
    else if a.PushSave? { PushSaveKeeps(w, a); }
    else if a.PushRetry? || a.Resend? { RetryKeeps(w, a); }
    else if a.Receive? { ReceiveKeeps(w, a); }
    else if a.PullAsk? || a.ReadProject? || a.PullFinish? { PullKeeps(cfg, w, a); }
    else if a.Edit? || a.Load? || a.LosePost? || a.LoseReply? || a.Stop? { NetworkKeeps(cfg, w, a); }
    else { CheckKeeps(cfg, w, a); }
  }

  /** No check of the run saves an old copy. */
  predicate ChecksCurrent(cfg: Config, w: World, actions: seq<Action>)
    decreases |actions|
  {
    actions == [] || (CurrentAt(cfg, w, actions[0]) && ChecksCurrent(cfg, Step(cfg, w, actions[0]), actions[1..]))
  }

  ghost predicate PushOkThroughout(cfg: Config, w: World, actions: seq<Action>)
    decreases |actions|
  {
    PushOk(w) && (actions == [] || PushOkThroughout(cfg, Step(cfg, w, actions[0]), actions[1..]))
  }

  /** A run keeps it all along exactly when no check of it saves an old copy. */
  lemma {:induction false} RunIsSafeExactly(cfg: Config, w: World, actions: seq<Action>)
    requires PushOk(w)
    ensures PushOkThroughout(cfg, w, actions) <==> ChecksCurrent(cfg, w, actions)
    decreases |actions|
  {
    if actions != [] {
      if CurrentAt(cfg, w, actions[0]) {
        StepKeepsPushOk(cfg, w, actions[0]);
        RunIsSafeExactly(cfg, Step(cfg, w, actions[0]), actions[1..]);
      } else {
        CheckSavesExactly(cfg, w, actions[0]);
      }
    }
  }

  lemma {:induction false} RunKeepsPushOk(cfg: Config, w: World, actions: seq<Action>)
    requires PushOk(w) && ChecksCurrent(cfg, w, actions)
    ensures PushOk(Run(cfg, w, actions))
    decreases |actions|
  {
    if actions != [] {
      StepKeepsPushOk(cfg, w, actions[0]);
      RunKeepsPushOk(cfg, Step(cfg, w, actions[0]), actions[1..]);
    }
  }

  lemma {:induction false} LinkedIsOk(head: Head, files: Records)
    ensures PushOk(Linked(head, files))
  {
    PulledBaseline(map[], []);
  }

  /** What the server accepted is accounted for, once, and the baseline with it. */
  predicate NothingLost(w: World) {
    && Accounted(w.settled, w.client.pending, w.server) && w.client.pending == w.open
    && BaselineOk(w.client.files, w.base, w.settled, w.mark)
    && Ascending(w.server.accepted)
  }

  /**
   * Push loses and invents nothing, in every run from a directory just linked
   * in which no check saves an old copy: what the server accepted is what is
   * settled and, at most, the saved request; an attempt stays saved until its
   * answer is; no key lands twice; and the baseline is the last pull's plus
   * the saved effects of exactly the pushes settled since.
   */
  lemma {:induction false} PushLosesAndInventsNothing(cfg: Config, head: Head, files: Records, actions: seq<Action>)
    requires ChecksCurrent(cfg, Linked(head, files), actions)
    ensures NothingLost(Run(cfg, Linked(head, files), actions))
  {
    LinkedIsOk(head, files);
    RunKeepsPushOk(cfg, Linked(head, files), actions);
  }

  // ------------------------------------------------------- a check beside a push

  /** A check runs from its load to its read, and a push is saved and accepted meanwhile. */
  function Overtaken(file: FileRecord, version: string): seq<Action> {
    Checking() + Pushing(file, version)
  }

  function Checking(): seq<Action> {
    [CheckLoad(0), CheckAsk(0, true, false), CheckFetch(0)]
  }

  function Pushing(file: FileRecord, version: string): seq<Action> {
    [Load, PushSave("me", map["paper.tex" := file], [], None, true), Deliver(true, version)]
  }

  /** The world the first steps of `Overtaken` lead to. */
  function AfterOvertaken(head: Head, file: FileRecord, version: string): World {
    var w := Linked(head, map[]);
    var p := Pending(0, "me", map["paper.tex" := file], [], None);
    var s := w.client.(pending := Some(p));
    w.(client := s, process := Posting(s, p), checks := map[0 := CheckRead(w.client, Some(head), head, map[])],
       server := Accept(w.server, p, version), reply := Some(Accepted(version)), open := Some(p), nextKey := 1)
  }

  lemma {:induction false} OvertakenRuns(cfg: Config, head: Head, file: FileRecord, version: string)
    ensures Run(cfg, Linked(head, map[]), Overtaken(file, version)) == AfterOvertaken(head, file, version)
  {
    var w := Linked(head, map[]);
    var read := w.(checks := map[0 := CheckRead(w.client, Some(head), head, map[])]);
    RunConcat(cfg, w, Checking(), Pushing(file, version));
    RunOfThree(cfg, w, CheckLoad(0), CheckAsk(0, true, false), CheckFetch(0));
    CheckingRuns(cfg, head);
    RunOfThree(cfg, read, Load, PushSave("me", map["paper.tex" := file], [], None, true), Deliver(true, version));
  }

  lemma {:induction false} CheckingRuns(cfg: Config, head: Head)
    ensures var w := Linked(head, map[]);
            Step(cfg, Step(cfg, Step(cfg, w, CheckLoad(0)), CheckAsk(0, true, false)), CheckFetch(0)) ==
            w.(checks := map[0 := CheckRead(w.client, Some(head), head, map[])])
  {
    var w := Linked(head, map[]);
    var w1 := Step(cfg, w, CheckLoad(0));
    assert w1 == w.(checks := map[0 := CheckLoaded(w.client)]);
    var w2 := Step(cfg, w1, CheckAsk(0, true, false));
    assert w2 == w.(checks := map[0 := Asked(w.client, Some(head))]);
  }

  /**
   * A check that overlaps a push loses it. Saving the copy loaded before the
   * push drops the saved request although the server accepted it; and saving
   * it after the answer takes the settled effects out of the baseline.
   */
  lemma {:induction false} StaleCheckLosesAPush(cfg: Config, head: Head, file: FileRecord, version: string)
    ensures var w := Run(cfg, Linked(head, map[]), Overtaken(file, version) + [CheckFinish(0, true)]);
            w.server.accepted != [] && w.settled == [] && w.client.pending == None
            && !Accounted(w.settled, w.client.pending, w.server)
    ensures var w := Run(cfg, Linked(head, map[]), Overtaken(file, version) + [Receive(true), CheckFinish(0, true)]);
            w.settled == w.server.accepted != [] && w.client.files == map[]
            && !BaselineOk(w.client.files, w.base, w.settled, w.mark)
  {
    var w := AfterOvertaken(head, file, version);
    OvertakenRuns(cfg, head, file, version);
    RunConcat(cfg, Linked(head, map[]), Overtaken(file, version), [CheckFinish(0, true)]);
    RunConcat(cfg, Linked(head, map[]), Overtaken(file, version), [Receive(true), CheckFinish(0, true)]);
    RunOfOne(cfg, w, CheckFinish(0, true));
    RunOfTwo(cfg, w, Receive(true), CheckFinish(0, true));
    StaleSave(cfg, w);
    StaleSave(cfg, Step(cfg, w, Receive(true)));
    BaselineHasTheFile(w.process.pending);
  }

  lemma {:induction false} StaleSave(cfg: Config, w: World)
    requires w.checks.Keys == {0} && w.checks[0].CheckRead? && w.checks[0].head.Some?
    requires w.checks[0].web == map[] && w.checks[0].state.files == map[]
    ensures Step(cfg, w, CheckFinish(0, true)).client == CheckedState(w.checks[0].state, w.checks[0].head)
    ensures Step(cfg, w, CheckFinish(0, true)) == w.(client := CheckedState(w.checks[0].state, w.checks[0].head), checks := map[])
  {
    assert Retained(cfg, map[]) == map[];
    assert CheckSaves(cfg, w, CheckFinish(0, true));
  }

  lemma {:induction false} BaselineHasTheFile(p: Pending)
    requires "paper.tex" in p.upserts && p.deleted == []
    ensures !BaselineOk(map[], map[], [p], 0)
  {
    ReplayOne(map[], [], p);
    assert [p][0..] == [] + [p];
    assert "paper.tex" in Effects(map[], p);
  }

  lemma {:induction false} RunConcat(cfg: Config, w: World, a: seq<Action>, b: seq<Action>)
    ensures Run(cfg, w, a + b) == Run(cfg, Run(cfg, w, a), b)
    decreases |a|
  {
    if a == [] {
      assert a + b == b;
    } else {
      assert (a + b)[1..] == a[1..] + b;
      RunConcat(cfg, Step(cfg, w, a[0]), a[1..], b);
    }
  }

  lemma {:induction false} RunOfOne(cfg: Config, w: World, a: Action)
    ensures Run(cfg, w, [a]) == Step(cfg, w, a)
  {
    assert [a][1..] == [];
  }

  lemma {:induction false} RunOfTwo(cfg: Config, w: World, a: Action, b: Action)
    ensures Run(cfg, w, [a, b]) == Step(cfg, Step(cfg, w, a), b)
  {
    assert [a, b][1..] == [b];
    RunOfOne(cfg, Step(cfg, w, a), b);
  }

  lemma {:induction false} RunOfThree(cfg: Config, w: World, a: Action, b: Action, c: Action)
    ensures Run(cfg, w, [a, b, c]) == Step(cfg, Step(cfg, Step(cfg, w, a), b), c)
  {
    assert [a, b, c][1..] == [b, c];
    RunOfTwo(cfg, Step(cfg, w, a), b, c);
  }

  // ------------------------------------------------------- under one claim

  /** A check that holds the claim pulls and pushes hold: neither starts while the other runs. */
  predicate Claimed(w: World, a: Action) {
    && (a.Load? ==> w.checks == map[])
    && (a.CheckLoad? ==> w.process.Idle?)
  }

  predicate AllClaimed(cfg: Config, w: World, actions: seq<Action>)
    decreases |actions|
  {
    actions == [] || (Claimed(w, actions[0]) && AllClaimed(cfg, Step(cfg, w, actions[0]), actions[1..]))
  }

  /** While checks run nothing else does, and nothing was saved since they loaded but their own heads. */
  predicate ClaimOk(w: World) {
    && (w.checks != map[] ==> w.process.Idle?)
    && forall id <- w.checks :: Current(w.checks[id].state, w.client)
  }

  lemma {:induction false} ClaimKept(cfg: Config, w: World, a: Action)
    requires ClaimOk(w) && Claimed(w, a)
    ensures ClaimOk(Step(cfg, w, a)) && CurrentAt(cfg, w, a)
  {
    if a.CheckFinish? || a.CheckStop? || a.CheckAsk? || a.CheckFetch? || a.CheckLoad? {
      ClaimKeptByChecks(cfg, w, a);
    } else if w.checks != map[] {
      ClaimKeptBesideChecks(cfg, w, a);
    }
  }

  lemma {:induction false} ClaimKeptByChecks(cfg: Config, w: World, a: Action)
    requires ClaimOk(w) && Claimed(w, a)
    requires a.CheckLoad? || a.CheckAsk? || a.CheckFetch? || a.CheckFinish? || a.CheckStop?
    ensures ClaimOk(StepCheck(cfg, w, a)) && CurrentAt(cfg, w, a)
  {
    assert w.checks != map[] <==> exists id :: id in w.checks;
  }

  lemma {:induction false} ClaimKeptBesideChecks(cfg: Config, w: World, a: Action)
    requires ClaimOk(w) && Claimed(w, a) && w.checks != map[]
    requires !(a.CheckLoad? || a.CheckAsk? || a.CheckFetch? || a.CheckFinish? || a.CheckStop?)
    ensures ClaimOk(Step(cfg, w, a))
  {
  }

  lemma {:induction false} ClaimedRunsAreCurrent(cfg: Config, w: World, actions: seq<Action>)
    requires ClaimOk(w) && AllClaimed(cfg, w, actions)
    ensures ChecksCurrent(cfg, w, actions)
    decreases |actions|
  {
    if actions != [] {
      ClaimKept(cfg, w, actions[0]);
      ClaimedRunsAreCurrent(cfg, Step(cfg, w, actions[0]), actions[1..]);
    }
  }

  /** If checks took the claim, a push would lose and invent nothing in every run. */
  lemma {:induction false} ClaimedChecksLoseNothing(cfg: Config, head: Head, files: Records, actions: seq<Action>)
    requires AllClaimed(cfg, Linked(head, files), actions)
    ensures NothingLost(Run(cfg, Linked(head, files), actions))
  {
    ClaimedRunsAreCurrent(cfg, Linked(head, files), actions);
    PushLosesAndInventsNothing(cfg, head, files, actions);
  }

  // ------------------------------------------------------- what moves the baseline

  /**
   * While a push is pending the baseline moves only by settling it: a pull
   * leaves it where it was, a current check too, and a refusal clears the
   * attempt and nothing else.
   */
  lemma {:induction false} PendingHoldsTheBaseline(cfg: Config, w: World, a: Action)
    requires PushOk(w) && w.client.pending.Some? && CurrentAt(cfg, w, a)
    ensures var p, w' := w.client.pending.value, Step(cfg, w, a);
            if w'.client.pending == Some(p) then w'.client.files == w.client.files && (w'.client == w.client || a.CheckFinish?)
            else a == Receive(true) && w.process.Posting? && w.reply.Some?
                 && w'.client == AfterAnswer(w.process.state, p, w.reply.value)
                 && (w.reply.value.Accepted? <==> p in w.server.accepted)
                 && (w.reply.value.Refused? ==> w'.client == w.process.state.(pending := None)
                                                && w'.client.files == w.client.files)
  {
    KeyTellsAccepted(w);
  }

  /** The server changes its files only for an edit there or a key it never saw, and a key is never accepted twice. */
  lemma {:induction false} ServerLandsOnce(cfg: Config, w: World, a: Action)
    requires PushOk(w)
    ensures var w' := Step(cfg, w, a);
            || w'.server == w.server
            || (a.Edit? && w'.server.accepted == w.server.accepted && w'.server.receipts == w.server.receipts)
            || (&& w.client.pending.Some? && w.client.pending.value !in w.server.accepted
                && w'.server.accepted == w.server.accepted + [w.client.pending.value]
                && w'.server.files == Effects(w.server.files, w.client.pending.value))
  {
    if a.Deliver? { DeliverLandsOnce(cfg, w, a); } else { ServerStands(cfg, w, a); }
  }

  lemma {:induction false} ServerStands(cfg: Config, w: World, a: Action)
    requires !a.Deliver?
    ensures var w' := Step(cfg, w, a);
            if a.Edit? then w'.server.accepted == w.server.accepted && w'.server.receipts == w.server.receipts
            else w'.server == w.server
  {
  }

  lemma {:induction false} DeliverLandsOnce(cfg: Config, w: World, a: Action)
    requires PushOk(w) && a.Deliver?
    ensures var w' := Step(cfg, w, a);
            || w'.server == w.server
            || (&& w.client.pending.Some? && w.client.pending.value !in w.server.accepted
                && w'.server.accepted == w.server.accepted + [w.client.pending.value]
                && w'.server.files == Effects(w.server.files, w.client.pending.value))
  {
    if w.post.Some? { KeyTellsAccepted(w); }
  }

  lemma {:induction false} KeyTellsAccepted(w: World)
    requires PushOk(w) && w.client.pending.Some?
    ensures w.client.pending.value in w.server.accepted <==> w.client.pending.value.key in w.server.receipts
  {
    var p := w.client.pending.value;
    assert p in w.settled ==> AllBelow(w.settled, p.key);
  }

  // ------------------------------------------------------- accepting is making the change

  /** The records of what a project holds. */
  function RecordsOf(digest: Digest, s: Project): Records {
    map p | p in s.texts.Keys + s.assets.Keys ::
      if p in s.texts then FileRecord(Text, digest(s.texts[p])) else FileRecord(Asset, s.assets[p])
  }

  function RecordOfContent(digest: Digest, c: Option<Content>): Option<FileRecord> {
    match c
    case None => None
    case Some(TextContent(text)) => Some(FileRecord(Text, digest(text)))
    case Some(AssetContent(sha)) => Some(FileRecord(Asset, sha))
  }

  lemma {:induction false} RecordOfPath(digest: Digest, s: Project, p: Path)
    requires ProjectOk(s)
    ensures RecordIn(RecordsOf(digest, s), p) == RecordOfContent(digest, ContentAt(s, p))
  {
  }

  /** What settlement records at a path is what the scan holds there, if the push touches it. */
  lemma {:induction false} SettledPath(digest: Digest, w: Push, files: Records, p: Path)
    requires Ready(digest, w)
    ensures RecordIn(SettledRecords(files, Upserts(w), w.changes.deleted), p) ==
            if Touched(w, p) then RecordOfContent(digest, ScanContent(w.scan, p)) else RecordIn(files, p)
  {
    UpsertPath(digest, w, p);
    assert p in w.changes.deleted <==> IsDeleted(w.recorded, w.scan, p);
    SettledAt(files, Upserts(w), w.changes.deleted, p);
  }

  lemma {:induction false} SettledAt(files: Records, upserts: Records, deleted: seq<Path>, p: Path)
    ensures RecordIn(SettledRecords(files, upserts, deleted), p) ==
            if p in deleted then None else if p in upserts then Some(upserts[p]) else RecordIn(files, p)
  {
  }

  lemma {:induction false} UpsertPath(digest: Digest, w: Push, p: Path)
    requires Ready(digest, w)
    ensures p in Upserts(w) <==> p in w.changes.added || p in w.changes.changed
    ensures p in Upserts(w) ==> p in w.scan.files && Some(Upserts(w)[p]) == RecordOfContent(digest, ScanContent(w.scan, p))
  {
    assert p in w.changes.added <==> IsAdded(w.recorded, w.scan, p);
    assert p in w.changes.changed <==> IsChanged(w.recorded, w.scan, p);
  }

  lemma {:induction false} LandedPath(digest: Digest, w: Push, plan: Plan, s: Project, s': Project, p: Path)
    requires Ready(digest, w) && PlanFor(digest, w, plan) && ProjectOk(s) && Accepts(digest, s, plan) && Makes(s, plan, s')
    ensures RecordIn(RecordsOf(digest, s'), p) ==
            RecordIn(SettledRecords(RecordsOf(digest, s), Upserts(w), w.changes.deleted), p)
  {
    PushMeansTheFolder(digest, w, plan, s, s', p);
    RecordOfPath(digest, s, p);
    RecordOfPath(digest, s', p);
    SettledPath(digest, w, RecordsOf(digest, s), p);
  }

  lemma {:induction false} SameRecords(a: Records, b: Records)
    requires forall p :: RecordIn(a, p) == RecordIn(b, p)
    ensures a == b
  {
    forall p ensures p in a <==> p in b { assert RecordIn(a, p) == RecordIn(b, p); }
    assert a.Keys == b.Keys;
    forall p | p in a ensures a[p] == b[p] { assert RecordIn(a, p) == RecordIn(b, p); }
  }

  /**
   * Landing the request is having the saved effects: when the project makes
   * an accepted plan, its records become the ones settlement applies.
   */
  lemma {:induction false} LandingIsTheSavedEffects(digest: Digest, w: Push, plan: Plan, s: Project, s': Project)
    requires Ready(digest, w) && PlanFor(digest, w, plan) && ProjectOk(s) && Accepts(digest, s, plan) && Makes(s, plan, s')
    ensures RecordsOf(digest, s') == SettledRecords(RecordsOf(digest, s), Upserts(w), w.changes.deleted)
  {
    forall p
      ensures RecordIn(RecordsOf(digest, s'), p) ==
              RecordIn(SettledRecords(RecordsOf(digest, s), Upserts(w), w.changes.deleted), p)
    {
      LandedPath(digest, w, plan, s, s', p);
    }
    SameRecords(RecordsOf(digest, s'), SettledRecords(RecordsOf(digest, s), Upserts(w), w.changes.deleted));
  }

  /** So the protocol's server holds after `Accept` what the real one holds after making the change. */
  lemma {:induction false} AcceptMakesTheChange(digest: Digest, w: Push, plan: Plan, s: Project, s': Project,
                                                server: Server, p: Pending, version: string)
    requires Ready(digest, w) && PlanFor(digest, w, plan) && ProjectOk(s) && Accepts(digest, s, plan) && Makes(s, plan, s')
    requires server.files == RecordsOf(digest, s) && p.upserts == Upserts(w) && p.deleted == w.changes.deleted
    ensures Accept(server, p, version).files == RecordsOf(digest, s')
  {
    LandingIsTheSavedEffects(digest, w, plan, s, s');
  }

  // ------------------------------------------------------- a retry settles

  /** A post is handled, and its answer arrives or does not. */
  function Answered(w: World, s: State, p: Pending, takes: bool, version: string, heard: bool): World {
    var (server, answer) := Handle(w.server, p, takes, version);
    if heard then Received(w, s, p, answer).(server := server, post := None, reply := None)
    else w.(server := server, process := Idle, post := None, reply := Some(answer))
  }

  function Hearing(heard: bool): Action {
    if heard then Receive(true) else Stop
  }

  lemma {:induction false} PostedIsAnswered(cfg: Config, w: World, takes: bool, version: string, heard: bool)
    requires w.process.Posting? && w.post == Some(w.process.pending)
    ensures Step(cfg, Step(cfg, w, Deliver(takes, version)), Hearing(heard)) ==
            Answered(w, w.process.state, w.process.pending, takes, version, heard)
  {
  }

  /** Loading the state, one step of a push, and the answer to its post. */
  function Posts(a: Action, takes: bool, version: string, heard: bool): seq<Action> {
    [Load, a] + [Deliver(takes, version), Hearing(heard)]
  }

  lemma {:induction false} PostsRun(cfg: Config, w: World, a: Action, takes: bool, version: string, heard: bool)
    requires w.process.Idle?
    ensures Run(cfg, w, Posts(a, takes, version, heard)) ==
            Step(cfg, Step(cfg, Step(cfg, w.(process := Loaded(w.client)), a), Deliver(takes, version)), Hearing(heard))
  {
    RunConcat(cfg, w, [Load, a], [Deliver(takes, version), Hearing(heard)]);
    RunOfTwo(cfg, w, Load, a);
    RunOfTwo(cfg, Step(cfg, w.(process := Loaded(w.client)), a), Deliver(takes, version), Hearing(heard));
  }

  lemma {:induction false} RetryRun(cfg: Config, w: World, p: Pending, takes: bool, version: string, heard: bool)
    requires w.process.Idle? && w.client.pending == Some(p)
    ensures Run(cfg, w, Posts(PushRetry(p.actor), takes, version, heard)) == Answered(w, w.client, p, takes, version, heard)
  {
    PostsRun(cfg, w, PushRetry(p.actor), takes, version, heard);
    PostedIsAnswered(cfg, StepPush(w.(process := Loaded(w.client)), PushRetry(p.actor)), takes, version, heard);
  }

  /**
   * A retry settles: with a push pending, posting it again by the same actor
   * and hearing the answer clears it. A change that had landed is settled by
   * its first receipt and lands no second time; one that had not is settled
   * or cleared as the server now says.
   */
  lemma {:induction false} RetrySettles(cfg: Config, w: World, p: Pending, takes: bool, version: string)
    requires PushOk(w) && w.process.Idle? && w.client.pending == Some(p)
    ensures var w' := Run(cfg, w, Posts(PushRetry(p.actor), takes, version, true));
            && w'.client.pending == None && w'.server.accepted == w'.settled
            && if p in w.server.accepted then
                 w'.server == w.server && p.key in w.server.receipts
                 && w'.client == SettledState(w.client, p, w.server.receipts[p.key])
               else if takes then
                 w'.server.accepted == w.server.accepted + [p] && w'.client == SettledState(w.client, p, version)
               else
                 w'.server == w.server && w'.client == w.client.(pending := None)
  {
    RetryRun(cfg, w, p, takes, version, true);
    KeyTellsAccepted(w);
    if p.key !in w.server.receipts { NotYetAccepted(w.settled, w.client.pending, w.server); }
  }

  // ------------------------------------------------------- a call of push is a run

  lemma {:induction false} SendRun(cfg: Config, w: World, a: Action, takes: bool, version: string, heard: bool)
    requires w.process.Idle? && w.client.pending.None? && a.PushSave? && a.saved
    ensures var sent := StepPush(w.(process := Loaded(w.client)), a);
            Run(cfg, w, Posts(a, takes, version, heard)) ==
            Answered(sent, sent.client, NewPending(w, a), takes, version, heard)
  {
    PostsRun(cfg, w, a, takes, version, heard);
    PostedIsAnswered(cfg, StepPush(w.(process := Loaded(w.client)), a), takes, version, heard);
  }

  function AnswerTo(server: Server, p: Pending, takes: bool, version: string, heard: bool): Option<Answer> {
    if heard then Some(Handle(server, p, takes, version).1) else None
  }

  /**
   * What a call of push saves is what a run of the protocol saves. First the
   * part that settles what is pending, and then the part that sends new work.
   */
  lemma {:induction false} SettlingIsARun(cfg: Config, w: World, p: Pending, takes: bool, version: string, heard: bool)
    requires w.process.Idle? && w.client.pending == Some(p)
    ensures Run(cfg, w, Posts(PushRetry(p.actor), takes, version, heard)).client
            == PushState(w.client, p.actor, AnswerTo(w.server, p, takes, version, heard), None, None)
  {
    RetryRun(cfg, w, p, takes, version, heard);
  }

  lemma {:induction false} SendingIsARun(cfg: Config, w: World, a: Action, takes: bool, version: string, heard: bool)
    requires w.process.Idle? && w.client.pending.None? && a.PushSave? && a.saved
    ensures var p := NewPending(w, a);
            Run(cfg, w, Posts(a, takes, version, heard)).client
            == PushState(w.client, a.actor, None, Some(p), AnswerTo(w.server, p, takes, version, heard))
  {
    SendRun(cfg, w, a, takes, version, heard);
  }
}
