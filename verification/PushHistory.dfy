/**
 * What a directory remembers of its pushes in every run: the versions it
 * pushed with their commits, the commit it stands on and the paths it ever
 * synced, as long as no check saves an old copy of the state.
 */
module PushHistory {
  import opened Common
  import opened SyncFiles
  import opened SyncState
  import opened SyncProtocol
  import opened PushSafety

  // ------------------------------------------------------- the history of settled pushes

  /** The version a push was accepted as. */
  function VersionOf(p: Pending, receipts: map<nat, string>): string {
    if p.key in receipts then receipts[p.key] else ""
  }

  /** Every settled push as the directory records it, oldest first. */
  function PushedOf(settled: seq<Pending>, receipts: map<nat, string>): seq<Pushed> {
    if settled == [] then []
    else
      var n := |settled| - 1;
      PushedOf(settled[..n], receipts) + [Pushed(VersionOf(settled[n], receipts), settled[n].commit)]
  }

  /** The commit of the last settled push that was made from one. */
  function NewestCommit(settled: seq<Pending>): Option<string> {
    if settled == [] then None
    else
      var n := |settled| - 1;
      if settled[n].commit.Some? then settled[n].commit else NewestCommit(settled[..n])
  }

  predicate Names(p: Pending, path: Path) {
    path in p.upserts || path in p.deleted
  }

  /** Every path a settled push brought or took away, or the baseline holds, was synced. */
  ghost predicate SyncedOk(s: State, settled: seq<Pending>) {
    && s.files.Keys <= s.synced
    && forall p <- settled, path :: Names(p, path) ==> path in s.synced
  }

  /** Two copies of the state differ in the head identity at most. */
  predicate SameButHead(a: State, b: State) {
    a.(webHead := None) == b.(webHead := None)
  }

  predicate CopyIsCurrent(process: Process, client: State) {
    process.Idle? || SameButHead(process.state, client)
  }

  predicate KeysReceived(settled: seq<Pending>, receipts: map<nat, string>) {
    forall p <- settled :: p.key in receipts
  }

  ghost predicate HistoryOk(w: World) {
    && w.client.pushed == LastOf(PushedOf(w.settled, w.server.receipts), MAX_PUSHED)
    && w.client.head == NewestCommit(w.settled)
    && SyncedOk(w.client, w.settled) && CopyIsCurrent(w.process, w.client) && KeysReceived(w.settled, w.server.receipts)
  }

  // ------------------------------------------------------- one more push

  lemma {:induction false} PushedOne(settled: seq<Pending>, p: Pending, receipts: map<nat, string>)
    ensures PushedOf(settled + [p], receipts) == PushedOf(settled, receipts) + [Pushed(VersionOf(p, receipts), p.commit)]
    ensures NewestCommit(settled + [p]) == if p.commit.Some? then p.commit else NewestCommit(settled)
  {
    assert (settled + [p])[..|settled|] == settled;
  }

  /** Dropping what is too old before and after adding one is dropping it after. */
  lemma {:induction false} LastOfGrows<T>(s: seq<T>, x: T, n: nat)
    requires n > 0
    ensures LastOf(LastOf(s, n) + [x], n) == LastOf(s + [x], n)
  {
  }

  /** A receipt that is added later changes no version recorded before. */
  lemma {:induction false} VersionsStand(settled: seq<Pending>, receipts: map<nat, string>, key: nat, version: string)
    requires KeysReceived(settled, receipts) && key !in receipts
    ensures PushedOf(settled, receipts[key := version]) == PushedOf(settled, receipts)
  {
    if settled != [] { VersionsStand(settled[..|settled| - 1], receipts, key, version); }
  }

  lemma {:induction false} SyncedSettles(s: State, settled: seq<Pending>, p: Pending, version: string)
    requires SyncedOk(s, settled)
    ensures SyncedOk(SettledState(s, p, version), settled + [p])
  {
    var after := SettledState(s, p, version);
    forall q <- settled + [p], path | Names(q, path)
      ensures path in after.synced
    {
      if q in settled { assert path in s.synced; }
    }
  }

  // ------------------------------------------------------- every step

  lemma {:induction false} DeliverKeepsHistory(cfg: Config, w: World, a: Action)
    requires HistoryOk(w) && a.Deliver?
    ensures HistoryOk(Step(cfg, w, a))
  {
    if w.post.Some? && w.post.value.key !in w.server.receipts {
      VersionsStand(w.settled, w.server.receipts, w.post.value.key, a.version);
    }
  }

  lemma {:induction false} AcceptedKeepsHistory(w: World, s: State, p: Pending, version: string)
    requires HistoryOk(w) && w.process == Posting(s, p) && p.key in w.server.receipts && w.server.receipts[p.key] == version
    ensures HistoryOk(Received(w, s, p, Accepted(version)))
  {
    PushedOne(w.settled, p, w.server.receipts);
    LastOfGrows(PushedOf(w.settled, w.server.receipts), Pushed(version, p.commit), MAX_PUSHED);
    SyncedCopy(w.client, s, w.settled);
    SyncedSettles(s, w.settled, p, version);
  }

  lemma {:induction false} SyncedCopy(s: State, copy: State, settled: seq<Pending>)
    requires SyncedOk(s, settled) && SameButHead(copy, s)
    ensures SyncedOk(copy, settled) && copy.pushed == s.pushed && copy.head == s.head
  {
    assert copy.(webHead := None).files == s.(webHead := None).files;
  }

  lemma {:induction false} PushKeepsHistory(w: World, a: Action)
    requires PushOk(w) && HistoryOk(w) && (a.PushSave? || a.PushRetry? || a.Resend? || a.Receive?)
    ensures HistoryOk(StepPush(w, a))
  {
    if a.Receive? {
      if w.process.Posting? && w.reply.Some? && a.saved {
        ReceiveKeepsHistory(w, w.process.state, w.process.pending, w.reply.value);
      }
    } else if !w.process.Idle? {
      SyncedCopy(w.client, w.process.state, w.settled);
    }
  }

  lemma {:induction false} ReceiveKeepsHistory(w: World, s: State, p: Pending, a: Answer)
    requires PushOk(w) && HistoryOk(w) && w.process == Posting(s, p) && w.reply == Some(a)
    ensures HistoryOk(Received(w, s, p, a))
  {
    SyncedCopy(w.client, s, w.settled);
    if a.Accepted? { AcceptedKeepsHistory(w, s, p, a.version); }
  }

  lemma {:induction false} PullKeepsHistory(cfg: Config, w: World, a: Action)
    requires HistoryOk(w) && (a.PullAsk? || a.ReadProject? || a.PullFinish?)
    ensures HistoryOk(StepPull(cfg, w, a))
  {
    if !w.process.Idle? { SyncedCopy(w.client, w.process.state, w.settled); }
  }

  /** A step that saves no old copy of a check, the head identity aside. */
  predicate FreshAt(cfg: Config, w: World, a: Action) {
    CheckSaves(cfg, w, a) ==> SameButHead(w.checks[a.id].state, w.client)
  }

  lemma {:induction false} CheckKeepsHistory(cfg: Config, w: World, a: Action)
    requires HistoryOk(w) && FreshAt(cfg, w, a)
    requires a.CheckLoad? || a.CheckAsk? || a.CheckFetch? || a.CheckFinish? || a.CheckStop?
    ensures HistoryOk(StepCheck(cfg, w, a))
  {
    if CheckSaves(cfg, w, a) { SyncedCopy(w.client, CheckedState(w.checks[a.id].state, w.checks[a.id].head), w.settled); }
  }

  lemma {:induction false} NetworkKeepsHistory(cfg: Config, w: World, a: Action)
    requires HistoryOk(w) && (a.Edit? || a.Load? || a.LosePost? || a.LoseReply? || a.Stop?)
    ensures HistoryOk(Step(cfg, w, a))
  {
  }

  lemma {:induction false} StepKeepsHistory(cfg: Config, w: World, a: Action)
    requires PushOk(w) && HistoryOk(w) && FreshAt(cfg, w, a)
    ensures HistoryOk(Step(cfg, w, a))
  {
    if a.Deliver? { DeliverKeepsHistory(cfg, w, a); }
    else if a.PushSave? || a.PushRetry? || a.Resend? || a.Receive? { PushKeepsHistory(w, a); }
    else if a.PullAsk? || a.ReadProject? || a.PullFinish? { PullKeepsHistory(cfg, w, a); }
    else if a.Edit? || a.Load? || a.LosePost? || a.LoseReply? || a.Stop? { NetworkKeepsHistory(cfg, w, a); }
    else { CheckKeepsHistory(cfg, w, a); }
  }

  // ------------------------------------------------------- every run

  /** No check of the run saves an old copy. */
  predicate ChecksFresh(cfg: Config, w: World, actions: seq<Action>)
    decreases |actions|
  {
    actions == [] || (FreshAt(cfg, w, actions[0]) && ChecksFresh(cfg, Step(cfg, w, actions[0]), actions[1..]))
  }

  lemma {:induction false} RunKeepsHistory(cfg: Config, w: World, actions: seq<Action>)
    requires PushOk(w) && HistoryOk(w) && ChecksFresh(cfg, w, actions)
    ensures PushOk(Run(cfg, w, actions)) && HistoryOk(Run(cfg, w, actions))
    decreases |actions|
  {
    if actions != [] {
      assert CurrentAt(cfg, w, actions[0]);
      StepKeepsPushOk(cfg, w, actions[0]);
      StepKeepsHistory(cfg, w, actions[0]);
      RunKeepsHistory(cfg, Step(cfg, w, actions[0]), actions[1..]);
    }
  }

  /**
   * The directory remembers its pushes: in every run from a directory just
   * linked in which no check saves an old copy, it lists the last of the
   * settled pushes, each with the version the server recorded it as and the
   * commit it was made from; it stands on the commit of the last that had one;
   * and every path a push or a pull ever brought or took away is listed as
   * synced.
   */
  lemma {:induction false} PushesAreRemembered(cfg: Config, head: Head, files: Records, actions: seq<Action>)
    requires ChecksFresh(cfg, Linked(head, files), actions)
    ensures HistoryOk(Run(cfg, Linked(head, files), actions))
  {
    LinkedIsOk(head, files);
    RunKeepsHistory(cfg, Linked(head, files), actions);
  }

  lemma {:induction false} CopySynced(copy: State, s: State)
    requires SameButHead(copy, s)
    ensures copy.synced == s.synced
  {
    assert copy.(webHead := None).synced == s.(webHead := None).synced;
  }

  lemma {:induction false} PushSyncedGrows(w: World, a: Action)
    requires CopyIsCurrent(w.process, w.client) && (a.PushSave? || a.PushRetry? || a.Resend? || a.Receive?)
    ensures w.client.synced <= StepPush(w, a).client.synced
  {
    if !w.process.Idle? { CopySynced(w.process.state, w.client); }
  }

  lemma {:induction false} PullSyncedGrows(cfg: Config, w: World, a: Action)
    requires CopyIsCurrent(w.process, w.client) && (a.PullAsk? || a.ReadProject? || a.PullFinish?)
    ensures w.client.synced <= StepPull(cfg, w, a).client.synced
  {
    if !w.process.Idle? { CopySynced(w.process.state, w.client); }
  }

  /** Paths are never taken off the list of synced ones, whatever step is made. */
  lemma {:induction false} SyncedGrows(cfg: Config, w: World, a: Action)
    requires CopyIsCurrent(w.process, w.client) && FreshAt(cfg, w, a)
    ensures w.client.synced <= Step(cfg, w, a).client.synced
  {
    if a.PushSave? || a.PushRetry? || a.Resend? || a.Receive? { PushSyncedGrows(w, a); }
    else if a.PullAsk? || a.ReadProject? || a.PullFinish? { PullSyncedGrows(cfg, w, a); }
    else if CheckSaves(cfg, w, a) { CopySynced(w.checks[a.id].state, w.client); }
  }
}
