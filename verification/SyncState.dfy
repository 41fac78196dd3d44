/** What a directory remembers about its project, and how pushes and pulls change it. */
module SyncState {
  import opened Common
  import opened SyncFiles
  import opened Reconcile
  import opened PushPlan

  /** An identity of the project's accepted state; identities never repeat. */
  type Head = nat

  /** A version this directory pushed, and the commit that held it. */
  datatype Pushed = Pushed(version: string, commit: Option<string>)

  /**
   * A push saved before it is posted. `key` is the operation key of the
   * request, and the rest what the records take once it is accepted.
   */
  datatype Pending = Pending(key: nat, actor: string, upserts: Records, deleted: seq<Path>, commit: Option<string>)

  datatype State = State(pulled: Option<int>, head: Option<string>, files: Records, pushed: seq<Pushed>,
                         synced: set<Path>, webHead: Option<Head>, pending: Option<Pending>)

  const MAX_PUSHED: nat := 200

  datatype Answer = Accepted(version: string) | Refused

  // ------------------------------------------------------- settling a push

  function Effects(files: Records, p: Pending): Records {
    SettledRecords(files, p.upserts, p.deleted)
  }

  function LastOf<T>(s: seq<T>, n: nat): seq<T> {
    if |s| > n then s[|s| - n..] else s
  }

  /** An acceptance applies the saved effects, and the head is read again by the next pull. */
  function SettledState(s: State, p: Pending, version: string): State {
    s.(files := Effects(s.files, p),
       synced := s.synced + p.upserts.Keys + (set x <- p.deleted),
       pushed := LastOf(s.pushed + [Pushed(version, p.commit)], MAX_PUSHED),
       head := if p.commit.Some? then p.commit else s.head,
       webHead := None, pending := None)
  }

  /** A refusal clears the attempt and leaves the baseline where it was. */
  function RefusedState(s: State): State {
    s.(pending := None)
  }

  function AfterAnswer(s: State, p: Pending, a: Answer): State {
    match a
    case Accepted(version) => SettledState(s, p, version)
    case Refused => RefusedState(s)
  }

  // ------------------------------------------------------- pulling a folder

  /** What the history says before the project is read. */
  datatype Discovery = Discovery(newer: bool, fromHead: bool, head: Option<Head>, sequence: Option<int>)

  /** Whether the pull has nothing to take. */
  predicate IsQuiet(d: Discovery, s: State) {
    !d.newer && !d.fromHead && d.head.Some? && d.head == s.webHead
  }

  /** The rules of the deployment and the paths a caller leaves out, fixed for a directory. */
  datatype Config = Config(admits: Path -> bool, exclude: seq<Path>)

  predicate Counts(cfg: Config, p: Path) {
    cfg.admits(p) && !Excluded(p, cfg.exclude)
  }

  /** The web's files without the paths the rules refuse. */
  function Retained(cfg: Config, web: Records): Records {
    map p | p in web && cfg.admits(p) :: web[p]
  }

  /** And without the paths the scan was asked to exclude. */
  function Considered(cfg: Config, web: Records): Records {
    map p | p in web && Counts(cfg, p) :: web[p]
  }

  /** What a pull reads of the folder and is told about both-sided changes. */
  datatype Folder = Folder(local: map<Path, string>, leftOut: set<Path>, mine: seq<Path>, theirs: seq<Path>)

  function SidesOf(cfg: Config, s: State, web: Records, f: Folder): Sides {
    Sides(s.files, f.local, Considered(cfg, web), f.leftOut, f.mine, f.theirs)
  }

  function PulledState(cfg: Config, s: State, d: Discovery, web: Records, f: Folder): State {
    var sides := SidesOf(cfg, s, web, f);
    var files := RecordsAfter(sides);
    var taken := s.(files := files, synced := s.synced + files.Keys);
    if HasConflict(sides) then taken
    else taken.(pulled := d.sequence, webHead := if d.head.Some? then d.head else s.webHead)
  }

  /** The durable state a pull leaves. */
  function PullState(cfg: Config, s: State, d: Discovery, web: Records, f: Folder): State {
    if s.pending.Some? || IsQuiet(d, s) then s else PulledState(cfg, s, d, web, f)
  }

  // ------------------------------------------------------- the cheap check

  /** Whether the project's files are the recorded ones. */
  predicate NothingNew(cfg: Config, s: State, web: Records) {
    Retained(cfg, web) == s.files
  }

  /** Whether the check has its answer before it reads the project; `named` is an unseen named version. */
  predicate KnownAtOnce(s: State, named: bool, head: Option<Head>) {
    named || (head.Some? && head == s.webHead)
  }

  /** A check that finds nothing new records the head identity it read first. */
  predicate ChecksOff(cfg: Config, s: State, head: Option<Head>, web: Records) {
    NothingNew(cfg, s, web) && head.Some?
  }

  /** The copy of the state the check was given, as it saves it. */
  function CheckedState(s: State, head: Option<Head>): State {
    s.(webHead := head)
  }

  /** The durable state a check leaves, given the copy `s` its caller loaded. */
  function CheckState(cfg: Config, durable: State, s: State, named: bool, head: Option<Head>, web: Records): State {
    if KnownAtOnce(s, named, head) || !ChecksOff(cfg, s, head, web) then durable else CheckedState(s, head)
  }

  // ------------------------------------------------------- as it runs

  /** A post that went out, and what the directory had saved by then. */
  datatype Post = Post(pending: Pending, saved: State)

  datatype PullOutcome = PushIsPending | UpToDate | Took(plan: Reconciliation)

  /** Where one directory's state is kept, with the posts made from it. */
  class Store {
    var durable: State
    var posts: seq<Post>

    constructor (s: State)
      ensures durable == s && posts == []
    {
      durable, posts := s, [];
    }

    method Save(s: State)
      modifies this`durable
      ensures durable == s
    {
      durable := s;
    }

    /** Every request went out only after it was saved. */
    ghost predicate SavedBeforePosted()
      reads this
    {
      forall p <- posts :: p.saved.pending == Some(p.pending)
    }

    /**
     * Posts the request a pending push holds and settles the state by the
     * answer. An answer that never arrives keeps the attempt.
     */
    method SettlePending(state: State, pending: Pending, answer: Option<Answer>) returns (state': State)
      requires durable == state && state.pending == Some(pending) && SavedBeforePosted()
      modifies this
      ensures posts == old(posts) + [Post(pending, old(durable))] && SavedBeforePosted()
      ensures durable == state' == if answer.Some? then AfterAnswer(state, pending, answer.value) else state
    {
      posts := posts + [Post(pending, durable)];
      state' := state;
      if answer.None? { return; }
      match answer.value {
        case Refused =>
          state' := state.(pending := None);
          Save(state');
        case Accepted(version) =>
          var files := state.files + pending.upserts;
          var i := 0;
          while i < |pending.deleted|
            invariant 0 <= i <= |pending.deleted|
            invariant files == (state.files + pending.upserts) - (set x <- pending.deleted[..i])
          {
            assert pending.deleted[..i + 1] == pending.deleted[..i] + [pending.deleted[i]];
            files := files - {pending.deleted[i]};
            i := i + 1;
          }
          assert pending.deleted[..|pending.deleted|] == pending.deleted;
          var pushed := state.pushed + [Pushed(version, pending.commit)];
          var excess := if |pushed| > MAX_PUSHED then |pushed| - MAX_PUSHED else 0;
          state' := state.(files := files,
                           synced := state.synced + pending.upserts.Keys + (set x <- pending.deleted),
                           pushed := pushed[excess..],
                           head := if pending.commit.Some? then pending.commit else state.head,
                           webHead := None, pending := None);
          Save(state');
      }
    }

    /**
     * A push: settle what is pending, and then send what is new. `planned` is
     * what the scan calls for, saved before it is posted. `first` and `second`
     * are the answers of the two posts, absent when none came back.
     */
    method Push(actor: string, first: Option<Answer>, planned: Option<Pending>, second: Option<Answer>)
      returns (ok: bool)
      requires SavedBeforePosted()
      modifies this
      ensures SavedBeforePosted()
      ensures durable == PushState(old(durable), actor, first, planned, second)
      ensures ok <==> PushAnswers(old(durable), actor, first, planned, second)
    {
      var state := durable;
      if state.pending.Some? {
        if state.pending.value.actor != actor { return false; }
        state := SettlePending(state, state.pending.value, first);
        if first.None? { return false; }
        if first.value.Refused? { return true; }
      }
      if planned.None? { return true; }
      state := state.(pending := planned);
      Save(state);
      state := SettlePending(state, planned.value, second);
      ok := second.Some?;
    }

    /** A pull of a plain folder. `order` is the order in which the paths are met. */
    method Pull(cfg: Config, d: Discovery, web: Records, f: Folder, order: seq<Path>) returns (r: PullOutcome)
      requires Lists(order, AllPaths(SidesOf(cfg, durable, web, f)))
      modifies this`durable
      ensures durable == PullState(cfg, old(durable), d, web, f)
      ensures old(durable).pending.Some? <==> r.PushIsPending?
      ensures r.UpToDate? <==> old(durable).pending.None? && IsQuiet(d, old(durable))
      ensures r.Took? ==> Sorts(SidesOf(cfg, old(durable), web, f), r.plan)
    {
      var state := durable;
      if state.pending.Some? { return PushIsPending; }
      if IsQuiet(d, state) { return UpToDate; }
      var sides := SidesOf(cfg, state, web, f);
      var plan := Reconcile.Reconcile(sides, order);
      OutcomeIs(sides, plan);
      state := state.(files := plan.records, synced := state.synced + plan.records.Keys);
      if plan.conflicts == [] {
        state := state.(pulled := d.sequence);
        if d.head.Some? { state := state.(webHead := d.head); }
      }
      Save(state);
      r := Took(plan);
    }

    /**
     * Whether the project has something this directory has not taken in.
     * `state` is what the caller loaded, which is saved whole when the read
     * finds nothing new, whatever was saved since.
     */
    method WebChanged(cfg: Config, state: State, named: bool, head: Option<Head>, web: Records) returns (changed: bool)
      modifies this`durable
      ensures durable == CheckState(cfg, old(durable), state, named, head, web)
      ensures changed <==> named || (!KnownAtOnce(state, named, head) && !NothingNew(cfg, state, web))
    {
      if named { return true; }
      if head.Some? && head == state.webHead { return false; }
      if Retained(cfg, web) != state.files { return true; }
      if head.Some? {
        var seen := state;
        seen := seen.(webHead := head);
        Save(seen);
      }
      changed := false;
    }
  }

  /** Whether a push ends with an outcome and not with an error: every post it made was answered. */
  predicate PushAnswers(s: State, actor: string, first: Option<Answer>, planned: Option<Pending>, second: Option<Answer>) {
    && (s.pending.Some? ==> s.pending.value.actor == actor && first.Some?)
    && (planned.None? || (s.pending.Some? && first.value.Refused?) || second.Some?)
  }

  /** The durable state a push leaves, by the answers it gets. */
  function PushState(s: State, actor: string, first: Option<Answer>, planned: Option<Pending>,
                     second: Option<Answer>): State {
    if s.pending.Some? && (s.pending.value.actor != actor || first.None?) then s
    else
      var s1 := if s.pending.Some? then AfterAnswer(s, s.pending.value, first.value) else s;
      if planned.None? || (s.pending.Some? && first.value.Refused?) then s1
      else
        var s2 := s1.(pending := planned);
        if second.Some? then AfterAnswer(s2, planned.value, second.value) else s2
  }
}
