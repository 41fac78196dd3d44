/**
 * One directory, one project and the network between them, step by step. A
 * run is any sequence of steps: calls may stop anywhere, saves may fail,
 * posts and answers may be lost, and the project may be edited at any time.
 * Pulls and pushes run one at a time; checks run beside them and beside each
 * other. Every call works on the copy of the state it loaded, and saves that.
 */
module SyncProtocol {
  import opened Common
  import opened SyncFiles
  import opened SyncState

  /** The project, with a receipt for every operation key it accepted. */
  datatype Server = Server(head: Head, files: Records, receipts: map<nat, string>, accepted: seq<Pending>)

  /** The pull or push that runs, with the copy of the state it works on. */
  datatype Process =
    | Idle
    | Loaded(state: State)
    | Posting(state: State, pending: Pending)
    | Pulling(state: State, found: Discovery)
    | PullRead(state: State, found: Discovery, readAt: Head, web: Records)

  /** A check, with the copy of the state its caller loaded. */
  datatype Check =
    | CheckLoaded(state: State)
    | Asked(state: State, head: Option<Head>)
    | CheckRead(state: State, head: Option<Head>, readAt: Head, web: Records)

  /**
   * `client` is what is saved. `open` is the push last saved whose answer has
   * not been; `settled` lists the pushes whose acceptance was saved; `base` is
   * the record the last pull left, when `mark` of them had been settled.
   */
  datatype World = World(client: State, process: Process, checks: map<nat, Check>, server: Server,
                         post: Option<Pending>, reply: Option<Answer>, nextKey: nat,
                         open: Option<Pending>, settled: seq<Pending>, base: Records, mark: nat)

  datatype Action =
    | Edit(files: Records)
    | Load
    | PullAsk(told: bool, newer: bool, fromHead: bool, sequence: Option<int>)
    | ReadProject
    | PullFinish(folder: Folder, saved: bool)
    | PushSave(actor: string, upserts: Records, deleted: seq<Path>, commit: Option<string>, saved: bool)
    | PushRetry(actor: string)
    | Resend
    | LosePost
    | Deliver(takes: bool, version: string)
    | LoseReply
    | Receive(saved: bool)
    | Stop
    | CheckLoad(id: nat)
    | CheckAsk(id: nat, told: bool, named: bool)
    | CheckFetch(id: nat)
    | CheckFinish(id: nat, saved: bool)
    | CheckStop(id: nat)

  function Told(w: World, told: bool): Option<Head> {
    if told then Some(w.server.head) else None
  }

  function Found(w: World, a: Action): Discovery
    requires a.PullAsk?
  {
    Discovery(a.newer, a.fromHead, Told(w, a.told), a.sequence)
  }

  function NewPending(w: World, a: Action): Pending
    requires a.PushSave?
  {
    Pending(w.nextKey, a.actor, a.upserts, a.deleted, a.commit)
  }

  /** Accepting a change moves the head, makes the change and keeps a receipt under its key. */
  function Accept(s: Server, p: Pending, version: string): Server {
    Server(s.head + 1, Effects(s.files, p), s.receipts[p.key := version], s.accepted + [p])
  }

  /** The server answers a repeated operation key with its first receipt. */
  function Handle(s: Server, p: Pending, takes: bool, version: string): (Server, Answer) {
    if p.key in s.receipts then (s, Accepted(s.receipts[p.key]))
    else if takes then (Accept(s, p, version), Accepted(version))
    else (s, Refused)
  }

  // ------------------------------------------------------- pulls

  function StepPull(cfg: Config, w: World, a: Action): World
    requires a.PullAsk? || a.ReadProject? || a.PullFinish?
  {
    match a
    case PullAsk(_, _, _, _) =>
      if !w.process.Loaded? || w.process.state.pending.Some? then w
      else if IsQuiet(Found(w, a), w.process.state) then w.(process := Idle)
      else w.(process := Pulling(w.process.state, Found(w, a)))
    case ReadProject =>
      if !w.process.Pulling? then w
      else w.(process := PullRead(w.process.state, w.process.found, w.server.head, w.server.files))
    case PullFinish(folder, saved) =>
      if !w.process.PullRead? then w
      else if !saved then w.(process := Idle)
      else
        var pulled := PulledState(cfg, w.process.state, w.process.found, w.process.web, folder);
        w.(client := pulled, process := Idle, base := pulled.files, mark := |w.settled|)
  }

  // ------------------------------------------------------- pushes

  /** The answer is saved, and a push that was accepted goes on. */
  function Received(w: World, s: State, p: Pending, a: Answer): World {
    var after := AfterAnswer(s, p, a);
    w.(client := after, process := if a.Accepted? then Loaded(after) else Idle, open := None,
       settled := if a.Accepted? then w.settled + [p] else w.settled)
  }

  function StepPush(w: World, a: Action): World
    requires a.PushSave? || a.PushRetry? || a.Resend? || a.Receive?
  {
    match a
    case PushSave(_, _, _, _, saved) =>
      if !w.process.Loaded? || w.process.state.pending.Some? then w
      else if !saved then w.(process := Idle)
      else
        var p := NewPending(w, a);
        var s := w.process.state.(pending := Some(p));
        w.(client := s, process := Posting(s, p), post := Some(p), reply := None, open := Some(p),
           nextKey := w.nextKey + 1)
    case PushRetry(actor) =>
      if !w.process.Loaded? || w.process.state.pending.None? || w.process.state.pending.value.actor != actor then w
      else
        w.(process := Posting(w.process.state, w.process.state.pending.value), post := w.process.state.pending,
           reply := None)
    case Resend =>
      if w.process.Posting? then w.(post := Some(w.process.pending), reply := None) else w
    case Receive(saved) =>
      if !w.process.Posting? || w.reply.None? then w
      else
        var w1 := if saved then Received(w, w.process.state, w.process.pending, w.reply.value) else w.(process := Idle);
        w1.(reply := None)
  }

  // ------------------------------------------------------- checks

  /** Whether a step saves the copy a check holds. */
  predicate CheckSaves(cfg: Config, w: World, a: Action) {
    && a.CheckFinish? && a.saved && a.id in w.checks && w.checks[a.id].CheckRead?
    && ChecksOff(cfg, w.checks[a.id].state, w.checks[a.id].head, w.checks[a.id].web)
  }

  function StepCheck(cfg: Config, w: World, a: Action): World
    requires a.CheckLoad? || a.CheckAsk? || a.CheckFetch? || a.CheckFinish? || a.CheckStop?
  {
    match a
    case CheckLoad(id) => w.(checks := w.checks[id := CheckLoaded(w.client)])
    case CheckAsk(id, told, named) =>
      if id !in w.checks || !w.checks[id].CheckLoaded? then w
      else if KnownAtOnce(w.checks[id].state, named, Told(w, told)) then w.(checks := w.checks - {id})
      else w.(checks := w.checks[id := Asked(w.checks[id].state, Told(w, told))])
    case CheckFetch(id) =>
      if id !in w.checks || !w.checks[id].Asked? then w
      else w.(checks := w.checks[id := CheckRead(w.checks[id].state, w.checks[id].head, w.server.head, w.server.files)])
    case CheckFinish(id, saved) =>
      if id !in w.checks || !w.checks[id].CheckRead? then w
      else
        var c := w.checks[id];
        w.(client := if CheckSaves(cfg, w, a) then CheckedState(c.state, c.head) else w.client, checks := w.checks - {id})
    case CheckStop(id) => w.(checks := w.checks - {id})
  }

  // ------------------------------------------------------- runs

  function Step(cfg: Config, w: World, a: Action): World {
    match a
    case Edit(files) => w.(server := w.server.(head := w.server.head + 1, files := files))
    case Load => if w.process.Idle? then w.(process := Loaded(w.client)) else w
    case PullAsk(_, _, _, _) => StepPull(cfg, w, a)
    case ReadProject => StepPull(cfg, w, a)
    case PullFinish(_, _) => StepPull(cfg, w, a)
    case PushSave(_, _, _, _, _) => StepPush(w, a)
    case PushRetry(_) => StepPush(w, a)
    case Resend => StepPush(w, a)
    case Receive(_) => StepPush(w, a)
    case LosePost => w.(post := None)
    case Deliver(takes, version) =>
      if w.post.None? then w
      else
        var (server, answer) := Handle(w.server, w.post.value, takes, version);
        w.(server := server, post := None, reply := Some(answer))
    case LoseReply => w.(reply := None)
    case Stop => w.(process := Idle)
    case CheckLoad(_) => StepCheck(cfg, w, a)
    case CheckAsk(_, _, _) => StepCheck(cfg, w, a)
    case CheckFetch(_) => StepCheck(cfg, w, a)
    case CheckFinish(_, _) => StepCheck(cfg, w, a)
    case CheckStop(_) => StepCheck(cfg, w, a)
  }

  function Run(cfg: Config, w: World, actions: seq<Action>): World
    decreases |actions|
  {
    if actions == [] then w else Run(cfg, Step(cfg, w, actions[0]), actions[1..])
  }

  /** A directory just linked to a project that already holds some files. */
  function Linked(head: Head, files: Records): World {
    World(State(None, None, map[], [], {}, None, None), Idle, map[], Server(head, files, map[], []), None, None, 0,
          None, [], map[], 0)
  }
}
