/** A folder pull: the recorded files, the folder and the web version, path by path. */
module Reconcile {
  import opened Common
  import opened SyncFiles

  /**
   * Everything the comparison reads. `local` is the hash of each file in the
   * folder, and `excluded` the paths that are in the folder although `local`
   * does not list them.
   */
  datatype Sides = Sides(recorded: Records, local: map<Path, string>, web: Records, excluded: set<Path>,
                         mine: seq<Path>, theirs: seq<Path>)

  datatype Verdict = Skip | Agree | Take | Keep | Mine | Conflict

  datatype Reconciliation = Reconciliation(apply: seq<Path>, kept: seq<Path>, conflicts: seq<Path>,
                                           skipped: seq<Path>, records: Records)

  function Here(s: Sides, p: Path): Option<string> {
    if p in s.local then Some(s.local[p]) else None
  }

  function Decide(s: Sides, p: Path): Verdict {
    var base, here, there := ShaIn(s.recorded, p), Here(s, p), ShaIn(s.web, p);
    if p in s.excluded && there.Some? && there != base then Skip
    else if here == there then Agree
    else if here == base then Take
    else if there == base then Keep
    else if p in s.theirs then Take
    else if p in s.mine then Mine
    else Conflict
  }

  /** Whether the path's record becomes the web's. */
  predicate Adopts(v: Verdict) {
    !v.Keep? && !v.Conflict?
  }

  function AllPaths(s: Sides): set<Path> {
    s.recorded.Keys + s.local.Keys + s.web.Keys
  }

  function RecordAfter(s: Sides, p: Path): Option<FileRecord> {
    if p in AllPaths(s) && Adopts(Decide(s, p)) then RecordIn(s.web, p) else RecordIn(s.recorded, p)
  }

  /** Each path of the three sides is in the list its verdict names, and in no other. */
  ghost predicate Sorts(s: Sides, r: Reconciliation) {
    && (forall p :: p in r.apply <==> p in AllPaths(s) && Decide(s, p).Take?)
    && (forall p :: p in r.kept <==> p in AllPaths(s) && (Decide(s, p).Keep? || Decide(s, p).Mine?))
    && (forall p :: p in r.conflicts <==> p in AllPaths(s) && Decide(s, p).Conflict?)
    && (forall p :: p in r.skipped <==> p in AllPaths(s) && Decide(s, p).Skip?)
    && forall p :: RecordIn(r.records, p) == RecordAfter(s, p)
  }

  function Adopted(records: Records, web: Records, p: Path): Records {
    if p in web then records[p := web[p]] else records - {p}
  }

  lemma {:induction false} AdoptedRecord(records: Records, web: Records, p: Path, q: Path)
    ensures RecordIn(Adopted(records, web, p), q) == if q == p then RecordIn(web, p) else RecordIn(records, q)
  {
  }

  /** The loop so far: the paths in `done` are sorted, and the records of the others stand. */
  ghost predicate SortsUpTo(s: Sides, r: Reconciliation, done: seq<Path>) {
    && (forall p :: p in r.apply <==> p in done && Decide(s, p).Take?)
    && (forall p :: p in r.kept <==> p in done && (Decide(s, p).Keep? || Decide(s, p).Mine?))
    && (forall p :: p in r.conflicts <==> p in done && Decide(s, p).Conflict?)
    && (forall p :: p in r.skipped <==> p in done && Decide(s, p).Skip?)
    && RecordsUpTo(s, r.records, done)
  }

  ghost predicate RecordsUpTo(s: Sides, records: Records, done: seq<Path>) {
    forall p :: RecordIn(records, p) == if p in done then RecordAfter(s, p) else RecordIn(s.recorded, p)
  }

  lemma {:induction false} RecordsSettled(s: Sides, r: Reconciliation, p: Path, done: seq<Path>)
    requires RecordsUpTo(s, r.records, done) && p in AllPaths(s)
    ensures RecordsUpTo(s, if Adopts(Decide(s, p)) then Adopted(r.records, s.web, p) else r.records, done + [p])
  {
    var records := if Adopts(Decide(s, p)) then Adopted(r.records, s.web, p) else r.records;
    forall q
      ensures RecordIn(records, q) == if q in done + [p] then RecordAfter(s, q) else RecordIn(s.recorded, q)
    {
      AdoptedRecord(r.records, s.web, p, q);
      assert RecordIn(r.records, q) == if q in done then RecordAfter(s, q) else RecordIn(s.recorded, q);
    }
  }

  /** No list names a path twice. */
  predicate OnceEach(r: Reconciliation) {
    Distinct(r.apply) && Distinct(r.kept) && Distinct(r.conflicts) && Distinct(r.skipped)
  }

  method Settle(s: Sides, r: Reconciliation, p: Path, ghost done: seq<Path>) returns (r': Reconciliation)
    requires SortsUpTo(s, r, done) && p in AllPaths(s)
    ensures SortsUpTo(s, r', done + [p])
    ensures OnceEach(r) && p !in done ==> OnceEach(r')
  {
    var v := Decide(s, p);
    var records := if Adopts(v) then Adopted(r.records, s.web, p) else r.records;
    RecordsSettled(s, r, p, done);
    r' := r.(records := records);
    match v {
      case Skip => r' := r'.(skipped := r.skipped + [p]);
      case Agree =>
      case Take => r' := r'.(apply := r.apply + [p]);
      case Keep => r' := r'.(kept := r.kept + [p]);
      case Mine => r' := r'.(kept := r.kept + [p]);
      case Conflict => r' := r'.(conflicts := r.conflicts + [p]);
    }
  }

  /** The loop over the paths, in any order and however often each is met. */
  method SettleAll(s: Sides, order: seq<Path>) returns (r: Reconciliation)
    requires forall p <- order :: p in AllPaths(s)
    ensures SortsUpTo(s, r, order) && (Distinct(order) ==> OnceEach(r))
  {
    r := Reconciliation([], [], [], [], s.recorded);
    for i := 0 to |order|
      invariant SortsUpTo(s, r, order[..i]) && (Distinct(order) ==> OnceEach(r))
    {
      assert order[..i + 1] == order[..i] + [order[i]];
      r := Settle(s, r, order[i], order[..i]);
    }
    assert order[..|order|] == order;
  }

  lemma {:induction false} AllSettled(s: Sides, r: Reconciliation, order: seq<Path>)
    requires SortsUpTo(s, r, order) && forall p :: p in order <==> p in AllPaths(s)
    ensures Sorts(s, r)
  {
  }

  method Reconcile(s: Sides, order: seq<Path>) returns (r: Reconciliation)
    requires Lists(order, AllPaths(s))
    ensures Sorts(s, r) && OnceEach(r)
  {
    r := SettleAll(s, order);
    AllSettled(s, r, order);
  }

  // ------------------------------------------------------- what the lists hold

  /** The scan does not list what it leaves out. */
  predicate Apart(s: Sides) {
    s.excluded !! s.local.Keys
  }

  /** The folder and the web both left the recorded version, for different ones. */
  predicate ChangedOnBoth(s: Sides, p: Path) {
    Here(s, p) != ShaIn(s.recorded, p) && ShaIn(s.web, p) != ShaIn(s.recorded, p) && Here(s, p) != ShaIn(s.web, p)
  }

  /** Only the folder left the recorded version. */
  predicate ChangedHereOnly(s: Sides, p: Path) {
    Here(s, p) != ShaIn(s.recorded, p) && ShaIn(s.web, p) == ShaIn(s.recorded, p)
  }

  /** Only the web left the recorded version. */
  predicate ChangedThereOnly(s: Sides, p: Path) {
    Here(s, p) == ShaIn(s.recorded, p) && ShaIn(s.web, p) != ShaIn(s.recorded, p)
  }

  /**
   * Where every path goes, by how its three sides differ: a web change over an
   * unchanged file is taken, and one over a changed file only if the caller
   * said so; a local change is kept; conflicts are exactly what changed on both
   * sides and nobody settled; and an excluded path is skipped exactly when the
   * web changed it. The record stands for local changes and conflicts, and is
   * the web's for every other path.
   */
  lemma {:induction false} ListsAreExactly(s: Sides, r: Reconciliation, p: Path)
    requires Sorts(s, r) && Apart(s)
    ensures var settled := p in s.theirs || p in s.mine;
            && (p in r.apply <==> p !in s.excluded && (ChangedThereOnly(s, p) || (ChangedOnBoth(s, p) && p in s.theirs)))
            && (p in r.kept <==>
                  || ChangedHereOnly(s, p)
                  || (p !in s.excluded && ChangedOnBoth(s, p) && p !in s.theirs && p in s.mine))
            && (p in r.conflicts <==> p !in s.excluded && ChangedOnBoth(s, p) && !settled)
            && (p in r.skipped <==> p in s.excluded && p in s.web && ShaIn(s.web, p) != ShaIn(s.recorded, p))
            && RecordIn(r.records, p) ==
               if ChangedHereOnly(s, p) || p in r.conflicts then RecordIn(s.recorded, p) else RecordIn(s.web, p)
  {
    assert p in s.excluded ==> Here(s, p).None?;
    assert p !in AllPaths(s) ==> Here(s, p).None? && RecordIn(s.recorded, p).None? && RecordIn(s.web, p).None?;
    assert RecordIn(r.records, p) == RecordAfter(s, p);
    assert p in r.conflicts <==> p in AllPaths(s) && Decide(s, p).Conflict?;
  }

  // ------------------------------------------------------- local work is safe

  /**
   * A path is applied only if the folder still holds the recorded version, or
   * the caller said to take the web's, and never if it is excluded.
   */
  lemma {:induction false} NeverOverwritesLocalWork(s: Sides, r: Reconciliation, p: Path)
    requires Sorts(s, r) && Apart(s) && p in r.apply
    ensures Here(s, p) == ShaIn(s.recorded, p) || p in s.theirs
    ensures p !in s.excluded
    ensures Here(s, p) != ShaIn(s.web, p)
  {
    assert p in s.local ==> p !in s.excluded;
  }

  /** A path that changed on both sides is left alone unless the caller settled it. */
  lemma {:induction false} BothChangedIsKept(s: Sides, r: Reconciliation, p: Path)
    requires Sorts(s, r) && Apart(s) && p !in s.excluded && p !in s.theirs && ChangedOnBoth(s, p)
    ensures p !in r.apply
    ensures if p in s.mine then p in r.kept && ShaIn(r.records, p) == ShaIn(s.web, p)
            else p in r.conflicts && ShaIn(r.records, p) == ShaIn(s.recorded, p)
  {
    assert p in AllPaths(s);
    assert RecordIn(r.records, p) == RecordAfter(s, p);
  }

  // ------------------------------------------------------- convergence

  lemma {:induction false} RecordsAgree(s: Sides, r: Reconciliation, p: Path)
    requires Sorts(s, r) && p !in r.conflicts
    ensures ShaIn(r.records, p) == ShaIn(s.web, p)
  {
    assert RecordIn(r.records, p) == RecordAfter(s, p);
    assert p in r.conflicts <==> p in AllPaths(s) && Decide(s, p).Conflict?;
  }

  /** The folder once the applied paths are written or trashed. */
  function Wrote(s: Sides, r: Reconciliation): map<Path, string> {
    map p | p in s.local.Keys + s.web.Keys && (if p in r.apply then p in s.web else p in s.local) ::
      if p in r.apply then s.web[p].sha else s.local[p]
  }

  function Again(s: Sides, r: Reconciliation): Sides {
    s.(recorded := r.records, local := Wrote(s, r))
  }

  lemma {:induction false} AgainDecides(s: Sides, r: Reconciliation, p: Path)
    requires Sorts(s, r) && Apart(s)
    ensures var v := Decide(Again(s, r), p);
            && !v.Take? && !v.Skip? && (v.Conflict? ==> p in r.conflicts)
            && (Adopts(v) ==> RecordIn(r.records, p) == RecordIn(s.web, p))
  {
    assert RecordIn(r.records, p) == RecordAfter(s, p);
    assert p in r.apply <==> p in AllPaths(s) && Decide(s, p).Take?;
    assert p in r.conflicts <==> p in AllPaths(s) && Decide(s, p).Conflict?;
    assert Here(Again(s, r), p) == if p in r.apply then ShaIn(s.web, p) else Here(s, p);
    if p in r.apply { NeverOverwritesLocalWork(s, r, p); }
  }

  /**
   * A pull converges: reconciling again after the writes applies nothing,
   * skips nothing, finds no new conflict and leaves the records unchanged.
   */
  lemma {:induction false} SecondPullIsQuiet(s: Sides, r: Reconciliation, r2: Reconciliation)
    requires Sorts(s, r) && Apart(s) && Sorts(Again(s, r), r2)
    ensures r2.apply == [] && r2.skipped == [] && r2.records == r.records
    ensures forall p <- r2.conflicts :: p in r.conflicts
  {
    assert r2.apply != [] ==> r2.apply[0] in r2.apply;
    assert r2.skipped != [] ==> r2.skipped[0] in r2.skipped;
    forall p
      ensures p !in r2.apply && p !in r2.skipped && (p in r2.conflicts ==> p in r.conflicts)
      ensures RecordIn(r2.records, p) == RecordIn(r.records, p)
    {
      AgainDecides(s, r, p);
      assert RecordIn(r2.records, p) == RecordAfter(Again(s, r), p);
    }
    assert r2.records.Keys == r.records.Keys by {
      forall p ensures p in r2.records <==> p in r.records {
        assert RecordIn(r2.records, p) == RecordIn(r.records, p);
      }
    }
    forall p | p in r.records
      ensures r2.records[p] == r.records[p]
    {
      assert RecordIn(r2.records, p) == RecordIn(r.records, p);
    }
  }

  /** With no conflicts the new records hash-equal the web on every path. */
  lemma {:induction false} PullAgrees(s: Sides, r: Reconciliation)
    requires Sorts(s, r) && r.conflicts == []
    ensures forall p :: ShaIn(r.records, p) == ShaIn(s.web, p)
  {
    forall p ensures ShaIn(r.records, p) == ShaIn(s.web, p) { RecordsAgree(s, r, p); }
  }

  // ------------------------------------------------------- what a pull records

  function RecordsAfter(s: Sides): Records {
    map p | p in AllPaths(s) && RecordAfter(s, p).Some? :: RecordAfter(s, p).value
  }

  predicate HasConflict(s: Sides) {
    exists p <- AllPaths(s) :: Decide(s, p).Conflict?
  }

  /** The outcome of the loop is decided by its input. */
  lemma {:induction false} OutcomeIs(s: Sides, r: Reconciliation)
    requires Sorts(s, r)
    ensures r.records == RecordsAfter(s)
    ensures r.conflicts == [] <==> !HasConflict(s)
  {
    assert r.conflicts != [] ==> r.conflicts[0] in r.conflicts;
    forall p
      ensures RecordIn(r.records, p) == RecordIn(RecordsAfter(s), p)
    {
      assert RecordIn(r.records, p) == RecordAfter(s, p);
    }
    forall p
      ensures p in r.records <==> p in RecordsAfter(s)
      ensures p in r.records ==> r.records[p] == RecordsAfter(s)[p]
    {
      assert RecordIn(r.records, p) == RecordIn(RecordsAfter(s), p);
    }
    assert r.records.Keys == RecordsAfter(s).Keys;
  }
}
