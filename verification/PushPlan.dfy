/** What a push sends, and what a project makes of it. */
module PushPlan {
  import opened Common
  import opened Sequences
  import opened Utf8
  import opened SyncFiles
  import opened Diff

  datatype Dependency = Dependency(path: Path, hash: string)
  datatype CreateFile = CreateFile(path: Path, text: Str)
  datatype DeleteFile = DeleteFile(path: Path, want: string)
  datatype PutBinary = PutBinary(path: Path, hash: string, want: Option<string>)

  datatype Plan = Plan(dependencies: seq<Dependency>, patches: seq<Patch>, create: seq<CreateFile>,
                       delete: seq<DeleteFile>, putBinary: seq<PutBinary>)

  /** A line diff of two texts. */
  datatype Script = Script(olds: seq<Str>, news: seq<Str>, ops: seq<Op>)

  predicate ScriptFor(s: Script, before: Str, after: Str) {
    Flat(s.olds) == before && Flat(s.news) == after && Covers(s.olds, s.news, s.ops, 0, 0) && NoEmptyLine(s.olds)
  }

  /** What a push reads: the records, the scan and its changes, and the agreed texts. */
  datatype Push = Push(recorded: Records, scan: Scan, changes: Changes, bases: map<Path, Str>, scripts: map<Path, Script>)

  predicate IsEdited(w: Push, p: Path) {
    p in w.changes.changed && p in w.scan.files && w.scan.files[p].kind.Text?
  }

  /**
   * What holds when a push plans: a text hashes to its digest, a path keeps its
   * kind, and each edited text has the text it was last agreed on and a line
   * diff from it.
   */
  ghost predicate Ready(digest: Digest, w: Push) {
    && Injective(digest) && Compares(w.recorded, w.scan, w.changes)
    && (forall p <- w.scan.files :: w.scan.files[p].kind.Text? ==> w.scan.files[p].sha == digest(w.scan.files[p].text))
    && (forall p <- w.changes.changed :: p in w.recorded && p in w.scan.files && w.recorded[p].kind == w.scan.files[p].kind)
    && (forall p <- w.changes.added :: p in w.scan.files)
    && (forall p <- w.changes.deleted :: p in w.recorded)
    && forall p :: IsEdited(w, p) ==>
         && p in w.bases && digest(w.bases[p]) == w.recorded[p].sha
         && p in w.scripts && ScriptFor(w.scripts[p], w.bases[p], w.scan.files[p].text)
  }

  ghost function EditsFor(w: Push, p: Path): seq<Patch>
    requires p in w.scripts && Covers(w.scripts[p].olds, w.scripts[p].news, w.scripts[p].ops, 0, 0)
    requires NoEmptyLine(w.scripts[p].olds)
  {
    PatchesRoundTrip(p, w.scripts[p].olds, w.scripts[p].news, w.scripts[p].ops);
    TextPatches(p, w.scripts[p].olds, w.scripts[p].news, w.scripts[p].ops)
  }

  function PatchesAt(ps: seq<Patch>, p: Path): seq<Patch> {
    if ps == [] then [] else (if ps[0].path == p then [ps[0]] else []) + PatchesAt(ps[1..], p)
  }

  lemma {:induction false} PatchesAtConcat(a: seq<Patch>, b: seq<Patch>, p: Path)
    ensures PatchesAt(a + b, p) == PatchesAt(a, p) + PatchesAt(b, p)
  {
    if a == [] {
      assert a + b == b;
    } else {
      assert (a + b)[1..] == a[1..] + b;
      PatchesAtConcat(a[1..], b, p);
      ConcatAssociates(if a[0].path == p then [a[0]] else [], PatchesAt(a[1..], p), PatchesAt(b, p));
    }
  }

  lemma {:induction false} PatchesAtOne(ps: seq<Patch>, p: Path, q: Path)
    requires forall x <- ps :: x.path == p
    ensures PatchesAt(ps, q) == if p == q then ps else []
  {
    if ps != [] {
      assert ps[0] in ps;
      PatchesAtOne(ps[1..], p, q);
      assert ps == [ps[0]] + ps[1..];
    }
  }

  lemma {:induction false} PatchesAtMembers(ps: seq<Patch>, p: Path)
    ensures forall x :: x in PatchesAt(ps, p) <==> x in ps && x.path == p
  {
    if ps != [] { PatchesAtMembers(ps[1..], p); }
  }

  /** An edited text differs from its base, so it has patches, all its own. */
  lemma {:induction false} EditsMean(digest: Digest, w: Push, p: Path)
    requires Ready(digest, w) && IsEdited(w, p)
    ensures EditsFor(w, p) != []
    ensures var base := w.bases[p];
            && Apart(EditsFor(w, p), |Bytes(base)|)
            && ApplyAll(Bytes(base), EditsFor(w, p)) == Bytes(w.scan.files[p].text)
            && forall x <- EditsFor(w, p) ::
                 x.path == p && Fits(Bytes(base), x) && Boundary(base, x.start) && Boundary(base, x.end)
  {
    var s := w.scripts[p];
    PatchesRoundTrip(p, s.olds, s.news, s.ops);
    AllOnBoundaries(p, s.olds, s.news, RunsOf(s.ops, [], false));
    assert IsChanged(w.recorded, w.scan, p);
    assert w.bases[p] != w.scan.files[p].text;
  }

  // ------------------------------------------------------- the plan

  predicate NeedsHash(w: Push, p: Path) {
    IsEdited(w, p) || (p in w.changes.deleted && p in w.recorded && w.recorded[p].kind.Text?)
  }

  predicate IsUpload(w: Push, b: PutBinary) {
    && b.path in w.scan.files && w.scan.files[b.path].kind.Asset? && b.hash == w.scan.files[b.path].sha
    && if b.path in w.changes.added then b.want.None?
       else b.path in w.changes.changed && b.path in w.recorded && b.want == Some(w.recorded[b.path].sha)
  }

  /** The plan holds what the changes call for and nothing else. */
  ghost predicate PlanFor(digest: Digest, w: Push, plan: Plan)
    requires Ready(digest, w)
  {
    && (forall p :: PatchesAt(plan.patches, p) == if IsEdited(w, p) then EditsFor(w, p) else [])
    && (forall d :: d in plan.dependencies <==> NeedsHash(w, d.path) && d.hash == w.recorded[d.path].sha)
    && (forall c :: c in plan.create <==> c.path in w.changes.added && w.scan.files[c.path].kind.Text?
                                            && c.text == w.scan.files[c.path].text)
    && (forall d :: d in plan.delete <==> d.path in w.changes.deleted && d.want == w.recorded[d.path].sha)
    && forall b :: b in plan.putBinary <==> IsUpload(w, b)
  }

  // ------------------------------------------------------- the project

  datatype Project = Project(texts: map<Path, Str>, assets: map<Path, string>)

  datatype Content = TextContent(text: Str) | AssetContent(sha: string)

  predicate ProjectOk(s: Project) {
    s.texts.Keys !! s.assets.Keys
  }

  function ContentAt(s: Project, p: Path): Option<Content> {
    if p in s.texts then Some(TextContent(s.texts[p]))
    else if p in s.assets then Some(AssetContent(s.assets[p])) else None
  }

  function ScanContent(s: Scan, p: Path): Option<Content> {
    if p !in s.files then None
    else if s.files[p].kind.Text? then Some(TextContent(s.files[p].text)) else Some(AssetContent(s.files[p].sha))
  }

  /** The project's file at a path hashes to a record. */
  predicate HoldsRecord(digest: Digest, s: Project, p: Path, r: FileRecord) {
    if r.kind.Text? then p in s.texts && digest(s.texts[p]) == r.sha
    else p in s.assets && s.assets[p] == r.sha
  }

  /** At every path the push touches, the project holds what was recorded. */
  predicate HoldsRecorded(digest: Digest, w: Push, s: Project) {
    && (forall p <- w.changes.changed :: p in w.recorded && HoldsRecord(digest, s, p, w.recorded[p]))
    && (forall p <- w.changes.deleted :: p in w.recorded && HoldsRecord(digest, s, p, w.recorded[p]))
    && forall p <- w.changes.added :: ContentAt(s, p).None?
  }

  // What the server collects as changed under the plan.

  ghost predicate PatchHolds(s: Project, x: Patch) {
    && x.path in s.texts && Fits(Bytes(s.texts[x.path]), x)
    && Boundary(s.texts[x.path], x.start) && Boundary(s.texts[x.path], x.end)
  }

  predicate DependencyHolds(digest: Digest, s: Project, d: Dependency) {
    d.path in s.texts && digest(s.texts[d.path]) == d.hash
  }

  predicate DeleteHolds(s: Project, d: DeleteFile) {
    d.path in s.texts || (d.path in s.assets && s.assets[d.path] == d.want)
  }

  predicate PutHolds(s: Project, b: PutBinary) {
    b.path !in s.texts &&
    match b.want
    case Some(e) => b.path in s.assets && s.assets[b.path] == e
    case None => b.path !in s.assets
  }

  ghost predicate NothingChanged(digest: Digest, s: Project, plan: Plan) {
    && (forall x <- plan.patches :: PatchHolds(s, x))
    && (forall d <- plan.dependencies :: DependencyHolds(digest, s, d))
    && (forall d <- plan.delete :: DeleteHolds(s, d))
    && (forall c <- plan.create :: ContentAt(s, c.path).None?)
    && forall b <- plan.putBinary :: PutHolds(s, b)
  }

  predicate Hashed(plan: Plan, p: Path) {
    exists d <- plan.dependencies :: d.path == p
  }

  /** A patched or deleted text comes with its hash, no path is patched and deleted, no ranges overlap. */
  ghost predicate WellFormed(s: Project, plan: Plan) {
    && (forall x <- plan.patches :: Hashed(plan, x.path))
    && (forall d <- plan.delete :: d.path in s.texts ==> Hashed(plan, d.path))
    && (forall d <- plan.delete, x <- plan.patches :: d.path != x.path)
    && forall p :: p in s.texts ==> Apart(PatchesAt(plan.patches, p), |Bytes(s.texts[p])|)
  }

  ghost predicate Accepts(digest: Digest, s: Project, plan: Plan) {
    NothingChanged(digest, s, plan) && WellFormed(s, plan)
  }

  /** What the server makes of an accepted plan. */
  ghost predicate Makes(s: Project, plan: Plan, s': Project)
    requires forall p :: p in s.texts ==> Apart(PatchesAt(plan.patches, p), |Bytes(s.texts[p])|)
  {
    && ProjectOk(s')
    && (forall p :: p in s'.texts <==> (p in s.texts && !Deletes(plan, p)) || Creates(plan, p))
    && (forall p :: p in s'.assets <==> (p in s.assets && !Deletes(plan, p)) || Puts(plan, p))
    && (forall c <- plan.create :: c.path in s'.texts && s'.texts[c.path] == c.text)
    && (forall b <- plan.putBinary :: b.path in s'.assets && s'.assets[b.path] == b.hash)
    && (forall p :: p in s.texts && p in s'.texts && !Creates(plan, p) ==>
          Bytes(s'.texts[p]) == ApplyAll(Bytes(s.texts[p]), PatchesAt(plan.patches, p)))
    && forall p :: p in s.assets && p in s'.assets && !Puts(plan, p) ==> s'.assets[p] == s.assets[p]
  }

  predicate Deletes(plan: Plan, p: Path) {
    exists d <- plan.delete :: d.path == p
  }

  predicate Creates(plan: Plan, p: Path) {
    exists c <- plan.create :: c.path == p
  }

  predicate Puts(plan: Plan, p: Path) {
    exists b <- plan.putBinary :: b.path == p
  }

  // ------------------------------------------------------- accepted exactly when it should be

  predicate Touched(w: Push, p: Path) {
    p in w.changes.added || p in w.changes.changed || p in w.changes.deleted
  }

  /** What the plan says about one path. */
  lemma {:induction false} PlanAt(digest: Digest, w: Push, plan: Plan, p: Path)
    requires Ready(digest, w) && PlanFor(digest, w, plan)
    ensures Deletes(plan, p) <==> p in w.changes.deleted
    ensures Creates(plan, p) <==> p in w.changes.added && w.scan.files[p].kind.Text?
    ensures Puts(plan, p) <==> (p in w.changes.added || p in w.changes.changed) && w.scan.files[p].kind.Asset?
    ensures Hashed(plan, p) <==> NeedsHash(w, p)
  {
    if p in w.changes.deleted { assert DeleteFile(p, w.recorded[p].sha) in plan.delete; }
    if p in w.changes.added {
      assert IsAdded(w.recorded, w.scan, p);
      if w.scan.files[p].kind.Text? {
        assert CreateFile(p, w.scan.files[p].text) in plan.create;
      } else {
        assert PutBinary(p, w.scan.files[p].sha, None) in plan.putBinary;
      }
    } else if p in w.changes.changed && w.scan.files[p].kind.Asset? {
      assert PutBinary(p, w.scan.files[p].sha, Some(w.recorded[p].sha)) in plan.putBinary;
    }
    if NeedsHash(w, p) { assert Dependency(p, w.recorded[p].sha) in plan.dependencies; }
  }

  lemma {:induction false} BaseHeld(digest: Digest, w: Push, s: Project, p: Path)
    requires Ready(digest, w) && IsEdited(w, p) && HoldsRecord(digest, s, p, w.recorded[p])
    ensures p in s.texts && s.texts[p] == w.bases[p]
  {
    assert w.recorded[p].kind.Text?;
  }

  /** If the project still holds the recorded contents, the plan is accepted. */
  lemma {:induction false} HeldIsAccepted(digest: Digest, w: Push, plan: Plan, s: Project)
    requires Ready(digest, w) && PlanFor(digest, w, plan) && ProjectOk(s) && HoldsRecorded(digest, w, s)
    ensures Accepts(digest, s, plan)
  {
    forall x <- plan.patches
      ensures PatchHolds(s, x) && Hashed(plan, x.path) && IsEdited(w, x.path)
    {
      PatchesAtMembers(plan.patches, x.path);
      assert x in PatchesAt(plan.patches, x.path);
      EditsMean(digest, w, x.path);
      BaseHeld(digest, w, s, x.path);
      PlanAt(digest, w, plan, x.path);
    }
    forall d <- plan.delete
      ensures DeleteHolds(s, d) && (d.path in s.texts ==> Hashed(plan, d.path)) && !IsEdited(w, d.path)
    {
      PlanAt(digest, w, plan, d.path);
      assert IsDeleted(w.recorded, w.scan, d.path);
      assert HoldsRecord(digest, s, d.path, w.recorded[d.path]);
    }
    forall b <- plan.putBinary
      ensures PutHolds(s, b)
    {
      assert IsUpload(w, b);
      if b.path !in w.changes.added { assert HoldsRecord(digest, s, b.path, w.recorded[b.path]); }
    }
    forall d <- plan.dependencies
      ensures DependencyHolds(digest, s, d)
    {
      assert HoldsRecord(digest, s, d.path, w.recorded[d.path]);
    }
    forall p | p in s.texts
      ensures Apart(PatchesAt(plan.patches, p), |Bytes(s.texts[p])|)
    {
      if IsEdited(w, p) {
        EditsMean(digest, w, p);
        BaseHeld(digest, w, s, p);
      }
    }
  }

  /** If the plan is accepted, the project held the recorded contents. */
  lemma {:induction false} AcceptedWasHeld(digest: Digest, w: Push, plan: Plan, s: Project)
    requires Ready(digest, w) && PlanFor(digest, w, plan) && ProjectOk(s) && Accepts(digest, s, plan)
    ensures HoldsRecorded(digest, w, s)
  {
    forall p <- w.changes.changed
      ensures HoldsRecord(digest, s, p, w.recorded[p])
    {
      assert IsChanged(w.recorded, w.scan, p);
      if w.scan.files[p].kind.Text? {
        assert DependencyHolds(digest, s, Dependency(p, w.recorded[p].sha));
      } else {
        assert !IsAdded(w.recorded, w.scan, p);
        assert PutHolds(s, PutBinary(p, w.scan.files[p].sha, Some(w.recorded[p].sha)));
      }
    }
    forall p <- w.changes.deleted
      ensures HoldsRecord(digest, s, p, w.recorded[p])
    {
      assert IsDeleted(w.recorded, w.scan, p);
      PlanAt(digest, w, plan, p);
      var d := DeleteFile(p, w.recorded[p].sha);
      assert d in plan.delete && DeleteHolds(s, d);
      if w.recorded[p].kind.Text? {
        assert DependencyHolds(digest, s, Dependency(p, w.recorded[p].sha));
      }
    }
    forall p <- w.changes.added
      ensures ContentAt(s, p).None?
    {
      if w.scan.files[p].kind.Text? {
        assert CreateFile(p, w.scan.files[p].text) in plan.create;
      } else {
        assert PutHolds(s, PutBinary(p, w.scan.files[p].sha, None));
      }
    }
  }

  // ------------------------------------------------------- a push means what the folder holds

  /**
   * An accepted push makes the project equal the scan on every touched path
   * and changes no other path.
   */
  lemma {:induction false} PushMeansTheFolder(digest: Digest, w: Push, plan: Plan, s: Project, s': Project, p: Path)
    requires Ready(digest, w) && PlanFor(digest, w, plan) && ProjectOk(s) && Accepts(digest, s, plan) && Makes(s, plan, s')
    ensures ContentAt(s', p) == if Touched(w, p) then ScanContent(w.scan, p) else ContentAt(s, p)
  {
    PlanAt(digest, w, plan, p);
    AcceptedWasHeld(digest, w, plan, s);
    assert p in w.changes.added <==> IsAdded(w.recorded, w.scan, p);
    assert p in w.changes.changed <==> IsChanged(w.recorded, w.scan, p);
    assert p in w.changes.deleted <==> IsDeleted(w.recorded, w.scan, p);
    if p in w.changes.changed {
      ChangedPath(digest, w, plan, s, s', p);
    } else if p in w.changes.added {
      AddedPath(digest, w, plan, s, s', p);
    } else if p !in w.changes.deleted {
      UntouchedPath(digest, w, plan, s, s', p);
    }
  }

  /**
   * A push from a project that holds what was recorded makes it the folder:
   * every path then holds what the scan found, but for those that are merely
   * left out of the sync, which are never deleted.
   */
  lemma {:induction false} PushMirrorsTheFolder(digest: Digest, w: Push, plan: Plan, s: Project, s': Project, p: Path)
    requires Ready(digest, w) && PlanFor(digest, w, plan) && ProjectOk(s) && Accepts(digest, s, plan) && Makes(s, plan, s')
    requires if p in w.recorded then HoldsRecord(digest, s, p, w.recorded[p]) else ContentAt(s, p).None?
    requires p in w.recorded && p in w.scan.files ==> w.recorded[p].kind == w.scan.files[p].kind
    ensures var leftOut := p !in w.scan.files && (p in w.scan.leftOut || Excluded(p, w.scan.exclude));
            ContentAt(s', p) == if leftOut then ContentAt(s, p) else ScanContent(w.scan, p)
  {
    PushMeansTheFolder(digest, w, plan, s, s', p);
    assert p in w.changes.added <==> IsAdded(w.recorded, w.scan, p);
    assert p in w.changes.changed <==> IsChanged(w.recorded, w.scan, p);
    assert p in w.changes.deleted <==> IsDeleted(w.recorded, w.scan, p);
  }

  lemma {:induction false} AddedPath(digest: Digest, w: Push, plan: Plan, s: Project, s': Project, p: Path)
    requires Ready(digest, w) && PlanFor(digest, w, plan) && ProjectOk(s) && Accepts(digest, s, plan) && Makes(s, plan, s')
    requires p in w.changes.added
    ensures ContentAt(s', p) == ScanContent(w.scan, p)
  {
    if w.scan.files[p].kind.Text? {
      assert CreateFile(p, w.scan.files[p].text) in plan.create;
    } else {
      assert PutBinary(p, w.scan.files[p].sha, None) in plan.putBinary;
    }
  }

  lemma {:induction false} ChangedPath(digest: Digest, w: Push, plan: Plan, s: Project, s': Project, p: Path)
    requires Ready(digest, w) && PlanFor(digest, w, plan) && ProjectOk(s) && Accepts(digest, s, plan) && Makes(s, plan, s')
    requires p in w.changes.changed && HoldsRecord(digest, s, p, w.recorded[p])
    ensures ContentAt(s', p) == ScanContent(w.scan, p)
  {
    PlanAt(digest, w, plan, p);
    assert IsChanged(w.recorded, w.scan, p) && !IsAdded(w.recorded, w.scan, p) && !IsDeleted(w.recorded, w.scan, p);
    if IsEdited(w, p) {
      EditsMean(digest, w, p);
      BaseHeld(digest, w, s, p);
      assert p in s'.texts;
      BytesInjective(s'.texts[p], w.scan.files[p].text);
    } else {
      assert PutBinary(p, w.scan.files[p].sha, Some(w.recorded[p].sha)) in plan.putBinary;
    }
  }

  lemma {:induction false} UntouchedPath(digest: Digest, w: Push, plan: Plan, s: Project, s': Project, p: Path)
    requires Ready(digest, w) && PlanFor(digest, w, plan) && ProjectOk(s) && Accepts(digest, s, plan) && Makes(s, plan, s')
    requires !Touched(w, p)
    ensures ContentAt(s', p) == ContentAt(s, p)
  {
    PlanAt(digest, w, plan, p);
    if p in s.texts {
      assert PatchesAt(plan.patches, p) == [];
      assert Bytes(s'.texts[p]) == Bytes(s.texts[p]);
      BytesInjective(s'.texts[p], s.texts[p]);
    }
  }

  // ------------------------------------------------------- settlement

  /** The records a push saves to apply once it is accepted. */
  function Upserts(w: Push): Records
    requires forall p :: p in w.changes.added || p in w.changes.changed ==> p in w.scan.files
  {
    map p | p in w.changes.added + w.changes.changed :: FileRecord(w.scan.files[p].kind, w.scan.files[p].sha)
  }

  function SettledRecords(files: Records, upserts: Records, deleted: seq<Path>): Records {
    (files + upserts) - (set p <- deleted)
  }

  /** Comparing again after settlement finds nothing. */
  lemma {:induction false} SettledComparesEmpty(digest: Digest, w: Push, c: Changes)
    requires Ready(digest, w)
    requires Compares(SettledRecords(w.recorded, Upserts(w), w.changes.deleted), w.scan, c)
    ensures c == Changes([], [], [])
  {
    var files := SettledRecords(w.recorded, Upserts(w), w.changes.deleted);
    assert c.added != [] ==> c.added[0] in c.added;
    assert c.changed != [] ==> c.changed[0] in c.changed;
    assert c.deleted != [] ==> c.deleted[0] in c.deleted;
    forall p
      ensures !IsAdded(files, w.scan, p) && !IsChanged(files, w.scan, p) && !IsDeleted(files, w.scan, p)
    {
      assert p in w.changes.added <==> IsAdded(w.recorded, w.scan, p);
      assert p in w.changes.changed <==> IsChanged(w.recorded, w.scan, p);
      assert p in w.changes.deleted <==> IsDeleted(w.recorded, w.scan, p);
    }
  }

  // ------------------------------------------------------- planning, as it runs

  method PlanAdded(w: Push) returns (create: seq<CreateFile>, put: seq<PutBinary>)
    requires forall p <- w.changes.added :: p in w.scan.files
    ensures forall c :: c in create <==> c.path in w.changes.added && w.scan.files[c.path].kind.Text?
                                           && c.text == w.scan.files[c.path].text
    ensures forall b :: b in put <==> b.path in w.changes.added && w.scan.files[b.path].kind.Asset?
                                        && b.hash == w.scan.files[b.path].sha && b.want.None?
  {
    create, put := [], [];
    var added := w.changes.added;
    for i := 0 to |added|
      invariant forall c :: c in create <==> c.path in added[..i] && w.scan.files[c.path].kind.Text?
                                               && c.text == w.scan.files[c.path].text
      invariant forall b :: b in put <==> b.path in added[..i] && w.scan.files[b.path].kind.Asset?
                                            && b.hash == w.scan.files[b.path].sha && b.want.None?
    {
      var p := added[i];
      assert p in added && added[..i + 1] == added[..i] + [p];
      var file := w.scan.files[p];
      match file.kind {
        case Text => create := create + [CreateFile(p, file.text)];
        case Asset => put := put + [PutBinary(p, file.sha, None)];
      }
    }
    assert added[..|added|] == added;
  }

  predicate Reuploads(w: Push, b: PutBinary) {
    && b.path in w.scan.files && w.scan.files[b.path].kind.Asset? && b.path in w.recorded
    && b.hash == w.scan.files[b.path].sha && b.want == Some(w.recorded[b.path].sha)
  }

  /** The edits of a path, and none for a path that is not an edited text. */
  ghost function EditsAt(digest: Digest, w: Push, p: Path): seq<Patch>
    requires Ready(digest, w)
  {
    if IsEdited(w, p) then EditsFor(w, p) else []
  }

  /** The loop over changed paths so far. */
  ghost predicate ChangedUpTo(digest: Digest, w: Push, done: seq<Path>,
                              dependencies: seq<Dependency>, patches: seq<Patch>, put: seq<PutBinary>)
    requires Ready(digest, w)
  {
    && HashesUpTo(w, done, dependencies)
    && (forall p :: PatchesAt(patches, p) == if p in done then EditsAt(digest, w, p) else [])
    && PutsUpTo(w, done, put)
  }

  ghost predicate HashesUpTo(w: Push, done: seq<Path>, dependencies: seq<Dependency>)
    requires forall p <- w.changes.changed :: p in w.recorded
  {
    forall d :: d in dependencies <==> d.path in done && IsEdited(w, d.path) && d.hash == w.recorded[d.path].sha
  }

  ghost predicate PutsUpTo(w: Push, done: seq<Path>, put: seq<PutBinary>) {
    forall b :: b in put <==> b.path in done && Reuploads(w, b)
  }

  lemma {:induction false} HashAdded(w: Push, done: seq<Path>, deps: seq<Dependency>, p: Path)
    requires forall q <- w.changes.changed :: q in w.recorded
    requires HashesUpTo(w, done, deps) && p in w.changes.changed
    ensures HashesUpTo(w, done + [p], if IsEdited(w, p) then deps + [Dependency(p, w.recorded[p].sha)] else deps)
  {
    assert forall d: Dependency :: d == Dependency(d.path, d.hash);
  }

  lemma {:induction false} PutAdded(w: Push, done: seq<Path>, put: seq<PutBinary>, p: Path)
    requires PutsUpTo(w, done, put) && p in w.recorded && p in w.scan.files
    ensures var file := w.scan.files[p];
            PutsUpTo(w, done + [p], if file.kind.Asset? then put + [PutBinary(p, file.sha, Some(w.recorded[p].sha))] else put)
  {
    assert forall b: PutBinary :: b == PutBinary(b.path, b.hash, b.want);
  }

  method PlanChanged(digest: Digest, w: Push)
    returns (dependencies: seq<Dependency>, patches: seq<Patch>, put: seq<PutBinary>)
    requires Ready(digest, w)
    ensures ChangedUpTo(digest, w, w.changes.changed, dependencies, patches, put)
  {
    dependencies, patches, put := [], [], [];
    var changed := w.changes.changed;
    for i := 0 to |changed|
      invariant ChangedUpTo(digest, w, changed[..i], dependencies, patches, put)
    {
      assert changed[..i + 1] == changed[..i] + [changed[i]] && changed[i] !in changed[..i] && changed[i] in changed;
      dependencies, patches, put := PlanOneChange(digest, w, changed[i], changed[..i], dependencies, patches, put);
    }
    assert changed[..|changed|] == changed;
  }

  /** The patches of one edited text, from its line diff. */
  method EditText(digest: Digest, w: Push, p: Path) returns (edits: seq<Patch>)
    requires Ready(digest, w) && IsEdited(w, p)
    ensures edits == EditsAt(digest, w, p) && edits != [] && forall x <- edits :: x.path == p
  {
    var s := w.scripts[p];
    edits := Patches(p, s.olds, s.news, s.ops);
    EditsMean(digest, w, p);
  }

  lemma {:induction false} PatchesAdded(digest: Digest, w: Push, done: seq<Path>, patches: seq<Patch>, p: Path)
    requires Ready(digest, w) && p !in done && forall x <- EditsAt(digest, w, p) :: x.path == p
    requires forall q :: PatchesAt(patches, q) == if q in done then EditsAt(digest, w, q) else []
    ensures forall q :: PatchesAt(patches + EditsAt(digest, w, p), q) == if q in done + [p] then EditsAt(digest, w, q) else []
  {
    var edits := EditsAt(digest, w, p);
    forall q
      ensures PatchesAt(patches + edits, q) == if q in done + [p] then EditsAt(digest, w, q) else []
    {
      PatchesAtConcat(patches, edits, q);
      PatchesAtOne(edits, p, q);
      assert PatchesAt(patches, q) == if q in done then EditsAt(digest, w, q) else [];
    }
  }

  method PlanOneChange(digest: Digest, w: Push, p: Path, ghost done: seq<Path>,
                       deps0: seq<Dependency>, patches0: seq<Patch>, put0: seq<PutBinary>)
    returns (deps: seq<Dependency>, patches: seq<Patch>, put: seq<PutBinary>)
    requires Ready(digest, w) && p in w.changes.changed && p !in done && ChangedUpTo(digest, w, done, deps0, patches0, put0)
    ensures ChangedUpTo(digest, w, done + [p], deps, patches, put)
  {
    deps, patches, put := deps0, patches0, put0;
    var file := w.scan.files[p];
    var edits := [];
    match file.kind {
      case Text =>
        edits := EditText(digest, w, p);
        if edits != [] {
          deps := deps0 + [Dependency(p, w.recorded[p].sha)];
          patches := patches0 + edits;
        }
      case Asset =>
        put := put0 + [PutBinary(p, file.sha, Some(w.recorded[p].sha))];
        assert patches0 + edits == patches0;
    }
    HashAdded(w, done, deps0, p);
    PutAdded(w, done, put0, p);
    PatchesAdded(digest, w, done, patches0, p);
  }

  method PlanDeleted(w: Push) returns (dependencies: seq<Dependency>, delete: seq<DeleteFile>)
    requires forall p <- w.changes.deleted :: p in w.recorded
    ensures forall d :: d in dependencies <==> d.path in w.changes.deleted && w.recorded[d.path].kind.Text?
                                                 && d.hash == w.recorded[d.path].sha
    ensures forall d :: d in delete <==> d.path in w.changes.deleted && d.want == w.recorded[d.path].sha
  {
    dependencies, delete := [], [];
    var deleted := w.changes.deleted;
    for i := 0 to |deleted|
      invariant forall d :: d in dependencies <==> d.path in deleted[..i] && w.recorded[d.path].kind.Text?
                                                     && d.hash == w.recorded[d.path].sha
      invariant forall d :: d in delete <==> d.path in deleted[..i] && d.want == w.recorded[d.path].sha
    {
      var p := deleted[i];
      assert p in deleted && deleted[..i + 1] == deleted[..i] + [p];
      if w.recorded[p].kind.Text? { dependencies := dependencies + [Dependency(p, w.recorded[p].sha)]; }
      delete := delete + [DeleteFile(p, w.recorded[p].sha)];
    }
    assert deleted[..|deleted|] == deleted;
  }

  /** `plan_change`: what to send for the paths that differ. */
  method PlanChange(digest: Digest, w: Push) returns (plan: Plan)
    requires Ready(digest, w)
    ensures PlanFor(digest, w, plan)
  {
    var create, put := PlanAdded(w);
    var dependencies, patches, again := PlanChanged(digest, w);
    var gone, delete := PlanDeleted(w);
    plan := Plan(dependencies + gone, patches, create, delete, put + again);
    EditsOnly(digest, w, patches);
    UploadsOnly(digest, w, put, again);
    HashesOnly(digest, w, dependencies, gone);
  }

  lemma {:induction false} EditsOnly(digest: Digest, w: Push, patches: seq<Patch>)
    requires Ready(digest, w)
    requires forall p :: PatchesAt(patches, p) == if p in w.changes.changed then EditsAt(digest, w, p) else []
    ensures forall p :: PatchesAt(patches, p) == if IsEdited(w, p) then EditsFor(w, p) else []
  {
    forall p
      ensures PatchesAt(patches, p) == if IsEdited(w, p) then EditsFor(w, p) else []
    {
      assert PatchesAt(patches, p) == if p in w.changes.changed then EditsAt(digest, w, p) else [];
    }
  }

  lemma {:induction false} UploadsOnly(digest: Digest, w: Push, put: seq<PutBinary>, again: seq<PutBinary>)
    requires Ready(digest, w) && PutsUpTo(w, w.changes.changed, again)
    requires forall b :: b in put <==> b.path in w.changes.added && w.scan.files[b.path].kind.Asset?
                                         && b.hash == w.scan.files[b.path].sha && b.want.None?
    ensures forall b :: b in put + again <==> IsUpload(w, b)
  {
    forall b
      ensures b in put + again <==> IsUpload(w, b)
    {
      assert b.path in w.changes.added <==> IsAdded(w.recorded, w.scan, b.path);
      assert b.path in w.changes.changed <==> IsChanged(w.recorded, w.scan, b.path);
    }
  }

  lemma {:induction false} HashesOnly(digest: Digest, w: Push, deps: seq<Dependency>, gone: seq<Dependency>)
    requires Ready(digest, w) && HashesUpTo(w, w.changes.changed, deps)
    requires forall d :: d in gone <==> d.path in w.changes.deleted && w.recorded[d.path].kind.Text?
                                          && d.hash == w.recorded[d.path].sha
    ensures forall d :: d in deps + gone <==> NeedsHash(w, d.path) && d.hash == w.recorded[d.path].sha
  {
  }
}
