/**
 * Web versions as commits, each chained on the one before. A tree maps paths
 * to modes and contents, and a commit is known by its tree, its parents and
 * its message, so the same commit made twice is one commit.
 */
module VersionChain {
  import opened Common
  import opened Utf8
  import opened SyncFiles

  type Blob = seq<Byte>

  datatype Entry = Entry(mode: string, blob: Blob)

  type Tree = map<Path, Entry>

  /** Author, date and message, as they are written into the commit. */
  datatype Meta = Meta(text: string, skipIfUnchanged: bool)

  datatype Commit = Commit(tree: Tree, parents: seq<Commit>, text: string)

  /** What the project held: its files, its texts by path and its asset bytes by digest. */
  datatype Version = Version(files: Records, texts: map<Path, Blob>, assets: map<string, Blob>)

  datatype Error = NoText(path: Path) | NoBytes(path: Path)

  type Hash = Blob -> string

  ghost predicate Unique(hash: Hash) {
    forall a, b :: hash(a) == hash(b) ==> a == b
  }

  /** The texts and assets at hand have the digests they are listed under. */
  ghost predicate VersionOk(hash: Hash, v: Version) {
    && (forall p | p in v.files && v.files[p].kind.Text? && p in v.texts :: hash(v.texts[p]) == v.files[p].sha)
    && forall sha <- v.assets :: hash(v.assets[sha]) == sha
  }

  // ------------------------------------------------------- ancestry

  /** A commit is an ancestor of itself. */
  predicate IsAncestor(a: Commit, c: Commit) {
    a == c || exists i :: 0 <= i < |c.parents| && IsAncestor(a, c.parents[i])
  }

  lemma {:induction false} AncestorTransitive(a: Commit, b: Commit, c: Commit)
    requires IsAncestor(a, b) && IsAncestor(b, c)
    ensures IsAncestor(a, c)
  {
    if b != c {
      var i :| 0 <= i < |c.parents| && IsAncestor(b, c.parents[i]);
      AncestorTransitive(a, b, c.parents[i]);
    }
  }

  lemma {:induction false} ParentIsAncestor(c: Commit, i: nat)
    requires i < |c.parents|
    ensures IsAncestor(c.parents[i], c)
  {
  }

  // ------------------------------------------------------- one version

  /** Where the chain stands. */
  datatype Place = Place(tip: Option<Commit>, known: set<Path>)

  /** A version to add; `own` is the commit this directory pushed it from, if the repository still has it. */
  datatype Call = Call(version: Version, meta: Meta, own: Option<Commit>, excluded: set<Path>)

  /** The tree to start from and the parents of the new commit. */
  function BaseOf(tip: Option<Commit>, own: Option<Commit>): Option<Commit> {
    if own.None? then tip
    else if tip.None? then own
    else if IsAncestor(own.value, tip.value) then tip
    else own
  }

  function ParentsOf(tip: Option<Commit>, own: Option<Commit>): seq<Commit> {
    if own.None? then (if tip.Some? then [tip.value] else [])
    else if tip.None? then [own.value]
    else if IsAncestor(own.value, tip.value) then [tip.value]
    else if IsAncestor(tip.value, own.value) then [own.value]
    else [tip.value, own.value]
  }

  function TreeOf(c: Option<Commit>): Tree {
    if c.Some? then c.value.tree else map[]
  }

  function EntryAt(t: Tree, p: Path): Option<Entry> {
    if p in t then Some(t[p]) else None
  }

  const EXECUTABLE := "100755"
  const REGULAR := "100644"

  /** A file that was executable stays executable. */
  function ModeAt(base: Tree, p: Path): string {
    if p in base && base[p].mode == EXECUTABLE then EXECUTABLE else REGULAR
  }

  /**
   * The tree is the version on its paths that are not excluded, lacks the
   * known paths the version dropped, and is the base everywhere else.
   */
  ghost predicate Overlays(hash: Hash, base: Tree, known: set<Path>, c: Call, tree: Tree) {
    forall p ::
      if p in c.excluded then EntryAt(tree, p) == EntryAt(base, p)
      else if p in c.version.files then
        p in tree && tree[p].mode == ModeAt(base, p) && hash(tree[p].blob) == c.version.files[p].sha
      else if p in known then p !in tree
      else EntryAt(tree, p) == EntryAt(base, p)
  }

  /** Whether the current tip is answered in place of a commit that changes nothing. */
  predicate Skips(s: Place, c: Call, tree: Tree) {
    c.meta.skipIfUnchanged && s.tip.Some? && s.tip.value.tree == tree
  }

  /** The commit for a version whose tree is `tree`. */
  function CommitFor(s: Place, c: Call, tree: Tree): Commit {
    var parents := ParentsOf(s.tip, c.own);
    if Skips(s, c, tree) then s.tip.value
    else if c.own.Some? && parents == [c.own.value] && c.own.value.tree == tree then c.own.value
    else Commit(tree, parents, c.meta.text)
  }

  function PlaceAfter(s: Place, c: Call, tree: Tree): Place {
    Place(Some(CommitFor(s, c, tree)), if Skips(s, c, tree) then s.known else s.known + (c.version.files.Keys - c.excluded))
  }

  /** Adding a version moves the chain from one place to another. */
  ghost predicate Moves(hash: Hash, s: Place, c: Call, s': Place) {
    && s'.tip.Some?
    && Overlays(hash, TreeOf(BaseOf(s.tip, c.own)), s.known, c, s'.tip.value.tree)
    && s' == PlaceAfter(s, c, s'.tip.value.tree)
  }

  lemma {:induction false} CommitHasTree(s: Place, c: Call, tree: Tree)
    ensures CommitFor(s, c, tree).tree == tree
  {
  }

  /** The new tip descends from the old one. */
  lemma {:induction false} TipMovesForward(s: Place, c: Call, tree: Tree)
    requires s.tip.Some?
    ensures IsAncestor(s.tip.value, CommitFor(s, c, tree))
  {
    var made := Commit(tree, ParentsOf(s.tip, c.own), c.meta.text);
    ParentIsAncestor(made, 0);
    if c.own.Some? && ParentsOf(s.tip, c.own) == [c.own.value] {
      AncestorTransitive(s.tip.value, c.own.value, made);
    }
  }

  lemma {:induction false} MadeDescendsFromOwn(s: Place, c: Call, tree: Tree)
    requires c.own.Some?
    ensures IsAncestor(c.own.value, Commit(tree, ParentsOf(s.tip, c.own), c.meta.text))
  {
    var made := Commit(tree, ParentsOf(s.tip, c.own), c.meta.text);
    ParentIsAncestor(made, |made.parents| - 1);
    if made.parents[|made.parents| - 1] != c.own.value {
      AncestorTransitive(c.own.value, s.tip.value, made);
    }
  }

  /**
   * The new tip descends from the pushed commit exactly when the call does
   * not answer with an unchanged tip that the pushed commit is no ancestor of.
   */
  lemma {:induction false} TipHoldsOwn(s: Place, c: Call, tree: Tree)
    requires c.own.Some?
    ensures IsAncestor(c.own.value, CommitFor(s, c, tree)) <==>
            !(Skips(s, c, tree) && !IsAncestor(c.own.value, s.tip.value))
  {
    MadeDescendsFromOwn(s, c, tree);
  }

  /** The case that does not descend: a skipped version with a pushed commit beside the chain. */
  lemma {:induction false} SkippedOwnIsLeftBehind()
    ensures var tip, own := Commit(map[], [], "tip"), Commit(map[], [], "own");
            var s := Place(Some(tip), {});
            var c := Call(Version(map[], map[], map[]), Meta("", true), Some(own), {});
            && (forall hash :: Moves(hash, s, c, PlaceAfter(s, c, map[])))
            && !IsAncestor(own, CommitFor(s, c, map[]))
  {
    var tip, own := Commit(map[], [], "tip"), Commit(map[], [], "own");
    assert tip.text != own.text;
    assert !IsAncestor(own, tip);
  }

  // ------------------------------------------------------- whose files survive

  /** A pushed commit that the chain has not taken in yet. */
  predicate OwnIsNew(s: Place, c: Call) {
    c.own.Some? && (s.tip.None? || !IsAncestor(c.own.value, s.tip.value))
  }

  /** The entry the repository held: the pushed commit's where it is new, and the tip's otherwise. */
  function Held(s: Place, c: Call, p: Path): Option<Entry> {
    if OwnIsNew(s, c) then EntryAt(c.own.value.tree, p)
    else if s.tip.Some? then EntryAt(s.tip.value.tree, p)
    else None
  }

  /**
   * What a version does to every path: one it does not name, nor ever named,
   * and one kept out of the sync hold what the repository held; its own files
   * hold its contents, executable exactly where the repository's were; and the
   * files it dropped are gone.
   */
  lemma {:induction false} RepositorySurvives(hash: Hash, s: Place, c: Call, s': Place, p: Path)
    requires Moves(hash, s, c, s')
    ensures var tree, held := s'.tip.value.tree, Held(s, c, p);
            if p in c.excluded || (p !in c.version.files && p !in s.known) then EntryAt(tree, p) == held
            else if p in c.version.files then
              && p in tree && hash(tree[p].blob) == c.version.files[p].sha
              && tree[p].mode == if held.Some? && held.value.mode == "100755" then "100755" else "100644"
            else p !in tree
  {
  }

  /** The pushed commit already holds the version: its files with their contents, and none it dropped. */
  ghost predicate HoldsVersion(hash: Hash, tree: Tree, known: set<Path>, c: Call) {
    forall p :: p !in c.excluded ==>
      if p in c.version.files then
        p in tree && tree[p].mode in {"100755", "100644"} && hash(tree[p].blob) == c.version.files[p].sha
      else p in known ==> p !in tree
  }

  /** A pushed commit ahead of the chain that already holds the version is the version's commit. */
  lemma {:induction false} PushedIsAdopted(hash: Hash, s: Place, c: Call, s': Place)
    requires Unique(hash) && Moves(hash, s, c, s') && c.own.Some?
    requires s.tip.None? || IsAncestor(s.tip.value, c.own.value)
    requires HoldsVersion(hash, c.own.value.tree, s.known, c)
    ensures s'.tip == Some(c.own.value) <==>
            !(c.meta.skipIfUnchanged && s.tip.Some? && s.tip != c.own && s.tip.value.tree == c.own.value.tree)
  {
    var own := c.own.value;
    if s.tip.Some? && IsAncestor(own, s.tip.value) { AncestorsOfEachOther(own, s.tip.value); }
    assert Overlays(hash, own.tree, s.known, c, own.tree);
    SameTree(hash, own.tree, s.known, c, own.tree, s'.tip.value.tree);
  }

  ghost function Depth(c: Commit): nat {
    1 + ParentsDepth(c.parents)
  }

  ghost function ParentsDepth(parents: seq<Commit>): nat {
    if parents == [] then 0
    else
      var d, rest := Depth(parents[0]), ParentsDepth(parents[1..]);
      if d > rest then d else rest
  }

  lemma {:induction false} ParentIsShallower(parents: seq<Commit>, i: nat)
    requires i < |parents|
    ensures Depth(parents[i]) <= ParentsDepth(parents)
  {
    if i > 0 { ParentIsShallower(parents[1..], i - 1); }
  }

  lemma {:induction false} AncestorIsShallower(a: Commit, c: Commit)
    requires IsAncestor(a, c)
    ensures a == c || Depth(a) < Depth(c)
  {
    if a != c {
      var i :| 0 <= i < |c.parents| && IsAncestor(a, c.parents[i]);
      AncestorIsShallower(a, c.parents[i]);
      ParentIsShallower(c.parents, i);
    }
  }

  /** History has no cycles. */
  lemma {:induction false} AncestorsOfEachOther(a: Commit, b: Commit)
    requires IsAncestor(a, b) && IsAncestor(b, a)
    ensures a == b
  {
    AncestorIsShallower(a, b);
    AncestorIsShallower(b, a);
  }

  /**
   * A commit that is made has as parents exactly the newest of the tip and the
   * pushed commit: each of the two is an ancestor of a parent, and no parent is
   * an ancestor of another. The chain comes first.
   */
  lemma {:induction false} ParentsAreNewest(hash: Hash, s: Place, c: Call, s': Place)
    requires Moves(hash, s, c, s') && s'.tip != s.tip && s'.tip != c.own
    ensures var made := s'.tip.value;
            && made.text == c.meta.text
            && (forall q <- made.parents :: Some(q) == s.tip || Some(q) == c.own)
            && (s.tip.Some? ==> exists q <- made.parents :: IsAncestor(s.tip.value, q))
            && (c.own.Some? ==> exists q <- made.parents :: IsAncestor(c.own.value, q))
            && (forall i, j :: 0 <= i < j < |made.parents| ==>
                  && !IsAncestor(made.parents[i], made.parents[j]) && !IsAncestor(made.parents[j], made.parents[i])
                  && Some(made.parents[i]) == s.tip)
  {
    var parents := ParentsOf(s.tip, c.own);
    assert s'.tip.value == Commit(s'.tip.value.tree, parents, c.meta.text);
    if s.tip.Some? { assert exists q <- parents :: IsAncestor(s.tip.value, q) by { assert parents[0] in parents; } }
    if c.own.Some? { assert parents[|parents| - 1] in parents && IsAncestor(c.own.value, parents[|parents| - 1]); }
  }

  // ------------------------------------------------------- every sequence of versions

  ghost predicate IsRun(hash: Hash, places: seq<Place>, calls: seq<Call>) {
    && |places| == |calls| + 1
    && forall i :: 0 <= i < |calls| ==> Moves(hash, places[i], calls[i], places[i + 1])
  }

  /** Callers skip an unchanged version only where there is no pushed commit. */
  predicate SkipsWithoutOwn(c: Call) {
    c.meta.skipIfUnchanged ==> c.own.None?
  }

  /** Over every sequence of versions, a later tip descends from an earlier one. */
  lemma {:induction false} ChainMovesForward(hash: Hash, places: seq<Place>, calls: seq<Call>, i: nat, j: nat)
    requires IsRun(hash, places, calls) && i <= j <= |calls| && places[i].tip.Some?
    ensures places[j].tip.Some? && IsAncestor(places[i].tip.value, places[j].tip.value)
    decreases j - i
  {
    if i < j {
      ChainMovesForward(hash, places, calls, i, j - 1);
      var s, c, s' := places[j - 1], calls[j - 1], places[j - 1 + 1];
      assert Moves(hash, s, c, s');
      TipMovesForward(s, c, s'.tip.value.tree);
      AncestorTransitive(places[i].tip.value, s.tip.value, s'.tip.value);
    }
  }

  /** And from every pushed commit it was given on the way. */
  lemma {:induction false} ChainHoldsEveryPush(hash: Hash, places: seq<Place>, calls: seq<Call>, i: nat, j: nat)
    requires IsRun(hash, places, calls) && i < j <= |calls| && SkipsWithoutOwn(calls[i]) && calls[i].own.Some?
    ensures places[j].tip.Some? && IsAncestor(calls[i].own.value, places[j].tip.value)
  {
    var s, c, s' := places[i], calls[i], places[i + 1];
    assert Moves(hash, s, c, s');
    TipHoldsOwn(s, c, s'.tip.value.tree);
    ChainMovesForward(hash, places, calls, i + 1, j);
    AncestorTransitive(c.own.value, s'.tip.value, places[j].tip.value);
  }

  lemma {:induction false} KnownStays(hash: Hash, places: seq<Place>, calls: seq<Call>, i: nat, j: nat)
    requires IsRun(hash, places, calls) && i <= j <= |calls|
    ensures places[i].known <= places[j].known
    decreases j - i
  {
    if i < j {
      KnownStays(hash, places, calls, i, j - 1);
      assert Moves(hash, places[j - 1], calls[j - 1], places[j - 1 + 1]);
    }
  }

  /** Adding a version makes its files known, unless the unchanged tip was answered. */
  lemma {:induction false} VersionBecomesKnown(hash: Hash, s: Place, c: Call, s': Place, p: Path)
    requires Moves(hash, s, c, s')
    ensures p in s'.known <==>
            p in s.known || (!Skips(s, c, s'.tip.value.tree) && p in c.version.files && p !in c.excluded)
  {
  }

  /**
   * Over every sequence of versions, a file some version brought and a later
   * one dropped is not in the later tip.
   */
  lemma {:induction false} DroppedIsGone(hash: Hash, places: seq<Place>, calls: seq<Call>, i: nat, j: nat, p: Path)
    requires IsRun(hash, places, calls) && i < j < |calls|
    requires p in calls[i].version.files && p !in calls[i].excluded
    requires !calls[i].meta.skipIfUnchanged || places[i + 1].tip != places[i].tip
    requires p !in calls[j].version.files && p !in calls[j].excluded
    ensures places[j + 1].tip.Some? && p !in places[j + 1].tip.value.tree
  {
    assert Moves(hash, places[i], calls[i], places[i + 1]);
    VersionBecomesKnown(hash, places[i], calls[i], places[i + 1], p);
    KnownStays(hash, places, calls, i + 1, j);
    assert Moves(hash, places[j], calls[j], places[j + 1]);
    RepositorySurvives(hash, places[j], calls[j], places[j + 1], p);
  }

  /**
   * Over every sequence of versions, a file of the repository that the project
   * never held is never lost nor changed: if the tip and every pushed commit
   * given on the way hold it as it is, so does every later tip.
   */
  lemma {:induction false} RepositoryFileStays(hash: Hash, places: seq<Place>, calls: seq<Call>, i: nat, j: nat,
                                               p: Path, e: Option<Entry>)
    requires IsRun(hash, places, calls) && i <= j <= |calls|
    requires places[i].tip.Some? && EntryAt(places[i].tip.value.tree, p) == e && p !in places[i].known
    requires forall k :: i <= k < j ==> p in calls[k].excluded || p !in calls[k].version.files
    requires forall k :: i <= k < j && calls[k].own.Some? ==> EntryAt(calls[k].own.value.tree, p) == e
    ensures places[j].tip.Some? && EntryAt(places[j].tip.value.tree, p) == e && p !in places[j].known
    decreases j - i
  {
    if i < j {
      RepositoryFileStays(hash, places, calls, i, j - 1, p, e);
      assert Moves(hash, places[j - 1], calls[j - 1], places[j - 1 + 1]);
      RepositorySurvives(hash, places[j - 1], calls[j - 1], places[j], p);
      VersionBecomesKnown(hash, places[j - 1], calls[j - 1], places[j], p);
    }
  }

  lemma {:induction false} SameTree(hash: Hash, base: Tree, known: set<Path>, c: Call, a: Tree, b: Tree)
    requires Unique(hash) && Overlays(hash, base, known, c, a) && Overlays(hash, base, known, c, b)
    ensures a == b
  {
    forall p
      ensures EntryAt(a, p) == EntryAt(b, p)
    {
      if p !in c.excluded && p in c.version.files {
        assert hash(a[p].blob) == hash(b[p].blob);
      }
    }
    assert a.Keys == b.Keys by {
      forall p ensures p in a <==> p in b { assert EntryAt(a, p) == EntryAt(b, p); }
    }
    forall p | p in a ensures a[p] == b[p] { assert EntryAt(a, p) == EntryAt(b, p); }
  }

  /** Fetching twice cannot make two histories. */
  lemma {:induction false} SameVersionsSameChain(hash: Hash, a: seq<Place>, b: seq<Place>, calls: seq<Call>, j: nat)
    requires Unique(hash) && IsRun(hash, a, calls) && IsRun(hash, b, calls) && a[0] == b[0] && j <= |calls|
    ensures a[j] == b[j]
  {
    if j > 0 {
      SameVersionsSameChain(hash, a, b, calls, j - 1);
      var s, c := a[j - 1], calls[j - 1];
      assert Moves(hash, s, c, a[j - 1 + 1]) && Moves(hash, s, c, b[j - 1 + 1]);
      SameTree(hash, TreeOf(BaseOf(s.tip, c.own)), s.known, c, a[j].tip.value.tree, b[j].tip.value.tree);
    }
  }

  // ------------------------------------------------------- as it runs

  function ContentOf(v: Version, p: Path): Option<Blob>
    requires p in v.files
  {
    match v.files[p].kind
    case Text => if p in v.texts then Some(v.texts[p]) else None
    case Asset => if v.files[p].sha in v.assets then Some(v.assets[v.files[p].sha]) else None
  }

  /** The digests written once the paths in `met` were. */
  function WrittenAfter(c: Call, cached: set<string>, met: seq<Path>): set<string>
    requires forall p <- met :: p in c.version.files
  {
    cached + set p | p in met && p !in c.excluded :: c.version.files[p].sha
  }

  /** A file that is not at hand, whose digest was not written before this version nor before this path. */
  predicate Missing(c: Call, cached: set<string>, order: seq<Path>, i: nat)
    requires i < |order| && forall p <- order :: p in c.version.files
  {
    && order[i] !in c.excluded && ContentOf(c.version, order[i]).None?
    && c.version.files[order[i]].sha !in WrittenAfter(c, cached, order[..i])
  }

  ghost predicate Blobs(hash: Hash, blobs: map<string, Blob>) {
    forall sha <- blobs :: hash(blobs[sha]) == sha
  }

  /** The entries found for the paths met so far. */
  ghost predicate EntriesOk(hash: Hash, c: Call, entries: map<Path, Blob>, met: seq<Path>) {
    && (forall p :: p in entries <==> p in met && p !in c.excluded)
    && forall p | p in entries && p in c.version.files :: hash(entries[p]) == c.version.files[p].sha
  }

  lemma {:induction false} EntryFound(hash: Hash, c: Call, entries: map<Path, Blob>, met: seq<Path>, p: Path,
                                      blob: Blob)
    requires EntriesOk(hash, c, entries, met) && p in c.version.files && p !in c.excluded && hash(blob) == c.version.files[p].sha
    ensures EntriesOk(hash, c, entries[p := blob], met + [p])
  {
  }

  lemma {:induction false} WrittenOne(c: Call, cached: set<string>, met: seq<Path>, p: Path)
    requires forall q <- met :: q in c.version.files
    requires p in c.version.files
    ensures WrittenAfter(c, cached, met + [p]) ==
            WrittenAfter(c, cached, met) + if p in c.excluded then {} else {c.version.files[p].sha}
  {
    var before, after := WrittenAfter(c, cached, met), WrittenAfter(c, cached, met + [p]);
    assert p in met + [p];
    forall sha | sha in before ensures sha in after {
      if sha !in cached {
        var q :| q in met && q !in c.excluded && c.version.files[q].sha == sha;
        assert q in met + [p];
      }
    }
  }

  class Chain {
    const hash: Hash
    var tip: Option<Commit>
    var known: set<Path>
    var blobs: map<string, Blob>

    ghost predicate Valid()
      reads this
    {
      Blobs(hash, blobs)
    }

    function Where(): Place
      reads this
    {
      Place(tip, known)
    }

    constructor (hash: Hash, tip: Option<Commit>, known: set<Path>)
      ensures Valid() && Where() == Place(tip, known) && this.hash == hash && blobs == map[]
    {
      this.hash, this.tip, this.known, blobs := hash, tip, known, map[];
    }

    /** The blob for a file's content, written once however many versions and paths hold it. */
    method BlobOf(v: Version, p: Path) returns (r: Result<Blob, Error>)
      requires Valid() && VersionOk(hash, v) && p in v.files
      modifies this`blobs
      ensures Valid()
      ensures r.Ok? <==> v.files[p].sha in old(blobs) || ContentOf(v, p).Some?
      ensures r.Ok? ==> hash(r.value) == v.files[p].sha && blobs == old(blobs)[v.files[p].sha := r.value]
      ensures v.files[p].sha in old(blobs) ==> blobs == old(blobs)
      ensures r.Err? ==> blobs == old(blobs) && r.error == if v.files[p].kind.Text? then NoText(p) else NoBytes(p)
    {
      var record := v.files[p];
      if record.sha in blobs { return Ok(blobs[record.sha]); }
      match record.kind {
        case Text => if p !in v.texts { return Err(NoText(p)); }
        case Asset => if record.sha !in v.assets { return Err(NoBytes(p)); }
      }
      var bytes := if record.kind.Text? then v.texts[p] else v.assets[record.sha];
      blobs := blobs[record.sha := bytes];
      r := Ok(bytes);
    }

    method AddEntry(c: Call, p: Path, entries: map<Path, Blob>, ghost met: seq<Path>, ghost cached: set<string>)
      returns (r: Result<map<Path, Blob>, Error>)
      requires Valid() && VersionOk(hash, c.version) && p in c.version.files && forall q <- met :: q in c.version.files
      requires EntriesOk(hash, c, entries, met) && blobs.Keys == WrittenAfter(c, cached, met)
      modifies this`blobs
      ensures Valid()
      ensures r.Err? <==>
              p !in c.excluded && ContentOf(c.version, p).None? && c.version.files[p].sha !in WrittenAfter(c, cached, met)
      ensures r.Ok? ==> EntriesOk(hash, c, r.value, met + [p]) && blobs.Keys == WrittenAfter(c, cached, met + [p])
    {
      WrittenOne(c, cached, met, p);
      if p in c.excluded { return Ok(entries); }
      var blob := BlobOf(c.version, p);
      if blob.Err? { return Err(blob.error); }
      EntryFound(hash, c, entries, met, p, blob.value);
      r := Ok(entries[p := blob.value]);
    }

    /** The blobs of a version's files, or the first file whose content is missing. */
    method Entries(c: Call, order: seq<Path>) returns (r: Result<map<Path, Blob>, Error>)
      requires Valid() && VersionOk(hash, c.version) && forall p <- order :: p in c.version.files
      modifies this`blobs
      ensures Valid()
      ensures r.Err? <==> exists i :: 0 <= i < |order| && Missing(c, old(blobs).Keys, order, i)
      ensures r.Ok? ==> EntriesOk(hash, c, r.value, order)
    {
      var entries: map<Path, Blob> := map[];
      ghost var cached := blobs.Keys;
      assert WrittenAfter(c, cached, order[..0]) == cached;
      for i := 0 to |order|
        invariant Valid() && EntriesOk(hash, c, entries, order[..i])
        invariant blobs.Keys == WrittenAfter(c, cached, order[..i])
        invariant forall j :: 0 <= j < i ==> !Missing(c, cached, order, j)
      {
        assert order[..i + 1] == order[..i] + [order[i]];
        var next := AddEntry(c, order[i], entries, order[..i], cached);
        assert next.Err? <==> Missing(c, cached, order, i);
        if next.Err? { return next; }
        entries := next.value;
      }
      assert order[..|order|] == order;
      r := Ok(entries);
    }

    /** The paths to take out: known ones that the version does not hold. */
    method Removals(c: Call, order: seq<Path>) returns (removals: seq<Path>)
      requires Lists(order, known)
      ensures forall p :: p in removals <==> p in known && p !in c.version.files && p !in c.excluded
    {
      removals := [];
      for i := 0 to |order|
        invariant forall p :: p in removals <==> p in order[..i] && p !in c.version.files && p !in c.excluded
      {
        assert order[..i + 1] == order[..i] + [order[i]];
        if order[i] !in c.version.files && order[i] !in c.excluded { removals := removals + [order[i]]; }
      }
      assert order[..|order|] == order;
    }

    /**
     * Adds the commit for one version and moves the tip to it. `has` says
     * whether the repository holds the commit this directory pushed.
     */
    method Add(c0: Call, has: bool, order: seq<Path>, knownOrder: seq<Path>) returns (r: Result<Commit, Error>)
      requires Valid() && VersionOk(hash, c0.version) && Lists(order, c0.version.files.Keys) && Lists(knownOrder, known)
      modifies this
      ensures Valid()
      ensures r.Err? <==> exists i :: 0 <= i < |order| && Missing(c0, old(blobs).Keys, order, i)
      ensures r.Err? ==> Where() == old(Where())
      ensures r.Ok? ==> Moves(hash, old(Where()), if has then c0 else c0.(own := None), Where()) && tip == Some(r.value)
    {
      var found := Entries(c0, order);
      if found.Err? { return Err(found.error); }
      var removals := Removals(c0, knownOrder);
      var c := if has then c0 else c0.(own := None);
      var base, parents := BaseOf(tip, c.own), ParentsOf(tip, c.own);
      var tree := Overlay(TreeOf(base), found.value, order, removals);
      OverlayMeans(hash, TreeOf(base), known, c, found.value, order, removals, tree);
      CommitHasTree(Where(), c, tree);
      if c.meta.skipIfUnchanged && tip.Some? && tip.value.tree == tree { return Ok(tip.value); }
      var adopted := c.own.Some? && |parents| == 1 && parents[0] == c.own.value && c.own.value.tree == tree;
      var commit := if adopted then c.own.value else Commit(tree, parents, c.meta.text);
      tip := Some(commit);
      known := known + (c.version.files.Keys - c.excluded);
      r := Ok(commit);
    }
  }

  /** The removals taken out of the base, and the entries written over it. */
  ghost predicate Edited(base: Tree, entries: map<Path, Blob>, removals: seq<Path>, tree: Tree) {
    forall p :: EntryAt(tree, p) ==
      if p in entries then Some(Entry(ModeAt(base, p), entries[p]))
      else if p in removals then None
      else EntryAt(base, p)
  }

  /** The tree of `base` with `removals` taken out and `entries` written over it. */
  method Overlay(base: Tree, entries: map<Path, Blob>, order: seq<Path>, removals: seq<Path>) returns (tree: Tree)
    requires forall p <- entries :: p in order
    ensures Edited(base, entries, removals, tree)
  {
    tree := base;
    for i := 0 to |removals|
      invariant forall p :: EntryAt(tree, p) == if p in removals[..i] then None else EntryAt(base, p)
    {
      assert removals[..i + 1] == removals[..i] + [removals[i]];
      tree := tree - {removals[i]};
    }
    assert removals[..|removals|] == removals;
    for i := 0 to |order|
      invariant WrittenUpTo(base, entries, removals, order[..i], tree)
    {
      var p := order[i];
      assert order[..i + 1] == order[..i] + [p];
      if p in entries { tree := tree[p := Entry(ModeAt(base, p), entries[p])]; }
    }
    assert order[..|order|] == order;
  }

  ghost predicate WrittenUpTo(base: Tree, entries: map<Path, Blob>, removals: seq<Path>, met: seq<Path>, tree: Tree) {
    forall p :: EntryAt(tree, p) ==
      if p in entries && p in met then Some(Entry(ModeAt(base, p), entries[p]))
      else if p in removals then None
      else EntryAt(base, p)
  }

  lemma {:induction false} OverlayMeans(hash: Hash, base: Tree, known: set<Path>, c: Call, entries: map<Path, Blob>,
                                        order: seq<Path>, removals: seq<Path>, tree: Tree)
    requires Lists(order, c.version.files.Keys) && EntriesOk(hash, c, entries, order) && Edited(base, entries, removals, tree)
    requires forall p :: p in removals <==> p in known && p !in c.version.files && p !in c.excluded
    ensures Overlays(hash, base, known, c, tree)
  {
    forall p
      ensures p in entries <==> p in c.version.files && p !in c.excluded
      ensures EntryAt(tree, p) == if p in entries then Some(Entry(ModeAt(base, p), entries[p]))
                                  else if p in removals then None else EntryAt(base, p)
    {
    }
  }
}
