/** The files a directory and a project agree on, and how a directory differs. */
module SyncFiles {
  import opened Common
  import opened Utf8
  import opened LineEnding

  type Path = string

  datatype Kind = Text | Asset

  /** One synced file as last pulled or pushed. */
  datatype FileRecord = FileRecord(kind: Kind, sha: string)

  type Records = map<Path, FileRecord>

  function ShaIn(files: Records, p: Path): Option<string> {
    if p in files then Some(files[p].sha) else None
  }

  function RecordIn(files: Records, p: Path): Option<FileRecord> {
    if p in files then Some(files[p]) else None
  }

  /** Every element once. */
  predicate Lists<T(==)>(s: seq<T>, all: set<T>) {
    && (forall x <- s :: x in all) && (forall x <- all :: x in s)
    && forall i, j :: 0 <= i < j < |s| ==> s[i] != s[j]
  }

  // ------------------------------------------------------- what the scan sees

  /** One file as the scan saw it; `text` is the LF text of a text file. */
  datatype Local = Local(kind: Kind, sha: string, text: Str)

  type Digest = Str -> string

  ghost predicate Injective(digest: Digest) {
    forall a, b :: digest(a) == digest(b) ==> a == b
  }

  /** `local_of` for a text file: line endings are normalised before the hash is taken. */
  function ScanText(digest: Digest, content: Str): Local {
    var text := Normalise(content);
    Local(Text, digest(text), text)
  }

  /** What a pull writes for a text file: the web's text in the file's own ending. */
  function Written(text: Str, existing: Option<seq<Byte>>): Str {
    Apply(if existing.Some? then Detect(existing.value) else Lf, text)
  }

  /** A pulled text rescans to the hash of the web's text, whatever the file held before. */
  lemma {:induction false} PulledTextRescans(digest: Digest, text: Str, existing: Option<seq<Byte>>)
    requires CR !in text
    ensures ScanText(digest, Written(text, existing)) == Local(Text, digest(text), text)
  {
    NormaliseApply(if existing.Some? then Detect(existing.value) else Lf, text);
  }

  /** A text file with a line break keeps its line ending through a pull. */
  lemma {:induction false} PullKeepsEnding(text: Str, existing: seq<Byte>)
    requires CR !in text && LF in text
    ensures Detect(Bytes(Written(text, Some(existing)))) == Detect(existing)
  {
    DetectApply(Detect(existing), text);
  }

  // ------------------------------------------------------- excluding and comparing

  /** An entry names a file, or a directory and everything in it. */
  predicate Excluded(p: Path, exclude: seq<Path>) {
    exists e <- exclude :: p == e || (e <= p && |e| < |p| && p[|e|] == '/')
  }

  /** The path is the entry, or `below` it as a directory. */
  predicate AtOrBelow(p: Path, e: Path, below: Path) {
    p == e || p == e + "/" + below
  }

  /** What an entry excludes: the path itself, and every path below it as a directory. */
  lemma {:induction false} ExcludedMeans(p: Path, exclude: seq<Path>)
    ensures Excluded(p, exclude) <==> exists e <- exclude, below :: AtOrBelow(p, e, below)
  {
    if Excluded(p, exclude) {
      var e :| e in exclude && (p == e || (e <= p && |e| < |p| && p[|e|] == '/'));
      var below := if p == e then "" else p[|e| + 1..];
      assert p != e ==> p == e + "/" + below;
      assert AtOrBelow(p, e, below);
    }
    if e, below :| e in exclude && AtOrBelow(p, e, below) {
      assert p != e ==> e <= p && p[|e|] == '/';
    }
  }

  /** A scan: the files it lists, the paths left out on disk, and what it was asked to leave out. */
  datatype Scan = Scan(files: map<Path, Local>, leftOut: set<Path>, exclude: seq<Path>)

  datatype Changes = Changes(added: seq<Path>, changed: seq<Path>, deleted: seq<Path>)

  predicate IsAdded(recorded: Records, s: Scan, p: Path) {
    p in s.files && p !in recorded
  }

  predicate IsChanged(recorded: Records, s: Scan, p: Path) {
    p in s.files && p in recorded && recorded[p].sha != s.files[p].sha
  }

  /** Gone from the directory, and not merely left out of the sync. */
  predicate IsDeleted(recorded: Records, s: Scan, p: Path) {
    p in recorded && p !in s.files && p !in s.leftOut && !Excluded(p, s.exclude)
  }

  predicate Distinct<T(==)>(s: seq<T>) {
    forall i, j :: 0 <= i < j < |s| ==> s[i] != s[j]
  }

  /** The lists name exactly the paths that are new, different or gone, each once. */
  ghost predicate Compares(recorded: Records, s: Scan, c: Changes) {
    && Distinct(c.added) && Distinct(c.changed) && Distinct(c.deleted)
    && (forall p :: p in c.added <==> IsAdded(recorded, s, p))
    && (forall p :: p in c.changed <==> IsChanged(recorded, s, p))
    && forall p :: p in c.deleted <==> IsDeleted(recorded, s, p)
  }

  /** `compare`, walking the scanned and the recorded paths in their order. */
  method Compare(recorded: Records, s: Scan, scanned: seq<Path>, known: seq<Path>) returns (c: Changes)
    requires Lists(scanned, s.files.Keys) && Lists(known, recorded.Keys)
    ensures Compares(recorded, s, c)
  {
    var added, changed := NewAndDifferent(recorded, s, scanned);
    var deleted := Gone(recorded, s, known);
    c := Changes(added, changed, deleted);
  }

  method NewAndDifferent(recorded: Records, s: Scan, scanned: seq<Path>) returns (added: seq<Path>, changed: seq<Path>)
    requires Lists(scanned, s.files.Keys)
    ensures Distinct(added) && Distinct(changed)
    ensures forall p :: p in added <==> IsAdded(recorded, s, p)
    ensures forall p :: p in changed <==> IsChanged(recorded, s, p)
  {
    added, changed := [], [];
    for i := 0 to |scanned|
      invariant Distinct(added) && Distinct(changed)
      invariant forall p :: p in added <==> p in scanned[..i] && IsAdded(recorded, s, p)
      invariant forall p :: p in changed <==> p in scanned[..i] && IsChanged(recorded, s, p)
    {
      var p := scanned[i];
      assert scanned[..i + 1] == scanned[..i] + [p] && p !in scanned[..i];
      if p !in recorded {
        added := added + [p];
      } else if recorded[p].sha != s.files[p].sha {
        changed := changed + [p];
      }
    }
    assert scanned[..|scanned|] == scanned;
  }

  method Gone(recorded: Records, s: Scan, known: seq<Path>) returns (deleted: seq<Path>)
    requires Lists(known, recorded.Keys)
    ensures Distinct(deleted) && forall p :: p in deleted <==> IsDeleted(recorded, s, p)
  {
    deleted := [];
    for i := 0 to |known|
      invariant Distinct(deleted)
      invariant forall p :: p in deleted <==> p in known[..i] && IsDeleted(recorded, s, p)
    {
      var p := known[i];
      assert known[..i + 1] == known[..i] + [p] && p !in known[..i];
      if p !in s.files && p !in s.leftOut && !Excluded(p, s.exclude) {
        deleted := deleted + [p];
      }
    }
    assert known[..|known|] == known;
  }
}
