/**
 * Phase 2 of the planner: an insertion re-pins the anchors whose text it
 * brings back, and rejoins the ends that were cut from attached anchors.
 */
module AnchorRepin {
  import opened Common
  import opened Utf16
  import opened SessionMemory
  import opened AnchorEdits

  /** A file of the operation after phase 1. */
  datatype Work = Work(fileId: string, after: Text, anchors: seq<Planned>, inserts: seq<Insertion>)

  /** One piece put back: by which insertion and claim, and where it starts. */
  datatype Application = Application(work: nat, insertion: nat, claim: Span, key: nat, held: Held, from: int)

  // ------------------------------------------------------- one piece

  function IndexOfId(ps: seq<Planned>, id: string): (r: Option<nat>)
    ensures r.Some? ==> r.value < |ps| && ps[r.value].a.id == id
    ensures r.None? ==> forall p <- ps :: p.a.id != id
  {
    if ps == [] then None
    else if ps[0].a.id == id then Some(0)
    else
      var r := IndexOfId(ps[1..], id);
      if r.None? then None else Some(r.value + 1)
  }

  function OwnerOf(works: seq<Work>, id: string): (r: Option<nat>)
    ensures r.Some? ==> r.value < |works| && IndexOfId(works[r.value].anchors, id).Some?
    ensures r.None? ==> forall w <- works :: IndexOfId(w.anchors, id).None?
  {
    if works == [] then None
    else if IndexOfId(works[0].anchors, id).Some? then Some(0)
    else
      var r := OwnerOf(works[1..], id);
      if r.None? then None else Some(r.value + 1)
  }

  function RemoveAt<T>(s: seq<T>, k: nat): seq<T>
    requires k < |s|
  {
    s[..k] + s[k + 1..]
  }

  function WithAnchors(works: seq<Work>, w: nat, ps: seq<Planned>): seq<Work>
    requires w < |works|
  {
    works[w := works[w].(anchors := ps)]
  }

  function PinnedAt(p: Planned, fileId: string, from: int, to: int, movedFrom: Option<string>): Planned {
    Planned(p.a.(file := fileId, from := from, to := to, detached := false, fragment := None, offset := None,
                 length := None, collapsed := false, unresolved := false),
            true, true, p.moved, movedFrom)
  }

  function RejoinedAt(p: Planned, side: Side, from: int, to: int): Planned {
    p.(a := if side.Head? then p.a.(from := from) else p.a.(to := to), isSet := true, touched := true)
  }

  /** The edge an attached anchor lost a piece from is where the piece landed. */
  predicate AtEdge(a: Anchor, side: Side, from: int, to: int) {
    if side.Head? then to == a.from else from == a.to
  }

  /** The files after one held piece, or nothing when the piece does not apply. */
  function ApplyPiece(works: seq<Work>, w: nat, from: int, h: Held): Option<seq<Work>>
    requires w < |works|
  {
    var to := from + |h.text|;
    var o := OwnerOf(works, h.id);
    if h.text == [] || o.None? || from < 0 then None
    else
      var owner := o.value;
      var index := IndexOfId(works[owner].anchors, h.id).value;
      var p := works[owner].anchors[index];
      if !OccursAt(works[w].after, h.text, from) then None
      else if !h.side.Whole? then
        if !Attached(p.a) || owner != w || !AtEdge(p.a, h.side, from, to) then None
        else Some(WithAnchors(works, w, works[w].anchors[index := RejoinedAt(p, h.side, from, to)]))
      else if Attached(p.a) || p.a.length.None? then None
      else
        var q := PinnedAt(p, works[w].fileId, from, to,
                          if owner != w then Some(works[owner].fileId) else p.movedFrom);
        var out := WithAnchors(works, owner, RemoveAt(works[owner].anchors, index));
        Some(WithAnchors(out, w, out[w].anchors + [q]))
  }

  // ------------------------------------------------------- the whole phase

  datatype Repin = Repin(works: seq<Work>, memory: Memory, log: seq<Application>)

  function ClaimOf(hit: Hit): Span {
    Span(hit.at, hit.at + |hit.entry.text|)
  }

  /** Where a hit in insertion `k` of file `w` puts one of its pieces. */
  function Landing(w: nat, k: nat, ins: Insertion, hit: Hit, h: Held): Application {
    Application(w, k, ClaimOf(hit), hit.entry.key, h, ins.at + hit.at + hit.shift + h.offset)
  }

  function ApplyPieces(r: Repin, w: nat, k: nat, ins: Insertion, hit: Hit, held: seq<Held>): (r': Repin)
    requires w < |r.works|
    ensures |r'.works| == |r.works|
    decreases held
  {
    if held == [] then r
    else
      var x := Landing(w, k, ins, hit, held[0]);
      var next := ApplyPiece(r.works, w, x.from, held[0]);
      ApplyPieces(if next.Some? then Repin(next.value, r.memory, r.log + [x]) else r, w, k, ins, hit, held[1..])
  }

  /** The pieces of one hit in turn; an entry that applied leaves the memory. */
  function AfterHit(r: Repin, w: nat, k: nat, ins: Insertion, hit: Hit): (r': Repin)
    requires w < |r.works|
    ensures |r'.works| == |r.works|
  {
    var r' := ApplyPieces(r, w, k, ins, hit, hit.entry.held);
    if r'.log == r.log then r' else r'.(memory := Dropped(r'.memory, hit.entry.key))
  }

  function ClaimedAfter(r: Repin, w: nat, k: nat, ins: Insertion, hit: Hit, claimed: seq<Span>): seq<Span>
    requires w < |r.works|
  {
    if ApplyPieces(r, w, k, ins, hit, hit.entry.held).log == r.log then claimed else claimed + [ClaimOf(hit)]
  }

  /** One insertion: each remembered text found in it, newest first. */
  function RepinInsertion(r: Repin, w: nat, k: nat, ins: Insertion, claimed: seq<Span>, below: nat): (r': Repin)
    requires w < |r.works|
    ensures |r'.works| == |r.works|
    decreases below
  {
    var found := FindBelow(r.memory, ins.text, claimed, below);
    if found.None? then r
    else
      var hit := found.value;
      RepinInsertion(AfterHit(r, w, k, ins, hit), w, k, ins, ClaimedAfter(r, w, k, ins, hit, claimed), hit.index)
  }

  function RepinFile(r: Repin, w: nat, inserts: seq<Insertion>, k: nat): (r': Repin)
    requires w < |r.works| && k <= |inserts|
    ensures |r'.works| == |r.works|
    decreases |inserts| - k
  {
    if k == |inserts| then r
    else RepinFile(RepinInsertion(r, w, k, inserts[k], [], |r.memory.entries|), w, inserts, k + 1)
  }

  function RepinFrom(r: Repin, w: nat): (r': Repin)
    requires w <= |r.works|
    ensures |r'.works| == |r.works|
    decreases |r.works| - w
  {
    if w == |r.works| then r else RepinFrom(RepinFile(r, w, r.works[w].inserts, 0), w + 1)
  }

  // ------------------------------------------------------- comment ids

  /** How many anchors of a file carry a comment id. */
  function Count(ps: seq<Planned>, id: string): nat {
    if ps == [] then 0 else (if ps[0].a.id == id then 1 else 0) + Count(ps[1..], id)
  }

  function CountAll(works: seq<Work>, id: string): nat {
    if works == [] then 0 else Count(works[0].anchors, id) + CountAll(works[1..], id)
  }

  lemma {:induction false} MemberCounts(ps: seq<Planned>, p: Planned)
    requires p in ps
    ensures Count(ps, p.a.id) > 0
  {
    if ps[0] != p { MemberCounts(ps[1..], p); }
  }

  lemma {:induction false} CountConcat(a: seq<Planned>, b: seq<Planned>, id: string)
    ensures Count(a + b, id) == Count(a, id) + Count(b, id)
  {
    if a == [] {
      assert a + b == b;
    } else {
      assert (a + b)[1..] == a[1..] + b;
      CountConcat(a[1..], b, id);
    }
  }

  function One(p: Planned, id: string): nat {
    if p.a.id == id then 1 else 0
  }

  lemma {:induction false} CountSplit(ps: seq<Planned>, k: nat, id: string)
    requires k < |ps|
    ensures Count(ps, id) == Count(RemoveAt(ps, k), id) + One(ps[k], id)
  {
    var rest := ps[k..];
    assert ps == ps[..k] + rest;
    CountConcat(ps[..k], rest, id);
    assert rest[1..] == ps[k + 1..];
    CountConcat(ps[..k], ps[k + 1..], id);
  }

  lemma {:induction false} CountAllUpdate(works: seq<Work>, w: nat, ps: seq<Planned>, id: string)
    requires w < |works|
    ensures CountAll(WithAnchors(works, w, ps), id) == CountAll(works, id) + Count(ps, id) - Count(works[w].anchors, id)
  {
    var works' := WithAnchors(works, w, ps);
    if w == 0 {
      assert works'[1..] == works[1..];
    } else {
      CountAllUpdate(works[1..], w - 1, ps, id);
      assert works'[1..] == WithAnchors(works[1..], w - 1, ps);
    }
  }

  lemma {:induction false} CountUpdate(ps: seq<Planned>, k: nat, q: Planned, id: string)
    requires k < |ps| && q.a.id == ps[k].a.id
    ensures Count(ps[k := q], id) == Count(ps, id)
  {
    CountSplit(ps, k, id);
    CountSplit(ps[k := q], k, id);
    assert RemoveAt(ps[k := q], k) == RemoveAt(ps, k);
  }

  /** Putting a piece back moves an anchor between files and loses none. */
  lemma {:induction false} ApplyPieceKeepsIds(works: seq<Work>, w: nat, from: int, h: Held, id: string)
    requires w < |works| && ApplyPiece(works, w, from, h).Some?
    ensures CountAll(ApplyPiece(works, w, from, h).value, id) == CountAll(works, id)
  {
    var (owner, p, q) := MovedBy(works, w, from, h);
    var ps := works[owner].anchors;
    var index := IndexOfId(ps, h.id).value;
    if !h.side.Whole? {
      CountUpdate(ps, index, q, id);
      CountAllUpdate(works, w, ps[index := q], id);
    } else {
      var out := WithAnchors(works, owner, RemoveAt(ps, index));
      CountSplit(ps, index, id);
      CountAllUpdate(works, owner, RemoveAt(ps, index), id);
      CountConcat(out[w].anchors, [q], id);
      CountAllUpdate(out, w, out[w].anchors + [q], id);
      assert [q][1..] == [];
    }
  }

  // ------------------------------------------------------- one place for each id

  predicate Has(works: seq<Work>, i: int, p: Planned) {
    0 <= i < |works| && p in works[i].anchors
  }

  ghost predicate Unique(works: seq<Work>) {
    forall id :: CountAll(works, id) <= 1
  }

  lemma {:induction false} FileCount(works: seq<Work>, i: nat, id: string)
    requires i < |works|
    ensures Count(works[i].anchors, id) <= CountAll(works, id)
  {
    if i > 0 { FileCount(works[1..], i - 1, id); }
  }

  lemma {:induction false} TwoFilesCount(works: seq<Work>, i: nat, j: nat, id: string)
    requires i < j < |works|
    ensures Count(works[i].anchors, id) + Count(works[j].anchors, id) <= CountAll(works, id)
  {
    if i == 0 {
      FileCount(works[1..], j - 1, id);
    } else {
      TwoFilesCount(works[1..], i - 1, j - 1, id);
    }
  }

  lemma {:induction false} OneFile(works: seq<Work>, i: int, j: int, p: Planned, q: Planned)
    requires Unique(works) && Has(works, i, p) && Has(works, j, q) && p.a.id == q.a.id
    ensures i == j
  {
    MemberCounts(works[i].anchors, p);
    MemberCounts(works[j].anchors, q);
    if i < j {
      TwoFilesCount(works, i, j, p.a.id);
    } else if j < i {
      TwoFilesCount(works, j, i, p.a.id);
    }
  }

  lemma {:induction false} NoneElsewhere(works: seq<Work>, i: nat, k: nat, q: Planned)
    requires Unique(works) && i < |works| && k < |works[i].anchors| && q in RemoveAt(works[i].anchors, k)
    ensures q.a.id != works[i].anchors[k].a.id
  {
    var id := works[i].anchors[k].a.id;
    CountSplit(works[i].anchors, k, id);
    FileCount(works, i, id);
    MemberCounts(RemoveAt(works[i].anchors, k), q);
  }

  lemma {:induction false} MembersSplit<T>(s: seq<T>, k: nat, x: T)
    requires k < |s|
    ensures x in s <==> x == s[k] || x in RemoveAt(s, k)
  {
    if x in s {
      var l :| 0 <= l < |s| && s[l] == x;
      if l != k { assert RemoveAt(s, k)[if l < k then l else l - 1] == x; }
    }
  }

  /** An id names one anchor in one file. */
  lemma {:induction false} OnePlace(works: seq<Work>, i: int, j: int, p: Planned, q: Planned)
    requires Unique(works) && Has(works, i, p) && Has(works, j, q) && p.a.id == q.a.id
    ensures i == j && p == q
  {
    OneFile(works, i, j, p, q);
    if p != q {
      var k :| 0 <= k < |works[i].anchors| && works[i].anchors[k] == p;
      MembersSplit(works[i].anchors, k, q);
      NoneElsewhere(works, i, k, q);
    }
  }

  // ------------------------------------------------------- what one piece does

  /** The same files, texts and insertions. */
  predicate SameTexts(works: seq<Work>, works': seq<Work>) {
    && |works'| == |works|
    && forall i :: 0 <= i < |works| ==>
         works'[i].fileId == works[i].fileId && works'[i].after == works[i].after && works'[i].inserts == works[i].inserts
  }

  /** The anchor `id` is now `q` in file `w`, and every other anchor stayed. */
  ghost predicate Moves(works: seq<Work>, works': seq<Work>, id: string, w: nat, q: Planned) {
    forall i, x :: Has(works', i, x) <==> if x.a.id == id then i == w && x == q else Has(works, i, x)
  }

  /** How much text an anchor covers. */
  function Size(a: Anchor): int {
    if Attached(a) then a.to - a.from else 0
  }

  /** The span `p` grew into `q` by exactly the piece that landed at `from`; it is written again, with its quote. */
  predicate GrewBy(p: Planned, q: Planned, h: Held, from: int) {
    var to := from + |h.text|;
    && q.a.id == p.a.id && q.a.quote == p.a.quote && Attached(q.a) && q.isSet && q.touched
    && (if h.side.Whole? then !Attached(p.a) && q.a.from == from && q.a.to == to
        else if h.side.Head? then Attached(p.a) && p.a.from == to && q.a.from == from && q.a.to == p.a.to
        else Attached(p.a) && p.a.to == from && q.a.from == p.a.from && q.a.to == to)
  }

  /** The anchor a piece moved: where it was, and what it became. */
  function MovedBy(works: seq<Work>, w: nat, from: int, h: Held): (nat, Planned, Planned)
    requires w < |works| && ApplyPiece(works, w, from, h).Some?
  {
    var owner := OwnerOf(works, h.id).value;
    var p := works[owner].anchors[IndexOfId(works[owner].anchors, h.id).value];
    var to := from + |h.text|;
    (owner, p,
     if h.side.Whole? then PinnedAt(p, works[w].fileId, from, to,
                                    if owner != w then Some(works[owner].fileId) else p.movedFrom)
     else RejoinedAt(p, h.side, from, to))
  }

  /** A piece applies only where it reads, and the anchor grows by exactly it. */
  lemma {:induction false} ApplyPieceSound(works: seq<Work>, w: nat, from: int, h: Held)
    requires w < |works| && ApplyPiece(works, w, from, h).Some?
    ensures var works' := ApplyPiece(works, w, from, h).value;
            var (owner, p, q) := MovedBy(works, w, from, h);
            && SameTexts(works, works')
            && OccursAt(works[w].after, h.text, from) && h.text != []
            && Has(works, owner, p) && p.a.id == h.id && GrewBy(p, q, h, from)
            && (Attached(p.a) ==> owner == w)
            && (Attached(p.a) ==> q.a == p.a.(from := q.a.from, to := q.a.to) && q.movedFrom == p.movedFrom)
            && (!Attached(p.a) ==>
                  && q.a.file == works[w].fileId && q.a.length.None? && q.a.fragment.None? && q.a.offset.None?
                  && (owner != w ==> q.movedFrom == Some(works[owner].fileId)))
  {
  }

  lemma {:induction false} ApplyPieceMovesOne(works: seq<Work>, w: nat, from: int, h: Held, i: int, x: Planned)
    requires Unique(works) && w < |works| && ApplyPiece(works, w, from, h).Some?
    ensures var works', q := ApplyPiece(works, w, from, h).value, MovedBy(works, w, from, h).2;
            Has(works', i, x) <==> if x.a.id == h.id then i == w && x == q else Has(works, i, x)
  {
    var (owner, p, q) := MovedBy(works, w, from, h);
    var ps := works[owner].anchors;
    var index := IndexOfId(ps, h.id).value;
    MembersSplit(ps, index, x);
    if x.a.id == h.id && Has(works, i, x) { OneFile(works, i, owner, x, p); }
    if x in RemoveAt(ps, index) { NoneElsewhere(works, owner, index, x); }
    if !h.side.Whole? {
      MembersSplit(ps[index := q], index, x);
      assert RemoveAt(ps[index := q], index) == RemoveAt(ps, index);
    }
  }

  lemma {:induction false} ApplyPieceMoves(works: seq<Work>, w: nat, from: int, h: Held)
    requires Unique(works) && w < |works| && ApplyPiece(works, w, from, h).Some?
    ensures Moves(works, ApplyPiece(works, w, from, h).value, h.id, w, MovedBy(works, w, from, h).2)
  {
    var works', q := ApplyPiece(works, w, from, h).value, MovedBy(works, w, from, h).2;
    forall i, x
      ensures Has(works', i, x) <==> if x.a.id == h.id then i == w && x == q else Has(works, i, x)
    {
      ApplyPieceMovesOne(works, w, from, h, i, x);
    }
  }
}
