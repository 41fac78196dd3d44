/**
 * What holds of phase 2 in every run, whatever the files, the insertions and
 * the memory: every anchor is explained by the pieces put back into it.
 */
module AnchorRepinRuns {
  import opened Common
  import opened Utf16
  import opened SessionMemory
  import opened AnchorEdits
  import opened AnchorRepin

  // ------------------------------------------------------- explained anchors

  function Names(x: Application, id: string): bool {
    x.held.id == id
  }

  /** How much text the log put back into an anchor. */
  function Brought(log: seq<Application>, id: string): int {
    if log == [] then 0
    else
      var n := |log| - 1;
      Brought(log[..n], id) + if Names(log[n], id) then |log[n].held.text| else 0
  }

  predicate SpansOver(p: Planned, from: int, to: int) {
    Attached(p.a) && p.a.from <= from && to <= p.a.to
  }

  /**
   * The anchor that was `p0` in file `j` and is `p` in file `i` gained exactly
   * the pieces the log put back: it covers its old span and every piece, its
   * length is the sum of theirs, and without a piece it did not change. With
   * one it is written again, and its quote stays.
   */
  predicate Explained(j: int, p0: Planned, i: int, p: Planned, log: seq<Application>) {
    && Size(p.a) == Size(p0.a) + Brought(log, p0.a.id) && p.a.quote == p0.a.quote
    && (Attached(p0.a) ==> i == j && SpansOver(p, p0.a.from, p0.a.to))
    && (forall x <- log :: Names(x, p0.a.id) ==>
          x.work == i && SpansOver(p, x.from, x.from + |x.held.text|) && p.isSet && p.touched)
    && ((forall x <- log :: !Names(x, p0.a.id)) ==> i == j && p == p0)
  }

  ghost predicate SameCounts(works0: seq<Work>, works: seq<Work>) {
    forall id :: CountAll(works, id) == CountAll(works0, id)
  }

  ghost predicate AllExplained(works0: seq<Work>, works: seq<Work>, log: seq<Application>) {
    forall j, p0, i, p :: Has(works0, j, p0) && Has(works, i, p) && p0.a.id == p.a.id ==> Explained(j, p0, i, p, log)
  }

  predicate InPlace(works: seq<Work>) {
    forall i :: 0 <= i < |works| ==> Placed(works[i].after, works[i].anchors)
  }

  lemma {:induction false} ExplainedGrows(j: int, p0: Planned, i: int, p: Planned, w: int, q: Planned,
                                         log: seq<Application>, x: Application)
    requires Explained(j, p0, i, p, log) && p.a.id == p0.a.id && Names(x, p0.a.id) && x.work == w
    requires x.held.text != [] && GrewBy(p, q, x.held, x.from) && (Attached(p.a) ==> i == w && p.a.from < p.a.to)
    ensures Explained(j, p0, w, q, log + [x])
  {
    assert (log + [x])[..|log|] == log;
    assert (log + [x])[|log|] == x;
  }

  lemma {:induction false} ExplainedStays(j: int, p0: Planned, i: int, p: Planned, log: seq<Application>,
                                          x: Application)
    requires Explained(j, p0, i, p, log) && !Names(x, p0.a.id)
    ensures Explained(j, p0, i, p, log + [x])
  {
    assert (log + [x])[..|log|] == log;
    assert forall y <- log :: y in log + [x];
  }

  /** One more piece leaves every anchor explained by the longer log. */
  lemma {:induction false} PieceExplained(works0: seq<Work>, works: seq<Work>, log: seq<Application>, x: Application)
    requires Unique(works) && InPlace(works) && AllExplained(works0, works, log)
    requires x.work < |works| && ApplyPiece(works, x.work, x.from, x.held).Some?
    ensures AllExplained(works0, ApplyPiece(works, x.work, x.from, x.held).value, log + [x])
  {
    var w, h := x.work, x.held;
    var works' := ApplyPiece(works, w, x.from, h).value;
    var (owner, was, q) := MovedBy(works, w, x.from, h);
    ApplyPieceSound(works, w, x.from, h);
    ApplyPieceMoves(works, w, x.from, h);
    forall j, p0, i, p | Has(works0, j, p0) && Has(works', i, p) && p0.a.id == p.a.id
      ensures Explained(j, p0, i, p, log + [x])
    {
      if p.a.id == h.id {
        assert Has(works, owner, was);
        ExplainedGrows(j, p0, owner, was, w, q, log, x);
      } else {
        assert Has(works, i, p);
        ExplainedStays(j, p0, i, p, log, x);
      }
    }
  }

  lemma {:induction false} PieceInPlace(works: seq<Work>, w: nat, from: int, h: Held)
    requires Unique(works) && InPlace(works) && w < |works| && ApplyPiece(works, w, from, h).Some?
    ensures InPlace(ApplyPiece(works, w, from, h).value)
  {
    var works' := ApplyPiece(works, w, from, h).value;
    var (owner, was, q) := MovedBy(works, w, from, h);
    ApplyPieceSound(works, w, from, h);
    ApplyPieceMoves(works, w, from, h);
    forall i, p | 0 <= i < |works'| && p in works'[i].anchors && Attached(p.a)
      ensures InText(works'[i].after, p.a)
    {
      assert Has(works', i, p);
      if p.a.id == h.id {
        assert Has(works, owner, was);
      } else {
        assert Has(works, i, p);
      }
    }
  }

  lemma {:induction false} PieceUnique(works: seq<Work>, w: nat, from: int, h: Held)
    requires w < |works| && ApplyPiece(works, w, from, h).Some?
    ensures SameCounts(works, ApplyPiece(works, w, from, h).value)
    ensures Unique(works) ==> Unique(ApplyPiece(works, w, from, h).value)
  {
    forall id { ApplyPieceKeepsIds(works, w, from, h, id); }
  }

  // ------------------------------------------------------- justified pieces

  /** The entry `e` found in the insertion is what put the piece back. */
  predicate PutBackBy(ins: Insertion, e: Entry, x: Application) {
    && e.text != [] && e.key == x.key && x.held in e.held
    && var f := Locate(ins.text, e.text);
    && f.Some?
    && x.claim == Span(f.value.at, f.value.at + |e.text|)
    && x.from == ins.at + f.value.at + f.value.shift + x.held.offset
  }

  /** A piece was put back by a remembered text, and reads where it was put. */
  ghost predicate Justified(works: seq<Work>, m: Memory, x: Application) {
    && x.work < |works| && x.insertion < |works[x.work].inserts|
    && OccursAt(works[x.work].after, x.held.text, x.from)
    && exists e <- m.entries :: PutBackBy(works[x.work].inserts[x.insertion], e, x)
  }

  ghost predicate AllJustified(works: seq<Work>, m: Memory, log: seq<Application>) {
    forall x <- log :: Justified(works, m, x)
  }

  /** Two claims on one insertion are the same hit's, or share no character. */
  predicate ClaimsApart(log: seq<Application>) {
    forall x <- log, y <- log :: x.work == y.work && x.insertion == y.insertion ==>
                                   x.claim == y.claim || !Overlap(x.claim, y.claim)
  }

  // ------------------------------------------------------- the spans pieces are put on

  function SpanOf(x: Application): Span {
    Span(x.from, x.from + |x.held.text|)
  }

  /** How far a piece's offset shifted, by where it was put. */
  function ShiftOf(ins: Insertion, x: Application): int {
    x.from - ins.at - x.claim.from - x.held.offset
  }

  /** The piece holds the newline that the insertion has at the other end. */
  predicate TakesMovedNewline(ins: Insertion, x: Application) {
    || (ShiftOf(ins, x) == 1 && x.held.offset + |x.held.text| == x.claim.to - x.claim.from)
    || (ShiftOf(ins, x) == -1 && x.held.offset == 0)
  }

  /** The one character beside its claim that such a piece is put on. */
  function Beside(ins: Insertion, x: Application): int {
    ins.at + if ShiftOf(ins, x) == 1 then x.claim.to else x.claim.from - 1
  }

  predicate Includes(s: Span, at: int) {
    s.from <= at < s.to
  }

  /** Two pieces share a character exactly when one takes the moved newline and the other is on the character beside its claim. */
  predicate MeetExactly(ins: Insertion, x: Application, y: Application) {
    Overlap(SpanOf(x), SpanOf(y)) <==>
    || (TakesMovedNewline(ins, x) && Includes(SpanOf(y), Beside(ins, x)))
    || (TakesMovedNewline(ins, y) && Includes(SpanOf(x), Beside(ins, y)))
  }

  /** The spans the hits of one insertion put pieces on. */
  predicate SpansApart(works: seq<Work>, log: seq<Application>)
    requires forall x <- log :: x.work < |works| && x.insertion < |works[x.work].inserts|
  {
    forall x <- log, y <- log ::
      x.work == y.work && x.insertion == y.insertion && x.claim != y.claim ==>
        MeetExactly(works[x.work].inserts[x.insertion], x, y)
  }

  /** A piece stays in its claim, or sticks out by the one character beside it. */
  predicate StaysBy(ins: Insertion, x: Application) {
    var lo, hi := ins.at + x.claim.from, ins.at + x.claim.to;
    && x.from < x.from + |x.held.text|
    && (if TakesMovedNewline(ins, x) then
          if ShiftOf(ins, x) == 1 then lo < x.from && SpanOf(x).to == hi + 1 && x.from <= hi
          else x.from == lo - 1 && SpanOf(x).to < hi && lo <= SpanOf(x).to
        else lo <= x.from && SpanOf(x).to <= hi)
  }

  lemma {:induction false} PieceStaysBy(ins: Insertion, e: Entry, x: Application)
    requires PutBackBy(ins, e, x) && Fits(e.text, x.held)
    ensures StaysBy(ins, x)
  {
    var f := Locate(ins.text, e.text).value;
    HitMeans(ins.text, e.text, f);
    PieceLands(ins.text, e.text, f, x.held);
    assert ShiftOf(ins, x) == f.shift;
    assert TakesMovedNewline(ins, x) <==> HoldsMovedNewline(e.text, f.shift, x.held);
  }

  lemma {:induction false} StayingPiecesMeetExactly(ins: Insertion, x: Application, y: Application)
    requires StaysBy(ins, x) && StaysBy(ins, y) && !Overlap(x.claim, y.claim)
    requires x.claim.from < x.claim.to && y.claim.from < y.claim.to
    ensures MeetExactly(ins, x, y)
  {
  }

  lemma {:induction false} JustifiedStaysBy(works: seq<Work>, m: Memory, x: Application)
    requires Justified(works, m, x) && Sound(m)
    ensures StaysBy(works[x.work].inserts[x.insertion], x) && x.claim.from < x.claim.to
  {
    var ins := works[x.work].inserts[x.insertion];
    var e :| e in m.entries && PutBackBy(ins, e, x);
    PieceStaysBy(ins, e, x);
  }

  /** In every run two hits of one insertion put their pieces on disjoint spans, but for a moved newline. */
  lemma {:induction false} SaneSpansApart(works: seq<Work>, m: Memory, log: seq<Application>)
    requires AllJustified(works, m, log) && ClaimsApart(log) && Sound(m)
    ensures SpansApart(works, log)
  {
    forall x <- log, y <- log | x.work == y.work && x.insertion == y.insertion && x.claim != y.claim
      ensures MeetExactly(works[x.work].inserts[x.insertion], x, y)
    {
      JustifiedStaysBy(works, m, x);
      JustifiedStaysBy(works, m, y);
      StayingPiecesMeetExactly(works[x.work].inserts[x.insertion], x, y);
    }
  }

  /** Without the moved newline they are disjoint outright. */
  lemma {:induction false} PlainPiecesApart(works: seq<Work>, m: Memory, log: seq<Application>, x: Application, y: Application)
    requires AllJustified(works, m, log) && ClaimsApart(log) && Sound(m)
    requires x in log && y in log && x.work == y.work && x.insertion == y.insertion && x.claim != y.claim
    requires var ins := works[x.work].inserts[x.insertion]; !TakesMovedNewline(ins, x) && !TakesMovedNewline(ins, y)
    ensures !Overlap(SpanOf(x), SpanOf(y))
  {
    SaneSpansApart(works, m, log);
    assert MeetExactly(works[x.work].inserts[x.insertion], x, y);
  }

  /** The log so far when insertion `k` of file `w` is being looked at. */
  predicate UpTo(log: seq<Application>, w: nat, k: nat, claimed: seq<Span>) {
    forall x <- log ::
      || x.work < w
      || (x.work == w && x.insertion < k)
      || (x.work == w && x.insertion == k && x.claim in claimed)
  }

  ghost predicate Sane(works0: seq<Work>, m0: Memory, r: Repin) {
    && SameTexts(works0, r.works) && SameCounts(works0, r.works) && InPlace(r.works)
    && AllExplained(works0, r.works, r.log)
    && AllJustified(works0, m0, r.log) && ClaimsApart(r.log)
    && Sound(r.memory) && forall e <- r.memory.entries :: e in m0.entries
  }

  lemma {:induction false} Chained(works0: seq<Work>, works: seq<Work>, works': seq<Work>)
    requires SameTexts(works0, works) && SameTexts(works, works')
    requires SameCounts(works0, works) && SameCounts(works, works')
    ensures SameTexts(works0, works') && SameCounts(works0, works')
  {
  }

  /** An entry found in insertion `k` of file `w`, on a span nobody claimed. */
  ghost predicate Hits(works0: seq<Work>, m0: Memory, w: nat, k: nat, ins: Insertion, hit: Hit, claimed: seq<Span>) {
    && w < |works0| && k < |works0[w].inserts| && ins == works0[w].inserts[k]
    && hit.entry in m0.entries && hit.entry.text != []
    && Locate(ins.text, hit.entry.text) == Some(Found(hit.at, hit.shift))
    && Free(claimed, ClaimOf(hit))
  }

  lemma {:induction false} PieceJustified(works0: seq<Work>, m0: Memory, works: seq<Work>, log: seq<Application>,
                                         w: nat, k: nat, ins: Insertion, hit: Hit, claimed: seq<Span>, h: Held)
    requires SameTexts(works0, works) && AllJustified(works0, m0, log)
    requires Hits(works0, m0, w, k, ins, hit, claimed) && h in hit.entry.held
    requires ApplyPiece(works, w, Landing(w, k, ins, hit, h).from, h).Some?
    ensures AllJustified(works0, m0, log + [Landing(w, k, ins, hit, h)])
  {
    assert PutBackBy(ins, hit.entry, Landing(w, k, ins, hit, h));
  }

  lemma {:induction false} ClaimAdded(log: seq<Application>, x: Application, w: nat, k: nat, claimed: seq<Span>)
    requires ClaimsApart(log) && UpTo(log, w, k, claimed + [x.claim]) && x.work == w && x.insertion == k
    requires Free(claimed, x.claim)
    ensures ClaimsApart(log + [x]) && UpTo(log + [x], w, k, claimed + [x.claim])
  {
    forall y <- log | y.work == w && y.insertion == k
      ensures y.claim == x.claim || (!Overlap(x.claim, y.claim) && !Overlap(y.claim, x.claim))
    {
      assert y.claim in claimed + [x.claim];
    }
  }

  // ------------------------------------------------------- the loops

  lemma {:induction false} PieceSane(works0: seq<Work>, m0: Memory, r: Repin, w: nat, k: nat, ins: Insertion, hit: Hit,
                                    claimed: seq<Span>, h: Held)
    requires Unique(works0) && Sane(works0, m0, r) && UpTo(r.log, w, k, claimed + [ClaimOf(hit)])
    requires Hits(works0, m0, w, k, ins, hit, claimed) && h in hit.entry.held
    requires ApplyPiece(r.works, w, Landing(w, k, ins, hit, h).from, h).Some?
    ensures var x := Landing(w, k, ins, hit, h);
            && Sane(works0, m0, Repin(ApplyPiece(r.works, w, x.from, h).value, r.memory, r.log + [x]))
            && UpTo(r.log + [x], w, k, claimed + [ClaimOf(hit)])
  {
    var x := Landing(w, k, ins, hit, h);
    var works' := ApplyPiece(r.works, w, x.from, h).value;
    assert Unique(r.works) by {
      forall id ensures CountAll(r.works, id) <= 1 { assert CountAll(r.works, id) == CountAll(works0, id); }
    }
    ApplyPieceSound(r.works, w, x.from, h);
    PieceUnique(r.works, w, x.from, h);
    Chained(works0, r.works, works');
    PieceInPlace(r.works, w, x.from, h);
    PieceExplained(works0, r.works, r.log, x);
    PieceJustified(works0, m0, r.works, r.log, w, k, ins, hit, claimed, h);
    ClaimAdded(r.log, x, w, k, claimed);
  }

  /** One hit: its pieces in turn. */
  lemma {:induction false} PiecesSane(works0: seq<Work>, m0: Memory, r: Repin, w: nat, k: nat, ins: Insertion,
                                      hit: Hit, claimed: seq<Span>, held: seq<Held>)
    requires Unique(works0) && Sane(works0, m0, r) && UpTo(r.log, w, k, claimed + [ClaimOf(hit)])
    requires Hits(works0, m0, w, k, ins, hit, claimed) && forall h <- held :: h in hit.entry.held
    ensures var r' := ApplyPieces(r, w, k, ins, hit, held);
            && Sane(works0, m0, r') && UpTo(r'.log, w, k, claimed + [ClaimOf(hit)])
    decreases held
  {
    if held != [] {
      var h := held[0];
      var x := Landing(w, k, ins, hit, h);
      var next := ApplyPiece(r.works, w, x.from, h);
      if next.Some? {
        PieceSane(works0, m0, r, w, k, ins, hit, claimed, h);
        PiecesSane(works0, m0, Repin(next.value, r.memory, r.log + [x]), w, k, ins, hit, claimed, held[1..]);
      } else {
        PiecesSane(works0, m0, r, w, k, ins, hit, claimed, held[1..]);
      }
    }
  }

  lemma {:induction false} HitSane(works0: seq<Work>, m0: Memory, r: Repin, w: nat, k: nat, ins: Insertion,
                                   hit: Hit, claimed: seq<Span>)
    requires Unique(works0) && Sane(works0, m0, r) && UpTo(r.log, w, k, claimed)
    requires Hits(works0, m0, w, k, ins, hit, claimed)
    ensures var r' := AfterHit(r, w, k, ins, hit);
            Sane(works0, m0, r') && UpTo(r'.log, w, k, ClaimedAfter(r, w, k, ins, hit, claimed))
  {
    assert UpTo(r.log, w, k, claimed + [ClaimOf(hit)]);
    PiecesSane(works0, m0, r, w, k, ins, hit, claimed, hit.entry.held);
    DropSane(works0, m0, ApplyPieces(r, w, k, ins, hit, hit.entry.held), hit.entry.key);
  }

  lemma {:induction false} InsertionSane(works0: seq<Work>, m0: Memory, r: Repin, w: nat, k: nat, ins: Insertion,
                                         claimed: seq<Span>, below: nat)
    requires Unique(works0) && Sane(works0, m0, r) && UpTo(r.log, w, k, claimed)
    requires w < |works0| && k < |works0[w].inserts| && ins == works0[w].inserts[k]
    ensures var r' := RepinInsertion(r, w, k, ins, claimed, below);
            Sane(works0, m0, r') && UpTo(r'.log, w, k + 1, [])
    decreases below
  {
    var found := FindBelow(r.memory, ins.text, claimed, below);
    if found.Some? {
      var hit := found.value;
      FindsNewest(r.memory, ins.text, claimed, below);
      assert hit.entry in r.memory.entries;
      HitSane(works0, m0, r, w, k, ins, hit, claimed);
      InsertionSane(works0, m0, AfterHit(r, w, k, ins, hit), w, k, ins, ClaimedAfter(r, w, k, ins, hit, claimed), hit.index);
    }
  }

  lemma {:induction false} DropSane(works0: seq<Work>, m0: Memory, r: Repin, key: nat)
    requires Sane(works0, m0, r)
    ensures Sane(works0, m0, r.(memory := Dropped(r.memory, key)))
  {
    DropSound(r.memory, key);
    var i := WithoutShape(r.memory.entries, key);
  }

  lemma {:induction false} FileSane(works0: seq<Work>, m0: Memory, r: Repin, w: nat, k: nat)
    requires Unique(works0) && Sane(works0, m0, r) && UpTo(r.log, w, k, [])
    requires w < |works0| && k <= |works0[w].inserts|
    ensures var r' := RepinFile(r, w, works0[w].inserts, k);
            Sane(works0, m0, r') && UpTo(r'.log, w + 1, 0, [])
    decreases |works0[w].inserts| - k
  {
    if k < |works0[w].inserts| {
      var ins := works0[w].inserts[k];
      InsertionSane(works0, m0, r, w, k, ins, [], |r.memory.entries|);
      FileSane(works0, m0, RepinInsertion(r, w, k, ins, [], |r.memory.entries|), w, k + 1);
    } else {
      assert forall x <- r.log :: Justified(works0, m0, x);
    }
  }

  lemma {:induction false} FilesSane(works0: seq<Work>, m0: Memory, r: Repin, w: nat)
    requires Unique(works0) && Sane(works0, m0, r) && UpTo(r.log, w, 0, []) && w <= |works0|
    ensures Sane(works0, m0, RepinFrom(r, w))
    decreases |works0| - w
  {
    if w < |works0| {
      assert r.works[w].inserts == works0[w].inserts;
      FileSane(works0, m0, r, w, 0);
      FilesSane(works0, m0, RepinFile(r, w, works0[w].inserts, 0), w + 1);
    }
  }

  /**
   * Re-pinning is sound in every run. The memory stays sound; every piece put
   * back came from a remembered text found in that insertion and reads where
   * it was put; claims on one insertion are disjoint, and so are the spans two
   * hits put their pieces on, except exactly where a moved newline puts one
   * beside its claim; every attached anchor is a span of its file that is not
   * empty and is its old span grown by exactly the pieces put back; and every
   * comment id is still carried as often.
   */
  lemma {:induction false} RepinningIsSound(works: seq<Work>, m: Memory)
    requires Unique(works) && InPlace(works) && Sound(m)
    ensures var r := RepinFrom(Repin(works, m, []), 0);
            Sane(works, m, r) && SpansApart(works, r.log)
  {
    var r := Repin(works, m, []);
    forall j, p0, i, p | Has(works, j, p0) && Has(works, i, p) && p0.a.id == p.a.id
      ensures Explained(j, p0, i, p, [])
    {
      OnePlace(works, j, i, p0, p);
    }
    FilesSane(works, m, r, 0);
    SaneSpansApart(works, m, RepinFrom(r, 0).log);
  }

  // ------------------------------------------------------- what stays remembered

  /** An entry leaves the memory exactly when the log put one of its pieces back. */
  ghost predicate LeavesExactly(m0: Memory, r: Repin) {
    forall e <- m0.entries :: e in r.memory.entries <==> forall x <- r.log :: x.key != e.key
  }

  lemma {:induction false} PiecesLogged(r: Repin, w: nat, k: nat, ins: Insertion, hit: Hit, held: seq<Held>)
    requires w < |r.works|
    ensures var r' := ApplyPieces(r, w, k, ins, hit, held);
            && r'.memory == r.memory && r.log <= r'.log
            && forall i :: |r.log| <= i < |r'.log| ==> r'.log[i].key == hit.entry.key
    decreases held
  {
    if held != [] {
      var x := Landing(w, k, ins, hit, held[0]);
      var next := ApplyPiece(r.works, w, x.from, held[0]);
      PiecesLogged(if next.Some? then Repin(next.value, r.memory, r.log + [x]) else r, w, k, ins, hit, held[1..]);
    }
  }

  lemma {:induction false} DroppedIs(m: Memory, e: Entry)
    requires Sound(m) && e in m.entries
    ensures forall x :: x in Dropped(m, e.key).entries <==> x in m.entries && x.key != e.key
  {
    var i :| 0 <= i < |m.entries| && m.entries[i] == e;
    DropTakesOne(m.entries, m.next, i);
    forall x
      ensures x in Dropped(m, e.key).entries <==> x in m.entries && x.key != e.key
    {
      MembersSplit(m.entries, i, x);
      if x in RemoveAt(m.entries, i) { OtherKey(m, i, x); }
    }
  }

  lemma {:induction false} OtherKey(m: Memory, i: nat, x: Entry)
    requires Sound(m) && i < |m.entries| && x in RemoveAt(m.entries, i)
    ensures x.key != m.entries[i].key
  {
    var j :| 0 <= j < |RemoveAt(m.entries, i)| && RemoveAt(m.entries, i)[j] == x;
    assert x == m.entries[if j < i then j else j + 1];
  }

  lemma {:induction false} HitLeaves(m0: Memory, r: Repin, w: nat, k: nat, ins: Insertion, hit: Hit)
    requires w < |r.works| && Sound(m0) && Sound(r.memory) && (forall e <- r.memory.entries :: e in m0.entries)
    requires LeavesExactly(m0, r) && hit.entry in r.memory.entries
    ensures LeavesExactly(m0, AfterHit(r, w, k, ins, hit))
  {
    var r1 := ApplyPieces(r, w, k, ins, hit, hit.entry.held);
    PiecesLogged(r, w, k, ins, hit, hit.entry.held);
    if r1.log != r.log {
      DroppedIs(r.memory, hit.entry);
      assert r1.log[|r.log|].key == hit.entry.key;
      forall e <- m0.entries
        ensures e in Dropped(r.memory, hit.entry.key).entries <==> forall x <- r1.log :: x.key != e.key
      {
        KeysTell(m0, e, hit.entry);
        LogGrew(r.log, r1.log, hit.entry.key, e.key);
      }
    }
  }

  lemma {:induction false} LogGrew(log: seq<Application>, log': seq<Application>, key: nat, other: nat)
    requires log < log' && forall i :: |log| <= i < |log'| ==> log'[i].key == key
    ensures (forall x <- log' :: x.key != other) <==> other != key && forall x <- log :: x.key != other
  {
    assert log'[|log|] in log' && forall x <- log :: x in log';
    forall x <- log'
      ensures x in log || x.key == key
    {
      var i :| 0 <= i < |log'| && log'[i] == x;
      if i < |log| { assert log[i] == x; }
    }
  }

  lemma {:induction false} KeysTell(m: Memory, a: Entry, b: Entry)
    requires Sound(m) && a in m.entries && b in m.entries
    ensures a.key == b.key <==> a == b
  {
  }

  lemma {:induction false} InsertionLeaves(works0: seq<Work>, m0: Memory, r: Repin, w: nat, k: nat, ins: Insertion,
                                           claimed: seq<Span>, below: nat)
    requires Unique(works0) && Sane(works0, m0, r) && UpTo(r.log, w, k, claimed) && Sound(m0) && LeavesExactly(m0, r)
    requires w < |works0| && k < |works0[w].inserts| && ins == works0[w].inserts[k]
    ensures LeavesExactly(m0, RepinInsertion(r, w, k, ins, claimed, below))
    decreases below
  {
    var found := FindBelow(r.memory, ins.text, claimed, below);
    if found.Some? {
      var hit := found.value;
      FindsNewest(r.memory, ins.text, claimed, below);
      assert hit.entry in r.memory.entries;
      HitSane(works0, m0, r, w, k, ins, hit, claimed);
      HitLeaves(m0, r, w, k, ins, hit);
      InsertionLeaves(works0, m0, AfterHit(r, w, k, ins, hit), w, k, ins, ClaimedAfter(r, w, k, ins, hit, claimed), hit.index);
    }
  }

  lemma {:induction false} FileLeaves(works0: seq<Work>, m0: Memory, r: Repin, w: nat, k: nat)
    requires Unique(works0) && Sane(works0, m0, r) && UpTo(r.log, w, k, []) && Sound(m0) && LeavesExactly(m0, r)
    requires w < |works0| && k <= |works0[w].inserts|
    ensures LeavesExactly(m0, RepinFile(r, w, works0[w].inserts, k))
    decreases |works0[w].inserts| - k
  {
    if k < |works0[w].inserts| {
      var ins := works0[w].inserts[k];
      InsertionSane(works0, m0, r, w, k, ins, [], |r.memory.entries|);
      InsertionLeaves(works0, m0, r, w, k, ins, [], |r.memory.entries|);
      FileLeaves(works0, m0, RepinInsertion(r, w, k, ins, [], |r.memory.entries|), w, k + 1);
    }
  }

  lemma {:induction false} FilesLeave(works0: seq<Work>, m0: Memory, r: Repin, w: nat)
    requires Unique(works0) && Sane(works0, m0, r) && UpTo(r.log, w, 0, []) && w <= |works0| && Sound(m0) && LeavesExactly(m0, r)
    ensures LeavesExactly(m0, RepinFrom(r, w))
    decreases |works0| - w
  {
    if w < |works0| {
      var r1 := RepinFile(r, w, works0[w].inserts, 0);
      RepinNext(works0, r, w);
      FileSane(works0, m0, r, w, 0);
      FileLeaves(works0, m0, r, w, 0);
      FilesLeave(works0, m0, r1, w + 1);
    }
  }

  lemma {:induction false} RepinNext(works0: seq<Work>, r: Repin, w: nat)
    requires SameTexts(works0, r.works) && w < |works0|
    ensures RepinFrom(r, w) == RepinFrom(RepinFile(r, w, works0[w].inserts, 0), w + 1)
  {
    assert r.works[w].inserts == works0[w].inserts;
  }

  /**
   * An entry that was applied leaves the memory and one whose pieces could not
   * be applied stays for a later insertion, in every run.
   */
  lemma {:induction false} EntriesLeaveExactly(works: seq<Work>, m: Memory)
    requires Unique(works) && InPlace(works) && Sound(m)
    ensures LeavesExactly(m, RepinFrom(Repin(works, m, []), 0))
  {
    var r := Repin(works, m, []);
    forall j, p0, i, p | Has(works, j, p0) && Has(works, i, p) && p0.a.id == p.a.id
      ensures Explained(j, p0, i, p, [])
    {
      OnePlace(works, j, i, p0, p);
    }
    FilesLeave(works, m, r, 0);
  }

  /** A hit whose pieces applied nothing claims nothing: the search goes on to older entries as if it were not there. */
  lemma {:induction false} RefusedIsPassedOver(r: Repin, w: nat, k: nat, ins: Insertion, claimed: seq<Span>, below: nat)
    requires w < |r.works| && FindBelow(r.memory, ins.text, claimed, below).Some?
    requires var hit := FindBelow(r.memory, ins.text, claimed, below).value;
             forall h <- hit.entry.held :: ApplyPiece(r.works, w, Landing(w, k, ins, hit, h).from, h).None?
    ensures var hit := FindBelow(r.memory, ins.text, claimed, below).value;
            RepinInsertion(r, w, k, ins, claimed, below) == RepinInsertion(r, w, k, ins, claimed, hit.index)
  {
    var hit := FindBelow(r.memory, ins.text, claimed, below).value;
    NothingApplies(r, w, k, ins, hit, hit.entry.held);
  }

  lemma {:induction false} NothingApplies(r: Repin, w: nat, k: nat, ins: Insertion, hit: Hit, held: seq<Held>)
    requires w < |r.works| && forall h <- held :: ApplyPiece(r.works, w, Landing(w, k, ins, hit, h).from, h).None?
    ensures ApplyPieces(r, w, k, ins, hit, held) == r
    decreases held
  {
    if held != [] { NothingApplies(r, w, k, ins, hit, held[1..]); }
  }
}
