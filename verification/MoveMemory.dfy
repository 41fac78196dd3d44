/**
 * What a session deleted, oldest first. An entry keeps the pieces of anchors
 * that the deletion took, with their offsets in the deleted text.
 */
module SessionMemory {
  import opened Common
  import opened Sequences
  import opened Utf16

  datatype Side = Whole | Head | Tail

  datatype Held = Held(id: string, offset: nat, text: Text, side: Side)

  /** `key` stands for the identity of the entry object. */
  datatype Entry = Entry(key: nat, text: Text, held: seq<Held>)

  datatype Memory = Memory(limit: nat, entries: seq<Entry>, next: nat)

  datatype Found = Found(at: nat, shift: int)

  datatype Hit = Hit(entry: Entry, index: nat, at: nat, shift: int)

  // ---------------------------------------------------------------- searching

  function Once(hay: Text, needle: Text, shift: int): (r: Option<Found>)
    requires needle != []
  {
    var at := IndexOf(hay, needle, 0);
    if at.None? || IndexOf(hay, needle, at.value + 1).Some? then None
    else Some(Found(at.value, shift))
  }

  /** `once` answers the place of the only occurrence, and nothing otherwise. */
  lemma {:induction false} OnceMeans(hay: Text, needle: Text, shift: int)
    requires needle != []
    ensures var r := Once(hay, needle, shift);
            && (r.Some? ==> r.value.shift == shift && OnlyAt(hay, needle, r.value.at))
            && (r.None? ==> forall at :: !OnlyAt(hay, needle, at))
  {
  }

  /** The remembered text with its newline moved to the other end. */
  function Rotated(text: Text, shift: int): Text
    requires text != []
  {
    if shift == 1 then [NEWLINE] + text[..|text| - 1]
    else if shift == -1 then text[1..] + [NEWLINE]
    else text
  }

  function MovedNewline(hay: Text, text: Text): (r: Option<Found>)
    requires text != []
  {
    if |text| < 2 then None
    else if text[|text| - 1] == NEWLINE then Once(hay, Rotated(text, 1), 1)
    else if text[0] == NEWLINE then Once(hay, Rotated(text, -1), -1)
    else None
  }

  /** The text with its newline at the other end, when it has one to move. */
  function MovedText(text: Text): Text
    requires text != []
  {
    if |text| < 2 then text
    else if text[|text| - 1] == NEWLINE then Rotated(text, 1)
    else if text[0] == NEWLINE then Rotated(text, -1)
    else text
  }

  function Locate(hay: Text, text: Text): (r: Option<Found>)
    requires text != []
  {
    var asItWas := Once(hay, text, 0);
    if asItWas.Some? then asItWas else MovedNewline(hay, text)
  }

  lemma {:induction false} HitMeans(hay: Text, text: Text, f: Found)
    requires text != [] && Locate(hay, text) == Some(f)
    ensures -1 <= f.shift <= 1 && OnlyAt(hay, Rotated(text, f.shift), f.at)
    ensures f.shift == 1 ==> |text| >= 2 && text[|text| - 1] == NEWLINE
    ensures f.shift == -1 ==> |text| >= 2 && text[0] == NEWLINE
  {
    OnceMeans(hay, text, 0);
    if |text| >= 2 {
      OnceMeans(hay, Rotated(text, 1), 1);
      OnceMeans(hay, Rotated(text, -1), -1);
    }
  }

  /**
   * A hit is the only occurrence of the remembered text, as it was or with its
   * newline at the other end; a text that occurs once as it was is found so;
   * and one that is not found occurs once neither way.
   */
  lemma {:induction false} LocateMeans(hay: Text, text: Text)
    requires text != []
    ensures var r := Locate(hay, text);
            && (r.Some? ==>
                  && -1 <= r.value.shift <= 1
                  && OnlyAt(hay, Rotated(text, r.value.shift), r.value.at)
                  && (r.value.shift == 1 ==> |text| >= 2 && text[|text| - 1] == NEWLINE)
                  && (r.value.shift == -1 ==> |text| >= 2 && text[0] == NEWLINE))
            && ((r.Some? ==> r.value.shift != 0) ==> forall at :: !OnlyAt(hay, text, at))
            && (r.None? ==> forall at :: !OnlyAt(hay, MovedText(text), at))
  {
    if Locate(hay, text).Some? { HitMeans(hay, text, Locate(hay, text).value); }
    OnceMeans(hay, text, 0);
    if |text| >= 2 {
      OnceMeans(hay, Rotated(text, 1), 1);
      OnceMeans(hay, Rotated(text, -1), -1);
    }
  }

  predicate Free(claimed: seq<Span>, s: Span) {
    forall c <- claimed :: !Overlap(s, c)
  }

  /** Whether `find` stops at this entry. */
  predicate Takes(e: Entry, inserted: Text, claimed: seq<Span>) {
    && e.text != []
    && var found := Locate(inserted, e.text);
    && found.Some?
    && Free(claimed, Span(found.value.at, found.value.at + |e.text|))
  }

  function FindBelow(m: Memory, inserted: Text, claimed: seq<Span>, below: nat): (r: Option<Hit>)
    ensures r.Some? ==> r.value.index < below && r.value.index < |m.entries|
    decreases below
  {
    if below == 0 then None
    else if below <= |m.entries| && Takes(m.entries[below - 1], inserted, claimed) then
      var e := m.entries[below - 1];
      var found := Locate(inserted, e.text).value;
      Some(Hit(e, below - 1, found.at, found.shift))
    else FindBelow(m, inserted, claimed, below - 1)
  }

  /** `find` answers the newest entry below the bound that it can take. */
  lemma {:induction false} FindsNewest(m: Memory, inserted: Text, claimed: seq<Span>, below: nat)
    ensures var r := FindBelow(m, inserted, claimed, below);
            && (r.Some? ==>
                  && m.entries[r.value.index] == r.value.entry
                  && Takes(r.value.entry, inserted, claimed)
                  && Locate(inserted, r.value.entry.text) == Some(Found(r.value.at, r.value.shift)))
            && forall i :: (if r.Some? then r.value.index + 1 else 0) <= i < below && i < |m.entries| ==>
                             !Takes(m.entries[i], inserted, claimed)
    decreases below
  {
    if below > 0 && !(below <= |m.entries| && Takes(m.entries[below - 1], inserted, claimed)) {
      FindsNewest(m, inserted, claimed, below - 1);
    }
  }

  // ---------------------------------------------------------------- updating

  function Remembered(m: Memory, text: Text, held: seq<Held>): Memory {
    if text == [] || held == [] then m
    else
      var grown := m.entries + [Entry(m.next, text, held)];
      Memory(m.limit, if |grown| > m.limit then grown[|grown| - m.limit..] else grown, m.next + 1)
  }

  function Without(entries: seq<Entry>, key: nat): seq<Entry> {
    if entries == [] then []
    else if entries[0].key == key then entries[1..]
    else [entries[0]] + Without(entries[1..], key)
  }

  function Dropped(m: Memory, key: nat): Memory {
    m.(entries := Without(m.entries, key))
  }

  function PiecesOfOthers(held: seq<Held>, id: string): (r: seq<Held>)
    ensures forall h :: h in r <==> h in held && h.id != id
  {
    if held == [] then []
    else (if held[0].id != id then [held[0]] else []) + PiecesOfOthers(held[1..], id)
  }

  function Forgotten(entries: seq<Entry>, id: string): seq<Entry> {
    if entries == [] then []
    else
      var held := PiecesOfOthers(entries[0].held, id);
      (if held == [] then [] else [entries[0].(held := held)]) + Forgotten(entries[1..], id)
  }

  function Forgot(m: Memory, id: string): Memory {
    m.(entries := Forgotten(m.entries, id))
  }

  // ---------------------------------------------------------------- soundness

  /**
   * A piece sits at its offset in the deleted text. The head of an anchor is
   * cut by the end of a deletion, and its tail by the start of one.
   */
  predicate Fits(text: Text, h: Held) {
    && h.text != []
    && h.offset + |h.text| <= |text|
    && text[h.offset..h.offset + |h.text|] == h.text
    && (h.side.Head? ==> h.offset + |h.text| == |text|)
    && (h.side.Tail? ==> h.offset == 0)
  }

  predicate EntrySound(e: Entry) {
    && e.text != [] && e.held != []
    && forall h <- e.held :: Fits(e.text, h)
  }

  predicate KeysRise(entries: seq<Entry>, next: nat) {
    && (forall i, j :: 0 <= i < j < |entries| ==> entries[i].key < entries[j].key)
    && forall i :: 0 <= i < |entries| ==> entries[i].key < next
  }

  predicate Sound(m: Memory) {
    && |m.entries| <= m.limit
    && KeysRise(m.entries, m.next)
    && forall e <- m.entries :: EntrySound(e)
  }

  lemma {:induction false} RememberSound(m: Memory, text: Text, held: seq<Held>)
    requires Sound(m) && forall h <- held :: Fits(text, h)
    ensures Sound(Remembered(m, text, held))
    ensures text != [] && held != [] && m.limit > 0 ==>
              var r := Remembered(m, text, held);
              r.entries != [] && r.entries[|r.entries| - 1] == Entry(m.next, text, held)
  {
  }

  /** What is remembered is the newest deletions, as many as the limit allows, in their order. */
  lemma {:induction false} RememberKeepsNewest(m: Memory, text: Text, held: seq<Held>)
    requires text != [] && held != []
    ensures var all, kept := m.entries + [Entry(m.next, text, held)], Remembered(m, text, held).entries;
            && |kept| == (if |all| <= m.limit then |all| else m.limit)
            && forall i :: 0 <= i < |kept| ==> kept[i] == all[|all| - |kept| + i]
  {
  }

  lemma {:induction false} WithoutShape(entries: seq<Entry>, key: nat) returns (i: nat)
    ensures i <= |entries| && forall j :: 0 <= j < i ==> entries[j].key != key
    ensures i < |entries| ==> entries[i].key == key && Without(entries, key) == entries[..i] + entries[i + 1..]
    ensures i == |entries| ==> Without(entries, key) == entries
  {
    if entries == [] || entries[0].key == key {
      i := 0;
    } else {
      var k := WithoutShape(entries[1..], key);
      i := k + 1;
      if i < |entries| {
        assert entries[..i] == [entries[0]] + entries[1..][..k];
        assert entries[1..][k + 1..] == entries[i + 1..];
      }
    }
  }

  /** Dropping a hit takes out that entry and leaves the rest in order. */
  lemma {:induction false} DropTakesOne(entries: seq<Entry>, next: nat, i: nat)
    requires KeysRise(entries, next) && i < |entries|
    ensures Without(entries, entries[i].key) == entries[..i] + entries[i + 1..]
  {
    var k := WithoutShape(entries, entries[i].key);
  }

  lemma {:induction false} DropSound(m: Memory, key: nat)
    requires Sound(m)
    ensures Sound(Dropped(m, key))
  {
    var i := WithoutShape(m.entries, key);
  }

  lemma {:induction false} ForgottenSound(entries: seq<Entry>, next: nat, id: string)
    requires KeysRise(entries, next)
    requires forall e <- entries :: EntrySound(e)
    ensures KeysRise(Forgotten(entries, id), next)
    ensures |Forgotten(entries, id)| <= |entries|
    ensures forall e <- Forgotten(entries, id) :: EntrySound(e)
    ensures forall e <- Forgotten(entries, id) :: entries != [] && e.key >= entries[0].key
  {
    if entries == [] {
    } else {
      assert entries[0] in entries;
      ForgottenSound(entries[1..], next, id);
    }
  }

  ghost function Pieces(entries: seq<Entry>): set<(nat, Held)> {
    if entries == [] then {}
    else (set h | h in entries[0].held :: (entries[0].key, h)) + Pieces(entries[1..])
  }

  lemma {:induction false} ForgottenPieces(entries: seq<Entry>, id: string)
    ensures Pieces(Forgotten(entries, id)) == set p | p in Pieces(entries) && p.1.id != id
  {
    if entries == [] {
    } else {
      ForgottenPieces(entries[1..], id);
      var held := PiecesOfOthers(entries[0].held, id);
      var rest := Forgotten(entries[1..], id);
      if held != [] {
        assert Forgotten(entries, id)[1..] == rest;
      } else {
        assert Forgotten(entries, id) == rest;
      }
    }
  }

  /** Forgetting a comment keeps the memory sound and takes out its pieces only. */
  lemma {:induction false} ForgetSound(m: Memory, id: string)
    requires Sound(m)
    ensures Sound(Forgot(m, id))
    ensures Pieces(Forgot(m, id).entries) == set p | p in Pieces(m.entries) && p.1.id != id
  {
    ForgottenSound(m.entries, m.next, id);
    ForgottenPieces(m.entries, id);
  }

  // ---------------------------------------------------------------- landing

  /** The piece holds the newline that the insertion has at the other end. */
  predicate HoldsMovedNewline(text: Text, shift: int, h: Held) {
    || (shift == 1 && h.offset + |h.text| == |text|)
    || (shift == -1 && h.offset == 0)
  }

  /**
   * Where a held piece lands: inside the claimed span exactly when it does
   * not hold the moved newline, and a piece that lands inside reads as it was.
   */
  lemma {:induction false} PieceLands(inserted: Text, text: Text, f: Found, h: Held)
    requires text != [] && Fits(text, h) && Locate(inserted, text) == Some(f)
    ensures !HoldsMovedNewline(text, f.shift, h) <==>
            f.at <= f.at + f.shift + h.offset && f.at + f.shift + h.offset + |h.text| <= f.at + |text|
    ensures !HoldsMovedNewline(text, f.shift, h) ==> OccursAt(inserted, h.text, f.at + f.shift + h.offset)
  {
    HitMeans(inserted, text, f);
    if !HoldsMovedNewline(text, f.shift, h) {
      PieceInRotated(text, f.shift, h);
      OccursWithin(inserted, Rotated(text, f.shift), f.at, h.text, f.shift + h.offset);
    }
  }

  lemma {:induction false} PieceInRotated(text: Text, shift: int, h: Held)
    requires text != [] && Fits(text, h) && -1 <= shift <= 1 && !HoldsMovedNewline(text, shift, h)
    ensures |Rotated(text, shift)| == |text|
    ensures OccursAt(Rotated(text, shift), h.text, shift + h.offset)
  {
    var needle, o := Rotated(text, shift), shift + h.offset;
    forall k | 0 <= k < |h.text|
      ensures needle[o + k] == h.text[k]
    {
      assert text[h.offset..h.offset + |h.text|][k] == text[h.offset + k];
    }
  }

  // ---------------------------------------------------------------- the class

  function ForgotAt(es: seq<Entry>, id: string, i: nat): seq<Entry>
    requires i < |es|
  {
    var held := PiecesOfOthers(es[i].held, id);
    if held == [] then es[..i] + es[i + 1..] else es[i := es[i].(held := held)]
  }

  lemma {:induction false} ForgetStep(was: seq<Entry>, es: seq<Entry>, id: string, i: nat)
    requires i < |was| && i < |es| && es[..i + 1] == was[..i + 1] && es[i + 1..] == Forgotten(was[i + 1..], id)
    ensures var es' := ForgotAt(es, id, i);
            i <= |es'| && es'[..i] == was[..i] && es'[i..] == Forgotten(was[i..], id)
  {
    assert es[i] == es[..i + 1][i] == was[i];
    assert was[i..][0] == was[i] && was[i..][1..] == was[i + 1..];
    assert es[..i] == es[..i + 1][..i] && was[..i] == was[..i + 1][..i];
    var held := PiecesOfOthers(es[i].held, id);
    if held != [] {
      var es' := es[i := es[i].(held := held)];
      assert es'[i..] == [es[i].(held := held)] + es[i + 1..];
    }
  }

  lemma {:induction false} FindUnfolds(m: Memory, inserted: Text, claimed: seq<Span>, i: nat)
    requires i < |m.entries| && m.entries[i].text != []
    ensures var e := m.entries[i];
            var found := Locate(inserted, e.text);
            FindBelow(m, inserted, claimed, i + 1) ==
            if found.Some? && Free(claimed, Span(found.value.at, found.value.at + |e.text|))
            then Some(Hit(e, i, found.value.at, found.value.shift)) else FindBelow(m, inserted, claimed, i)
  {
  }

  lemma {:induction false} WithoutPast(es: seq<Entry>, key: nat, i: nat)
    requires i < |es| && es[i].key != key && Without(es, key) == es[..i] + Without(es[i..], key)
    ensures Without(es, key) == es[..i + 1] + Without(es[i + 1..], key)
  {
    assert es[i..][0] == es[i] && es[i..][1..] == es[i + 1..];
    ConcatAssociates(es[..i], [es[i]], Without(es[i + 1..], key));
    assert es[..i] + [es[i]] == es[..i + 1];
  }

  lemma {:induction false} WithoutAt(es: seq<Entry>, key: nat, i: nat)
    requires i < |es| && es[i].key == key && Without(es, key) == es[..i] + Without(es[i..], key)
    ensures Without(es, key) == es[..i] + es[i + 1..]
  {
    assert es[i..][0] == es[i] && es[i..][1..] == es[i + 1..];
  }

  class MoveMemory {
    const limit: nat
    var entries: seq<Entry>
    var next: nat

    constructor (limit: nat)
      ensures View() == Memory(limit, [], 0) && Sound(View())
    {
      this.limit := limit;
      entries := [];
      next := 0;
    }

    function View(): Memory
      reads this
    {
      Memory(limit, entries, next)
    }

    method Remember(text: Text, held: seq<Held>)
      modifies this
      ensures View() == Remembered(old(View()), text, held)
    {
      if text == [] || held == [] { return; }
      entries := entries + [Entry(next, text, held)];
      next := next + 1;
      ghost var grown := entries;
      while |entries| > limit
        invariant |entries| <= |grown| && entries == grown[|grown| - |entries|..]
        invariant |grown| > limit ==> |entries| >= limit
        invariant |grown| <= limit ==> entries == grown
        invariant next == old(next) + 1
      {
        entries := entries[1..];
      }
    }

    method Find(inserted: Text, claimed: seq<Span>, below: nat) returns (hit: Option<Hit>)
      requires forall e <- entries :: e.text != []
      ensures hit == FindBelow(View(), inserted, claimed, below)
    {
      ghost var answer := FindBelow(View(), inserted, claimed, below);
      var i := if below < |entries| then below else |entries|;
      CapBelow(View(), inserted, claimed, below);
      while i > 0
        invariant 0 <= i <= |entries|
        invariant answer == FindBelow(View(), inserted, claimed, i)
      {
        i := i - 1;
        FindUnfolds(View(), inserted, claimed, i);
        var entry := entries[i];
        var found := Locate(inserted, entry.text);
        if found.None? || !Free(claimed, Span(found.value.at, found.value.at + |entry.text|)) { continue; }
        return Some(Hit(entry, i, found.value.at, found.value.shift));
      }
      return None;
    }

    method Drop(entry: Entry)
      modifies this
      ensures View() == Dropped(old(View()), entry.key)
    {
      var i, es := 0, entries;
      while i < |es| && es[i].key != entry.key
        invariant 0 <= i <= |es| && entries == es && unchanged(this)
        invariant Without(es, entry.key) == es[..i] + Without(es[i..], entry.key)
      {
        WithoutPast(es, entry.key, i);
        i := i + 1;
      }
      if i < |es| {
        WithoutAt(es, entry.key, i);
        entries := es[..i] + es[i + 1..];
      } else {
        assert es[..i] == es && es[i..] == [] && es + [] == es;
      }
    }

    method Forget(id: string)
      modifies this
      ensures View() == Forgot(old(View()), id)
    {
      var i := |entries|;
      ghost var was := entries;
      while i > 0
        invariant 0 <= i <= |was| && i <= |entries|
        invariant entries[..i] == was[..i] && entries[i..] == Forgotten(was[i..], id)
        invariant next == old(next)
      {
        i := i - 1;
        var held := PiecesOfOthers(entries[i].held, id);
        ForgetStep(was, entries, id, i);
        if held == [] {
          entries := entries[..i] + entries[i + 1..];
        } else {
          entries := entries[i := entries[i].(held := held)];
        }
      }
    }
  }

  lemma {:induction false} CapBelow(m: Memory, inserted: Text, claimed: seq<Span>, below: nat)
    ensures below > |m.entries| ==>
              FindBelow(m, inserted, claimed, below) == FindBelow(m, inserted, claimed, |m.entries|)
    decreases below
  {
    if below > |m.entries| { CapBelow(m, inserted, claimed, below - 1); }
  }
}
