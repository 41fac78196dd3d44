/** Text with its white space flattened, and the way back to the offsets it came from. */
module FlatText {
  import opened Sequences
  import opened Utf16

  const SPACE: Unit := 0x20

  /** The white space of JavaScript's regular expressions, as ranges of code units. */
  const SPACES: seq<(int, int)> := [
    (0x20, 0x20), (0x09, 0x0d), (0xa0, 0xa0), (0x1680, 0x1680), (0x2000, 0x200a), (0x2028, 0x2029),
    (0x202f, 0x202f), (0x205f, 0x205f), (0x3000, 0x3000), (0xfeff, 0xfeff)]

  predicate InRanges(u: Unit, ranges: seq<(int, int)>) {
    ranges != [] && (ranges[0].0 <= u <= ranges[0].1 || InRanges(u, ranges[1..]))
  }

  predicate IsSpace(u: Unit) {
    InRanges(u, SPACES)
  }

  // ------------------------------------------------------- flattening

  /** What the view shows for the last unit of a text: a run of spaces shows one, and none at the very start. */
  function Shown(t: Text): Text
    requires t != []
  {
    var last := t[|t| - 1];
    if !IsSpace(last) then [last]
    else if |t| > 1 && !IsSpace(t[|t| - 2]) then [SPACE]
    else []
  }

  /** The flattened text. */
  function View(t: Text): Text {
    if t == [] then [] else View(t[..|t| - 1]) + Shown(t)
  }

  /** The offset each unit of the view stands for. */
  function Offsets(t: Text): seq<nat> {
    if t == [] then []
    else Offsets(t[..|t| - 1]) + if Shown(t) == [] then [] else [|t| - 1]
  }

  /** The flags the loop carries tell whether the last unit shown is a space. */
  predicate EndsShown(t: Text) {
    t != [] && !IsSpace(t[|t| - 1])
  }

  lemma {:induction false} NothingShown(t: Text)
    requires t != [] && View(t) == []
    ensures IsSpace(t[|t| - 1])
  {
    assert Shown(t) == [];
  }

  lemma {:induction false} ShownNext(t: Text, i: nat)
    requires i < |t|
    ensures var shown := if !IsSpace(t[i]) then [t[i]] else if EndsShown(t[..i]) then [SPACE] else [];
            && View(t[..i + 1]) == View(t[..i]) + shown
            && Offsets(t[..i + 1]) == Offsets(t[..i]) + if shown == [] then [] else [i]
    ensures EndsShown(t[..i + 1]) <==> !IsSpace(t[i])
  {
    var next := t[..i + 1];
    assert next[..|next| - 1] == t[..i];
  }

  method Flatten(t: Text) returns (view: Text, offsets: seq<nat>)
    ensures view == View(t) && offsets == Offsets(t)
  {
    view, offsets := [], [];
    var space := false;
    for i := 0 to |t|
      invariant view == View(t[..i]) && offsets == Offsets(t[..i])
      invariant !space && view != [] <==> EndsShown(t[..i])
    {
      ShownNext(t, i);
      if IsSpace(t[i]) {
        if !space && view != [] {
          view, offsets, space := view + [SPACE], offsets + [i], true;
        }
      } else {
        view, offsets, space := view + [t[i]], offsets + [i], false;
      }
    }
    assert t[..|t|] == t;
  }

  predicate Increasing(s: seq<nat>) {
    forall i, j :: 0 <= i < j < |s| ==> s[i] < s[j]
  }

  lemma {:induction false} NoneTwice(s: seq<nat>, i: nat, j: nat)
    requires Increasing(s) && i < |s| && j < |s| && s[i] == s[j]
    ensures i == j
  {
  }

  function Flattened(u: Unit): Unit {
    if IsSpace(u) then SPACE else u
  }

  /** The map is strictly increasing, and the view shows the unit at each offset it names. */
  lemma {:induction false} OffsetsMean(t: Text)
    ensures |Offsets(t)| == |View(t)| && Increasing(Offsets(t))
    ensures forall i :: 0 <= i < |Offsets(t)| ==> Offsets(t)[i] < |t| && View(t)[i] == Flattened(t[Offsets(t)[i]])
  {
    if t != [] {
      var front := t[..|t| - 1];
      OffsetsMean(front);
      forall i | 0 <= i < |Offsets(t)|
        ensures Offsets(t)[i] < |t| && View(t)[i] == Flattened(t[Offsets(t)[i]])
      {
        if i < |Offsets(front)| { assert front[Offsets(front)[i]] == t[Offsets(front)[i]]; }
      }
    }
  }

  /** From a unit that is not a space on, the view is that of the rest. */
  lemma {:induction false} ViewSplits(t: Text, a: nat, b: nat)
    requires a < b <= |t| && !IsSpace(t[a])
    ensures View(t[..b]) == View(t[..a]) + View(t[a..b])
    decreases b
  {
    if b == a + 1 {
      SplitsAtOnce(t, a);
    } else {
      ViewSplits(t, a, b - 1);
      SplitsNext(t, a, b);
    }
  }

  lemma {:induction false} SplitsNext(t: Text, a: nat, b: nat)
    requires a + 1 < b <= |t| && View(t[..b - 1]) == View(t[..a]) + View(t[a..b - 1])
    ensures View(t[..b]) == View(t[..a]) + View(t[a..b])
  {
    ViewStep(t, 0, b);
    ViewStep(t, a, b);
    SameShown(t[..b], t[a..b]);
    JoinLast(View(t[..b]), View(t[..b - 1]), View(t[..a]), View(t[a..b - 1]), View(t[a..b]), Shown(t[a..b]));
  }

  lemma {:induction false} SplitsAtOnce(t: Text, a: nat)
    requires a < |t| && !IsSpace(t[a])
    ensures View(t[..a + 1]) == View(t[..a]) + View(t[a..a + 1])
  {
    ViewStep(t, 0, a + 1);
    assert t[a..a + 1] == [t[a]];
    ViewOfOne(t[a]);
    assert Shown(t[..a + 1]) == [t[a]];
  }

  lemma {:induction false} JoinLast(whole: Text, front: Text, x: Text, y: Text, z: Text, last: Text)
    requires whole == front + last && front == x + y && z == y + last
    ensures whole == x + z
  {
    ConcatAssociates(x, y, last);
  }

  lemma {:induction false} ViewStep(t: Text, a: nat, b: nat)
    requires a < b <= |t|
    ensures t[0..b] == t[..b] && t[0..b - 1] == t[..b - 1] && View(t[a..b]) == View(t[a..b - 1]) + Shown(t[a..b])
  {
    assert t[a..b][..b - a - 1] == t[a..b - 1];
  }

  lemma {:induction false} ViewOfOne(u: Unit)
    requires !IsSpace(u)
    ensures View([u]) == [u]
  {
    assert [u][..0] == [];
  }

  lemma {:induction false} SameShown(s: Text, t: Text)
    requires |s| > 1 && |t| > 1 && s[|s| - 1] == t[|t| - 1] && s[|s| - 2] == t[|t| - 2]
    ensures Shown(s) == Shown(t)
  {
  }

  lemma {:induction false} PrefixShowsFirst(t: Text, b: nat)
    requires b <= |t|
    ensures |View(t[..b])| <= |View(t)| && View(t[..b]) == View(t)[..|View(t[..b])|]
    ensures |Offsets(t[..b])| <= |Offsets(t)| && Offsets(t[..b]) == Offsets(t)[..|Offsets(t[..b])|]
    decreases |t|
  {
    if b == |t| {
      assert t[..b] == t;
    } else {
      var front := t[..|t| - 1];
      PrefixShowsFirst(front, b);
      assert front[..b] == t[..b];
    }
  }

  // ------------------------------------------------------- the flattened quote

  function TrimLeft(t: Text): Text {
    if t != [] && IsSpace(t[0]) then TrimLeft(t[1..]) else t
  }

  function TrimRight(t: Text): Text {
    if t != [] && IsSpace(t[|t| - 1]) then TrimRight(t[..|t| - 1]) else t
  }

  /** Each run of spaces replaced by one. */
  function Collapse(t: Text): Text {
    if t == [] then []
    else
      var last := t[|t| - 1];
      Collapse(t[..|t| - 1])
      + if !IsSpace(last) then [last] else if |t| == 1 || !IsSpace(t[|t| - 2]) then [SPACE] else []
  }

  function Flat(t: Text): Text {
    TrimRight(TrimLeft(Collapse(t)))
  }

  /** A text equals a quote up to white space. */
  predicate Alike(a: Text, b: Text) {
    Flat(a) == Flat(b)
  }

  lemma {:induction false} CollapseIsView(t: Text)
    ensures Collapse(t) == (if t != [] && IsSpace(t[0]) then [SPACE] else []) + View(t)
  {
    if t != [] {
      var front := t[..|t| - 1];
      CollapseIsView(front);
      if front == [] {
        assert View(front) == [] && Collapse(front) == [];
      } else {
        assert front[0] == t[0] && front[|front| - 1] == t[|t| - 2];
      }
    }
  }

  lemma {:induction false} ViewStartsShown(t: Text)
    ensures View(t) != [] ==> !IsSpace(View(t)[0])
  {
    if t != [] {
      var front := t[..|t| - 1];
      ViewStartsShown(front);
      if View(front) == [] && front != [] {
        NothingShown(front);
        assert |t| > 1 ==> t[|t| - 2] == front[|front| - 1];
      }
    }
  }

  lemma {:induction false} FlatIsTrimmedView(t: Text)
    ensures Flat(t) == TrimRight(View(t))
  {
    CollapseIsView(t);
    ViewStartsShown(t);
    if t != [] && IsSpace(t[0]) {
      var c := [SPACE] + View(t);
      assert c[1..] == View(t) && IsSpace(c[0]);
      assert TrimLeft(c) == TrimLeft(c[1..]);
    } else {
      assert Collapse(t) == View(t);
    }
  }

  predicate Bounded(t: Text) {
    t != [] && !IsSpace(t[0]) && !IsSpace(t[|t| - 1])
  }

  lemma {:induction false} BoundedIsFlat(t: Text, a: nat, b: nat)
    requires a < b <= |t| && !IsSpace(t[a]) && !IsSpace(t[b - 1])
    ensures Flat(t[a..b]) == View(t[a..b])
  {
    var s := t[a..b];
    FlatIsTrimmedView(s);
    assert View(s)[|View(s)| - 1] == s[|s| - 1];
  }

  lemma {:induction false} TrimRightEnds(t: Text)
    ensures TrimRight(t) != [] ==> !IsSpace(TrimRight(t)[|TrimRight(t)| - 1]) && TrimRight(t)[0] == t[0]
  {
    if t != [] && IsSpace(t[|t| - 1]) { TrimRightEnds(t[..|t| - 1]); }
  }

  lemma {:induction false} FlatIsBounded(t: Text)
    ensures Flat(t) == [] || Bounded(Flat(t))
  {
    FlatIsTrimmedView(t);
    TrimRightEnds(View(t));
    ViewStartsShown(t);
  }

  lemma {:induction false} ViewDropsFirstSpace(t: Text)
    requires t != [] && IsSpace(t[0])
    ensures View(t) == View(t[1..])
    decreases |t|
  {
    var front := t[..|t| - 1];
    if |t| > 1 {
      ViewDropsFirstSpace(front);
      assert front[1..] == t[1..][..|t| - 2];
      assert |t| > 2 ==> t[1..][|t| - 3] == t[|t| - 2];
    } else {
      assert View(front) == [];
    }
  }

  lemma {:induction false} FlatDropsFirstSpace(t: Text)
    requires t != [] && IsSpace(t[0])
    ensures Flat(t) == Flat(t[1..])
  {
    ViewDropsFirstSpace(t);
    FlatIsTrimmedView(t);
    FlatIsTrimmedView(t[1..]);
  }

  lemma {:induction false} FlatDropsLastSpace(t: Text)
    requires t != [] && IsSpace(t[|t| - 1])
    ensures Flat(t) == Flat(t[..|t| - 1])
  {
    var front := t[..|t| - 1];
    FlatIsTrimmedView(t);
    FlatIsTrimmedView(front);
    if Shown(t) == [SPACE] {
      assert View(t)[..|View(t)| - 1] == View(front);
    } else {
      assert View(t) == View(front);
    }
  }

  lemma {:induction false} FlatOfEmpty()
    ensures Flat([]) == []
  {
  }

  /** A passage that is not blank has a core that starts and ends on a word. */
  lemma {:induction false} CoreOf(t: Text, s: nat, e: nat) returns (a: nat, b: nat)
    requires s <= e <= |t| && Flat(t[s..e]) != []
    ensures s <= a < b <= e && !IsSpace(t[a]) && !IsSpace(t[b - 1]) && Flat(t[a..b]) == Flat(t[s..e])
    decreases e - s
  {
    var p := t[s..e];
    FlatOfEmpty();
    if IsSpace(p[0]) {
      assert p[1..] == t[s + 1..e];
      FlatDropsFirstSpace(p);
      a, b := CoreOf(t, s + 1, e);
    } else if IsSpace(p[|p| - 1]) {
      assert p[..|p| - 1] == t[s..e - 1];
      FlatDropsLastSpace(p);
      a, b := CoreOf(t, s, e - 1);
    } else {
      a, b := s, e;
    }
  }

  // ------------------------------------------------------- the fallback is sound and complete

  lemma {:induction false} ViewBetween(t: Text, a: nat, b: nat, p: nat, q: nat)
    requires a < b <= |t| && !IsSpace(t[a]) && |View(t[..a])| == p && |View(t[..b])| == q
    ensures p <= q <= |View(t)| && View(t[a..b]) == View(t)[p..q]
  {
    ViewSplits(t, a, b);
    PrefixShowsFirst(t, b);
    assert View(t[..b])[p..] == View(t[a..b]);
    SliceOfSlice(View(t), 0, q, p, q);
  }

  lemma {:induction false} ShownWord(t: Text, p: nat)
    requires p < |View(t)| && !IsSpace(View(t)[p])
    ensures |Offsets(t)| == |View(t)| && Offsets(t)[p] < |t| && t[Offsets(t)[p]] == View(t)[p]
  {
    OffsetsMean(t);
  }

  /** The units before the one shown at `p` are the first `p` of the view. */
  lemma {:induction false} ShownAt(t: Text, p: nat, a: nat)
    requires p < |View(t)| && |Offsets(t)| == |View(t)| && a == Offsets(t)[p] < |t| && !IsSpace(t[a])
    ensures |View(t[..a])| == p && |View(t[..a + 1])| == p + 1
  {
    var upTo, past := t[..a], t[..a + 1];
    assert past[..a] == upTo;
    PrefixShowsFirst(t, a + 1);
    OffsetsMean(upTo);
    OffsetsMean(past);
    OffsetsMean(t);
    var i := |Offsets(upTo)|;
    assert Offsets(past) == Offsets(upTo) + [a];
    assert Offsets(t)[i] == a;
    NoneTwice(Offsets(t), i, p);
  }

  lemma {:induction false} OffsetsInOrder(t: Text, p: nat, q: nat)
    requires p <= q < |View(t)|
    ensures |Offsets(t)| == |View(t)| && Offsets(t)[p] <= Offsets(t)[q]
  {
    OffsetsMean(t);
  }

  /** Where a stretch of the view that starts and ends on a word is in the text. */
  lemma {:induction false} ViewMapsBack(t: Text, p: nat, q: nat, a: nat, c: nat)
    requires p <= q < |View(t)| && !IsSpace(View(t)[p]) && !IsSpace(View(t)[q])
    requires |Offsets(t)| == |View(t)| && a == Offsets(t)[p] && c == Offsets(t)[q]
    ensures a <= c < |t| && View(t[a..c + 1]) == View(t)[p..q + 1]
  {
    WordAt(t, p, a);
    WordAt(t, q, c);
    OffsetsInOrder(t, p, q);
    ViewBetween(t, a, c + 1, p, q + 1);
  }

  lemma {:induction false} WordAt(t: Text, p: nat, a: nat)
    requires p < |View(t)| && !IsSpace(View(t)[p]) && |Offsets(t)| == |View(t)| && a == Offsets(t)[p]
    ensures a < |t| && !IsSpace(t[a]) && |View(t[..a])| == p && |View(t[..a + 1])| == p + 1
  {
    ShownWord(t, p);
    ShownAt(t, p, a);
  }

  lemma {:induction false} EndsOnWords(v: Text, f: Text, p: nat)
    requires Bounded(f) && OccursAt(v, f, p)
    ensures !IsSpace(v[p]) && !IsSpace(v[p + |f| - 1])
  {
    assert v[p..p + |f|][0] == v[p] && v[p..p + |f|][|f| - 1] == v[p + |f| - 1];
  }

  lemma {:induction false} SpanOf(t: Text, f: Text, p: nat, a: nat, b: nat)
    requires Bounded(f) && OccursAt(View(t), f, p)
    requires |Offsets(t)| == |View(t)| && a == Offsets(t)[p] && b == Offsets(t)[p + |f| - 1] + 1
    ensures a < b <= |t| && Flat(t[a..b]) == f
  {
    var q := p + |f|;
    EndsOnWords(View(t), f, p);
    ViewMapsBack(t, p, q - 1, a, b - 1);
    assert Flat(t[a..b]) == View(t[a..b]) by {
      WordAt(t, p, a);
      WordAt(t, q - 1, b - 1);
      BoundedIsFlat(t, a, b);
    }
  }

  /** A span found through the view is the quote, up to white space. */
  lemma {:induction false} FallbackIsSound(t: Text, quote: Text, p: nat) returns (a: nat, b: nat)
    requires Flat(quote) != [] && OccursAt(View(t), Flat(quote), p)
    ensures |Offsets(t)| == |View(t)| && a == Offsets(t)[p] && b == Offsets(t)[p + |Flat(quote)| - 1] + 1
    ensures a < b <= |t| && Alike(t[a..b], quote)
  {
    var f := Flat(quote);
    FlatIsBounded(quote);
    OffsetsInOrder(t, p, p + |f| - 1);
    a, b := Offsets(t)[p], Offsets(t)[p + |f| - 1] + 1;
    SpanOf(t, f, p, a, b);
  }

  /** Any passage that is the quote up to white space shows the flattened quote in the view. */
  lemma {:induction false} FallbackIsComplete(t: Text, quote: Text, s: nat, e: nat) returns (p: nat)
    requires s <= e <= |t| && Alike(t[s..e], quote) && Flat(quote) != []
    ensures OccursAt(View(t), Flat(quote), p)
  {
    var a, b := CoreOf(t, s, e);
    p := |View(t[..a])|;
    ViewBetween(t, a, b, p, |View(t[..b])|);
    BoundedIsFlat(t, a, b);
  }
}
