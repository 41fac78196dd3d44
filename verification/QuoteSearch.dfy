/**
 * Finding a quoted passage in a rendered page: as written, or with white
 * space flattened on both sides. The selectors are the Text Quote and Text
 * Position selectors of the W3C Web Annotation Data Model, sections 4.2.4 and
 * 4.2.5.
 */
module QuoteSearch {
  import opened Common
  import opened Utf16
  import opened FlatText

  // ------------------------------------------------------- context scores

  /** How many units two texts start with in common. */
  function Shared(a: Text, b: Text): nat {
    if a != [] && b != [] && a[0] == b[0] then 1 + Shared(a[1..], b[1..]) else 0
  }

  lemma {:induction false} CommonIs(a: Text, b: Text, i: nat)
    requires i <= |a| && i <= |b| && a[..i] == b[..i] && (i == |a| || i == |b| || a[i] != b[i])
    ensures Shared(a, b) == i
  {
    if i > 0 {
      assert a[..i][0] == a[0] && b[..i][0] == b[0];
      assert a[1..][..i - 1] == a[..i][1..] && b[1..][..i - 1] == b[..i][1..];
      CommonIs(a[1..], b[1..], i - 1);
    }
  }

  method CommonPrefix(a: Text, b: Text) returns (i: nat)
    ensures i == Shared(a, b)
    ensures i <= |a| && i <= |b| && a[..i] == b[..i]
    ensures i == |a| || i == |b| || a[i] != b[i]
  {
    i := 0;
    while i < |a| && i < |b| && a[i] == b[i]
      invariant i <= |a| && i <= |b| && a[..i] == b[..i]
    {
      i := i + 1;
    }
    CommonIs(a, b, i);
  }

  predicate IsPair(t: Text) {
    |t| >= 2 && 0xd800 <= t[0] < 0xdc00 && 0xdc00 <= t[1] < 0xe000
  }

  /** The text with its code points, and not the halves of a pair, in the other order. */
  function Reverse(t: Text): Text {
    if t == [] then []
    else
      var n := if IsPair(t) then 2 else 1;
      Reverse(t[n..]) + t[..n]
  }

  /** A Text Quote selector, with the position recorded when the comment was made. */
  datatype Selector = Selector(exact: Text, prefix: Text, suffix: Text, position: Option<int>, requireUnique: bool)

  predicate Fits(t: Text, q: Selector, at: nat) {
    at + |q.exact| <= |t|
  }

  function Before(t: Text, q: Selector, at: nat): Text
    requires Fits(t, q, at)
  {
    t[if at > |q.prefix| then at - |q.prefix| else 0..at]
  }

  function After(t: Text, q: Selector, at: nat): Text
    requires Fits(t, q, at)
  {
    var from := at + |q.exact|;
    t[from..if from + |q.suffix| < |t| then from + |q.suffix| else |t|]
  }

  /** How much of the recorded context still matches on either side. */
  function Score(t: Text, q: Selector, at: nat): nat
    requires Fits(t, q, at)
  {
    Shared(Reverse(q.prefix), Reverse(Before(t, q, at))) + Shared(q.suffix, After(t, q, at))
  }

  // ------------------------------------------------------- the search

  const MAX_CANDIDATES: nat := 5001

  /** The first occurrences, in order: all of them unless there are more than are examined. */
  ghost predicate Examined(t: Text, exact: Text, positions: seq<nat>) {
    && |positions| <= MAX_CANDIDATES && Increasing(positions)
    && (forall i <- positions :: OccursAt(t, exact, i))
    && forall i: nat :: OccursAt(t, exact, i) ==>
         i in positions || (|positions| == MAX_CANDIDATES && positions[MAX_CANDIDATES - 1] < i)
  }

  ghost predicate ExaminedBelow(t: Text, exact: Text, positions: seq<nat>, limit: nat) {
    && Increasing(positions)
    && (forall i <- positions :: OccursAt(t, exact, i) && i < limit)
    && forall i: nat :: i < limit && OccursAt(t, exact, i) ==> i in positions
  }

  lemma {:induction false} OneMore(t: Text, exact: Text, positions: seq<nat>, limit: nat, at: nat)
    requires ExaminedBelow(t, exact, positions, limit) && limit <= at && OccursAt(t, exact, at)
    requires forall i :: limit <= i < at ==> !OccursAt(t, exact, i)
    ensures ExaminedBelow(t, exact, positions + [at], at + 1)
  {
    IncreasingGrows(positions, at);
  }

  lemma {:induction false} IncreasingGrows(s: seq<nat>, x: nat)
    requires Increasing(s) && forall i <- s :: i < x
    ensures Increasing(s + [x])
  {
    var all := s + [x];
    forall i, j | 0 <= i < j < |all|
      ensures all[i] < all[j]
    {
      assert all[i] == s[i] && s[i] in s;
    }
  }

  method Candidates(t: Text, exact: Text) returns (positions: seq<nat>)
    requires exact != []
    ensures Examined(t, exact, positions)
  {
    positions := [];
    var limit: nat := 0;
    var cursor := IndexOf(t, exact, 0);
    while cursor.Some?
      invariant ExaminedBelow(t, exact, positions, limit) && |positions| < MAX_CANDIDATES && limit <= |t|
      invariant cursor == IndexOf(t, exact, limit)
      decreases |t| - limit
    {
      OneMore(t, exact, positions, limit, cursor.value);
      positions := positions + [cursor.value];
      limit := cursor.value + 1;
      if |positions| > 5000 { return; }
      cursor := IndexOf(t, exact, limit);
    }
  }

  function Distance(a: nat, position: int): nat {
    if a > position then a - position else position - a
  }

  /** With equal scores the nearest to the recorded position is better, and otherwise the first. */
  predicate Nearer(position: Option<int>, a: nat, b: nat) {
    match position
    case None => a <= b
    case Some(x) => Distance(a, x) < Distance(b, x) || (Distance(a, x) == Distance(b, x) && a <= b)
  }

  /** The candidates with the best score, in order. */
  ghost predicate BestOf(t: Text, q: Selector, positions: seq<nat>, best: seq<nat>, top: nat) {
    && Increasing(best)
    && forall i :: i in best <==> i in positions && Fits(t, q, i) && Score(t, q, i) == top
  }

  method TopScore(t: Text, q: Selector, positions: seq<nat>) returns (top: nat)
    requires positions != [] && forall i <- positions :: Fits(t, q, i)
    ensures forall i <- positions :: Score(t, q, i) <= top
    ensures exists i <- positions :: Score(t, q, i) == top
  {
    top := Score(t, q, positions[0]);
    ghost var at := positions[0];
    for k := 1 to |positions|
      invariant at in positions && Score(t, q, at) == top
      invariant forall i <- positions[..k] :: Score(t, q, i) <= top
    {
      assert positions[..k + 1] == positions[..k] + [positions[k]];
      var before := CommonPrefix(Reverse(q.prefix), Reverse(Before(t, q, positions[k])));
      var after := CommonPrefix(q.suffix, After(t, q, positions[k]));
      if before + after > top { top, at := before + after, positions[k]; }
    }
    assert positions[..|positions|] == positions;
  }

  method Tied(t: Text, q: Selector, positions: seq<nat>, top: nat) returns (best: seq<nat>)
    requires Increasing(positions) && forall i <- positions :: Fits(t, q, i)
    ensures BestOf(t, q, positions, best, top)
  {
    best := [];
    for k := 0 to |positions|
      invariant BestOf(t, q, positions[..k], best, top)
    {
      assert positions[..k + 1] == positions[..k] + [positions[k]];
      if Score(t, q, positions[k]) == top {
        IncreasingGrows(best, positions[k]);
        best := best + [positions[k]];
      }
    }
    assert positions[..|positions|] == positions;
  }

  method Nearest(best: seq<nat>, position: Option<int>) returns (at: nat)
    requires best != [] && Increasing(best)
    ensures at in best && forall i <- best :: Nearer(position, at, i)
  {
    at := best[0];
    if position.None? { return; }
    for k := 1 to |best|
      invariant at in best[..k] && forall i <- best[..k] :: Nearer(position, at, i)
    {
      assert best[..k + 1] == best[..k] + [best[k]];
      if Distance(best[k], position.value) < Distance(at, position.value) { at := best[k]; }
    }
    assert best[..|best|] == best;
  }

  /** One candidate scores more than every other. */
  ghost predicate Wins(t: Text, q: Selector, positions: seq<nat>, at: nat) {
    && at in positions && Fits(t, q, at)
    && forall i <- positions :: i != at && Fits(t, q, i) ==> Score(t, q, i) < Score(t, q, at)
  }

  /** No candidate is better than the one chosen. */
  ghost predicate Chosen(t: Text, q: Selector, positions: seq<nat>, at: nat) {
    && at in positions && Fits(t, q, at)
    && forall i <- positions :: Fits(t, q, i) ==>
         Score(t, q, i) < Score(t, q, at) || (Score(t, q, i) == Score(t, q, at) && Nearer(q.position, at, i))
  }

  ghost predicate HasWinner(t: Text, q: Selector, positions: seq<nat>) {
    exists at :: Wins(t, q, positions, at)
  }

  /**
   * What a search answers: nothing for an empty quote, for one that does not
   * occur and, where one is asked for, without a winner; and otherwise the
   * best of the candidates it examined.
   */
  ghost predicate Answers(t: Text, q: Selector, positions: seq<nat>, r: Option<Span>) {
    match r
    case None => q.exact == [] || positions == [] || (q.requireUnique && !HasWinner(t, q, positions))
    case Some(span) =>
      && q.exact != [] && 0 <= span.from && span.to == span.from + |q.exact| && OccursAt(t, q.exact, span.from)
      && Chosen(t, q, positions, span.from)
      && (q.requireUnique ==> Wins(t, q, positions, span.from))
  }

  method Choose(t: Text, q: Selector, positions: seq<nat>) returns (r: Option<nat>)
    requires positions != [] && Increasing(positions) && forall i <- positions :: Fits(t, q, i)
    ensures r.None? <==> q.requireUnique && !HasWinner(t, q, positions)
    ensures r.Some? ==> Chosen(t, q, positions, r.value) && (q.requireUnique ==> Wins(t, q, positions, r.value))
  {
    var top := TopScore(t, q, positions);
    var best := Tied(t, q, positions, top);
    assert best != [];
    if |best| == 1 {
      assert Wins(t, q, positions, best[0]);
      return Some(best[0]);
    }
    if q.requireUnique {
      assert !HasWinner(t, q, positions) by {
        assert best[0] in best && best[1] in best && best[0] < best[1];
      }
      return None;
    }
    var at := Nearest(best, q.position);
    r := Some(at);
  }

  /** The answer over the occurrences the search examines. */
  ghost predicate Answered(t: Text, q: Selector, r: Option<Span>) {
    exists positions :: (q.exact != [] ==> Examined(t, q.exact, positions)) && Answers(t, q, positions, r)
  }

  method Search(t: Text, q: Selector) returns (r: Option<Span>)
    ensures Answered(t, q, r)
  {
    if q.exact == [] {
      assert Answers(t, q, [], None);
      return None;
    }
    var positions := Candidates(t, q.exact);
    if positions == [] {
      assert Answers(t, q, positions, None);
      return None;
    }
    var at := Choose(t, q, positions);
    r := if at.None? then None else Some(Span(at.value, at.value + |q.exact|));
    assert Answers(t, q, positions, r);
  }

  // ------------------------------------------------------- with the fallback

  /** A flattened text with its map, as the fallback takes it. */
  datatype FlatView = FlatView(text: Text, offsets: seq<nat>)

  predicate ViewOf(v: FlatView, t: Text) {
    v.text == View(t) && v.offsets == Offsets(t)
  }

  function Loose(q: Selector): Selector {
    Selector(Flat(q.exact), Flat(q.prefix), Flat(q.suffix), None, q.requireUnique)
  }

  /** The span of the text that a span of the view stands for. */
  predicate StandsFor(view: FlatView, loose: Span, span: Span) {
    && 0 <= loose.from < loose.to <= |view.offsets|
    && span == Span(view.offsets[loose.from], view.offsets[loose.to - 1] + 1)
  }

  /** The best match of the quote and its context, all with white space flattened, mapped back. */
  ghost predicate MapsBack(view: FlatView, q: Selector, r: Option<Span>) {
    exists loose :: Answered(view.text, Selector(Flat(q.exact), Flat(q.prefix), Flat(q.suffix), None, q.requireUnique), loose)
                    && if loose.None? then r.None? else r.Some? && StandsFor(view, loose.value, r.value)
  }

  /** The best match as written, and only without one the best match with white space flattened. */
  ghost predicate Located(t: Text, q: Selector, view: Option<FlatView>, r: Option<Span>) {
    if r.Some? && Answered(t, q, r) then true
    else Answered(t, q, None) && if view.None? then r.None? else MapsBack(view.value, q, r)
  }

  /**
   * Locates a selector: it is the best match as written, or without one the
   * best with white space flattened; what it finds is the quote up to white
   * space; and unless it must be unique, a quote that is not blank is found
   * wherever the text holds it up to white space.
   */
  method AnchorOne(t: Text, q: Selector, view: Option<FlatView>) returns (r: Option<Span>)
    requires view.Some? ==> ViewOf(view.value, t)
    ensures Located(t, q, view, r)
    ensures r.Some? ==> Found(t, q.exact, r.value)
    ensures view.Some? && !q.requireUnique && HoldsSomewhere(t, q.exact) ==> r.Some?
  {
    r := Search(t, q);
    if r.Some? {
      AsWritten(t, q, r.value);
      return;
    }
    if view.None? { return None; }
    r := Fallback(t, q, view.value);
  }

  lemma {:induction false} AsWritten(t: Text, q: Selector, span: Span)
    requires Answered(t, q, Some(span))
    ensures Found(t, q.exact, span)
  {
  }

  /** Again with white space flattened on both sides, the hit mapped back to real offsets. */
  method Fallback(t: Text, q: Selector, view: FlatView) returns (r: Option<Span>)
    requires ViewOf(view, t)
    ensures MapsBack(view, q, r)
    ensures r.Some? ==> Found(t, q.exact, r.value)
    ensures !q.requireUnique && HoldsSomewhere(t, q.exact) ==> r.Some?
  {
    var loose := Search(view.text, Loose(q));
    if loose.None? {
      FallbackMisses(t, q, view);
      return None;
    }
    FallbackHits(t, q, view, loose.value);
    r := Some(Span(view.offsets[loose.value.from], view.offsets[loose.value.to - 1] + 1));
  }

  lemma {:induction false} FallbackMisses(t: Text, q: Selector, view: FlatView)
    requires ViewOf(view, t) && Answered(view.text, Loose(q), None)
    ensures !q.requireUnique ==> !HoldsSomewhere(t, q.exact)
  {
    if !q.requireUnique && Flat(q.exact) != [] { NothingHolds(t, q.exact); }
  }

  lemma {:induction false} FallbackHits(t: Text, q: Selector, view: FlatView, loose: Span)
    requires ViewOf(view, t) && Answered(view.text, Loose(q), Some(loose))
    ensures 0 <= loose.from < loose.to <= |view.offsets|
    ensures Found(t, q.exact, Span(view.offsets[loose.from], view.offsets[loose.to - 1] + 1))
  {
    MappedIsFound(t, q.exact, view, loose.from, loose.to);
  }

  lemma {:induction false} MappedIsFound(t: Text, quote: Text, view: FlatView, from: nat, to: nat)
    requires ViewOf(view, t) && Flat(quote) != [] && OccursAt(View(t), Flat(quote), from) && to == from + |Flat(quote)|
    ensures to <= |view.offsets| && Found(t, quote, Span(view.offsets[from], view.offsets[to - 1] + 1))
  {
    var a, b := FallbackIsSound(t, quote, from);
  }

  /** A stretch of the text that is the quote up to white space. */
  predicate Found(t: Text, quote: Text, span: Span) {
    0 <= span.from < span.to <= |t| && Alike(t[span.from..span.to], quote)
  }

  /** The text holds a quote that is not blank, up to white space. */
  ghost predicate HoldsSomewhere(t: Text, quote: Text) {
    Flat(quote) != [] && exists s: nat, e: nat :: HoldsQuote(t, quote, s, e)
  }

  predicate HoldsQuote(t: Text, quote: Text, s: nat, e: nat) {
    s <= e <= |t| && Alike(t[s..e], quote)
  }

  lemma {:induction false} NothingHolds(t: Text, quote: Text)
    requires Flat(quote) != [] && forall p: nat :: !OccursAt(View(t), Flat(quote), p)
    ensures !HoldsSomewhere(t, quote)
  {
    forall s: nat, e: nat | HoldsQuote(t, quote, s, e)
      ensures false
    {
      var p := FallbackIsComplete(t, quote, s, e);
    }
  }
}
