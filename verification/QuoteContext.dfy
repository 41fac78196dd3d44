/**
 * What a context score measures. The search turns the recorded prefix and the
 * text before a candidate round and compares them from their new starts; here
 * the score is read off the texts as they stand, outward from the quote.
 */
module QuoteContext {
  import opened Common
  import opened Sequences
  import opened Utf16
  import opened FlatText
  import opened QuoteSearch

  // ------------------------------------------------------- code points

  predicate IsHigh(u: Unit) { 0xd800 <= u < 0xdc00 }

  predicate IsLow(u: Unit) { 0xdc00 <= u < 0xe000 }

  /** The offset does not split a surrogate pair. */
  predicate Boundary(t: Text, i: int) {
    0 < i < |t| ==> !(IsHigh(t[i - 1]) && IsLow(t[i]))
  }

  predicate EndsInPair(t: Text) {
    |t| >= 2 && IsHigh(t[|t| - 2]) && IsLow(t[|t| - 1])
  }

  /** Where the last code point starts. */
  function LastStart(t: Text): (r: nat)
    requires t != []
    ensures r < |t| && Boundary(t, r)
  {
    if EndsInPair(t) then |t| - 2 else |t| - 1
  }

  lemma {:induction false} ReverseLength(t: Text)
    ensures |Reverse(t)| == |t|
    decreases |t|
  {
    if t != [] { ReverseLength(t[if IsPair(t) then 2 else 1..]); }
  }

  lemma {:induction false} MiddleEitherWay(t: Text, n: nat, i: nat)
    requires n <= i <= |t|
    ensures t[n..][..i - n] == t[..i][n..]
  {
  }

  /** Turning a text round turns its two parts round and swaps them. */
  lemma {:induction false} ReverseSplits(t: Text, i: nat)
    requires i <= |t| && Boundary(t, i)
    ensures Reverse(t) == Reverse(t[i..]) + Reverse(t[..i])
    decreases |t|
  {
    if i == 0 {
      assert t[0..] == t && Reverse(t[..0]) == [];
    } else {
      var n := if IsPair(t) then 2 else 1;
      assert n <= i;
      ReverseSplits(t[n..], i - n);
      RestOfRest(t, n, i - n);
      MiddleEitherWay(t, n, i);
      assert IsPair(t[..i]) == IsPair(t) && t[..i][..n] == t[..n];
      ConcatAssociates(Reverse(t[i..]), Reverse(t[..i][n..]), t[..n]);
    }
  }

  lemma {:induction false} ReverseStartsWithLast(t: Text)
    requires t != []
    ensures Reverse(t) == t[LastStart(t)..] + Reverse(t[..LastStart(t)])
  {
    var point := t[LastStart(t)..];
    ReverseSplits(t, LastStart(t));
    assert Reverse(point) == point by {
      var n := if IsPair(point) then 2 else 1;
      assert n == |point| && point[n..] == [] && point[..n] == point;
    }
  }

  // ------------------------------------------------------- the same end

  /** Both texts end in the same `k` units, cut at code points. */
  predicate SameEnd(a: Text, b: Text, k: nat) {
    && k <= |a| && k <= |b| && a[|a| - k..] == b[|b| - k..]
    && Boundary(a, |a| - k) && Boundary(b, |b| - k)
  }

  ghost predicate LongestEnd(a: Text, b: Text, k: nat) {
    SameEnd(a, b, k) && forall j: nat :: SameEnd(a, b, j) ==> j <= k
  }

  ghost predicate EndsDiffer(a: Text, b: Text) {
    forall j: nat :: SameEnd(a, b, j) ==> j == 0
  }

  lemma {:induction false} SharedAfter(r: Text, x: Text, y: Text)
    ensures Shared(r + x, r + y) == |r| + Shared(x, y)
  {
    if r == [] {
      assert r + x == x && r + y == y;
    } else {
      assert (r + x)[1..] == r[1..] + x && (r + y)[1..] == r[1..] + y;
      SharedAfter(r[1..], x, y);
    }
  }

  lemma {:induction false} EndCounts(a: Text, b: Text, k: nat)
    requires SameEnd(a, b, k)
    ensures Shared(Reverse(a), Reverse(b)) == k + Shared(Reverse(a[..|a| - k]), Reverse(b[..|b| - k]))
  {
    var end := a[|a| - k..];
    ReverseSplits(a, |a| - k);
    ReverseSplits(b, |b| - k);
    ReverseLength(end);
    SharedAfter(Reverse(end), Reverse(a[..|a| - k]), Reverse(b[..|b| - k]));
  }

  lemma {:induction false} EndsAdd(a: Text, b: Text, k: nat, j: nat)
    requires SameEnd(a, b, k) && SameEnd(a[..|a| - k], b[..|b| - k], j)
    ensures SameEnd(a, b, k + j)
  {
    var x, y := a[..|a| - k], b[..|b| - k];
    assert a[|a| - (k + j)..] == x[|x| - j..] + a[|a| - k..];
    assert b[|b| - (k + j)..] == y[|y| - j..] + b[|b| - k..];
  }

  // ------------------------------------------------------- past the same end

  /** The next code points outward start with the same unit. */
  predicate SameStart(x: Text, y: Text) {
    x != [] && y != [] && x[LastStart(x)] == y[LastStart(y)]
  }

  /** One text ends in a pair where the other has the two halves, each alone, the other way round. */
  predicate Crossed(x: Text, y: Text) {
    && EndsInPair(x) && |y| >= 2 && !EndsInPair(y[..|y| - 1])
    && y[|y| - 1] == x[|x| - 2] && y[|y| - 2] == x[|x| - 1]
  }

  /** Where the ends differ, the turned texts share at most one unit unless they are crossed. */
  lemma {:induction false} StopCounts(x: Text, y: Text)
    requires EndsDiffer(x, y)
    ensures var s, half := Shared(Reverse(x), Reverse(y)), if SameStart(x, y) then 1 else 0;
            s >= half && (s == half <==> !Crossed(x, y) && !Crossed(y, x))
  {
    if x != [] && y != [] {
      ReverseStartsWithLast(x);
      ReverseStartsWithLast(y);
      StopAtPoints(x, y);
    }
  }

  lemma {:induction false} StopAtPoints(x: Text, y: Text)
    requires x != [] && y != [] && EndsDiffer(x, y)
    ensures var s, half := Shared(Reverse(x), Reverse(y)), if SameStart(x, y) then 1 else 0;
            s >= half && (s == half <==> !Crossed(x, y) && !Crossed(y, x))
  {
    ReverseStartsWithLast(x);
    ReverseStartsWithLast(y);
    assert Reverse(x)[0] == x[LastStart(x)] && Reverse(y)[0] == y[LastStart(y)];
    if EndsInPair(x) == EndsInPair(y) {
      var n := |x| - LastStart(x);
      assert !SameEnd(x, y, n);
      assert x[LastStart(x)..] != y[LastStart(y)..];
    } else if EndsInPair(x) {
      CrossedCounts(x, y);
    } else {
      CrossedCounts(y, x);
      SharedIsSymmetric(Reverse(x), Reverse(y));
    }
  }

  lemma {:induction false} SharedIsSymmetric(a: Text, b: Text)
    ensures Shared(a, b) == Shared(b, a)
  {
    if a != [] && b != [] { SharedIsSymmetric(a[1..], b[1..]); }
  }

  /** A pair against a code point of one unit. */
  lemma {:induction false} CrossedCounts(x: Text, y: Text)
    requires EndsInPair(x) && y != [] && !EndsInPair(y)
    ensures var s, half := Shared(Reverse(x), Reverse(y)), if SameStart(x, y) then 1 else 0;
            s >= half && (s == half <==> !Crossed(x, y)) && !Crossed(y, x)
  {
    ReverseStartsWithLast(x);
    ReverseStartsWithLast(y);
    var rest := y[..|y| - 1];
    assert Reverse(x)[1] == x[|x| - 1];
    assert Reverse(y)[1..] == Reverse(rest);
    if rest != [] {
      ReverseStartsWithLast(rest);
      assert Reverse(rest)[0] == rest[LastStart(rest)];
    }
  }

  // ------------------------------------------------------- the score of a candidate

  /** The last `k` units of the prefix stand before the candidate, cut at code points. */
  predicate Precedes(t: Text, q: Selector, at: nat, k: nat)
    requires Fits(t, q, at)
  {
    && k <= |q.prefix| && k <= at && q.prefix[|q.prefix| - k..] == t[at - k..at]
    && Boundary(q.prefix, |q.prefix| - k) && (0 < k < |q.prefix| ==> Boundary(t, at - k))
  }

  /** The first `n` units of the suffix stand after the quote. */
  predicate Succeeds(t: Text, q: Selector, at: nat, n: nat)
    requires Fits(t, q, at)
  {
    var end := at + |q.exact|;
    n <= |q.suffix| && end + n <= |t| && q.suffix[..n] == t[end..end + n]
  }

  lemma {:induction false} EndOfSlice(t: Text, lo: nat, at: nat, k: nat)
    requires lo <= at <= |t| && k <= at - lo
    ensures t[lo..at][at - lo - k..] == t[at - k..at]
    ensures 0 < k < at - lo ==> (Boundary(t[lo..at], at - lo - k) <==> Boundary(t, at - k))
  {
    var s := t[lo..at];
    SliceOfSlice(t, lo, at, at - lo - k, at - lo);
    assert s[at - lo - k..] == s[at - lo - k..at - lo];
  }

  lemma {:induction false} PrecedesIs(t: Text, q: Selector, at: nat, k: nat)
    requires Fits(t, q, at)
    ensures Precedes(t, q, at, k) <==> SameEnd(q.prefix, Before(t, q, at), k)
  {
    var lo := if at > |q.prefix| then at - |q.prefix| else 0;
    if k <= at - lo { EndOfSlice(t, lo, at, k); }
  }

  /** How far outward the context before the candidate agrees with the prefix. */
  ghost predicate LongestBefore(t: Text, q: Selector, at: nat, k: nat)
    requires Fits(t, q, at)
  {
    Precedes(t, q, at, k) && forall j: nat :: Precedes(t, q, at, j) ==> j <= k
  }

  ghost predicate LongestAfter(t: Text, q: Selector, at: nat, n: nat)
    requires Fits(t, q, at)
  {
    Succeeds(t, q, at, n) && forall j: nat :: Succeeds(t, q, at, j) ==> j <= n
  }

  /** What is left of the prefix, and of the text it is compared with, past the last `k` units. */
  function PrefixLeft(q: Selector, k: nat): Text
    requires k <= |q.prefix|
  {
    q.prefix[..|q.prefix| - k]
  }

  function TextLeft(t: Text, q: Selector, at: nat, k: nat): Text
    requires Fits(t, q, at) && k <= |q.prefix| && k <= at
  {
    t[if at > |q.prefix| then at - |q.prefix| else 0..at - k]
  }

  predicate HalfMore(t: Text, q: Selector, at: nat, k: nat)
    requires Fits(t, q, at) && k <= |q.prefix| && k <= at
  {
    SameStart(PrefixLeft(q, k), TextLeft(t, q, at, k))
  }

  predicate CrossedAt(t: Text, q: Selector, at: nat, k: nat)
    requires Fits(t, q, at) && k <= |q.prefix| && k <= at
  {
    var x, y := PrefixLeft(q, k), TextLeft(t, q, at, k);
    Crossed(x, y) || Crossed(y, x)
  }

  lemma {:induction false} NothingMore(a: Text, b: Text, k: nat)
    requires LongestEnd(a, b, k)
    ensures EndsDiffer(a[..|a| - k], b[..|b| - k])
  {
    var x, y := a[..|a| - k], b[..|b| - k];
    forall j: nat | SameEnd(x, y, j) ensures j == 0 { EndsAdd(a, b, k, j); }
  }

  /** The turned texts share the longest end the texts have in common, and at most one unit more unless crossed. */
  lemma {:induction false} EndMeans(a: Text, b: Text, k: nat, x: Text, y: Text)
    requires LongestEnd(a, b, k) && x == a[..|a| - k] && y == b[..|b| - k]
    ensures var s, half := Shared(Reverse(a), Reverse(b)), if SameStart(x, y) then 1 else 0;
            s >= k + half && (s == k + half <==> !Crossed(x, y) && !Crossed(y, x))
  {
    EndCounts(a, b, k);
    NothingMore(a, b, k);
    StopCounts(x, y);
  }

  lemma {:induction false} LongestBeforeIs(t: Text, q: Selector, at: nat, k: nat)
    requires Fits(t, q, at)
    ensures LongestBefore(t, q, at, k) <==> LongestEnd(q.prefix, Before(t, q, at), k)
  {
    forall j: nat ensures Precedes(t, q, at, j) <==> SameEnd(q.prefix, Before(t, q, at), j) { PrecedesIs(t, q, at, j); }
  }

  lemma {:induction false} LeftIs(t: Text, q: Selector, at: nat, k: nat)
    requires Fits(t, q, at) && k <= |Before(t, q, at)|
    ensures Before(t, q, at)[..|Before(t, q, at)| - k] == TextLeft(t, q, at, k)
  {
    var lo := if at > |q.prefix| then at - |q.prefix| else 0;
    SliceOfSlice(t, lo, at, 0, at - lo - k);
  }

  lemma {:induction false} BeforeCounts(t: Text, q: Selector, at: nat, k: nat)
    requires Fits(t, q, at) && LongestEnd(q.prefix, Before(t, q, at), k)
    ensures var s, half := Shared(Reverse(q.prefix), Reverse(Before(t, q, at))), if HalfMore(t, q, at, k) then 1 else 0;
            s >= k + half && (s == k + half <==> !CrossedAt(t, q, at, k))
  {
    LeftIs(t, q, at, k);
    EndMeans(q.prefix, Before(t, q, at), k, PrefixLeft(q, k), TextLeft(t, q, at, k));
  }

  lemma {:induction false} SharedIsCommon(a: Text, b: Text)
    ensures Shared(a, b) <= |a| && Shared(a, b) <= |b| && a[..Shared(a, b)] == b[..Shared(a, b)]
  {
    if a != [] && b != [] && a[0] == b[0] {
      var n := Shared(a[1..], b[1..]);
      SharedIsCommon(a[1..], b[1..]);
      assert a[..n + 1] == [a[0]] + a[1..][..n] && b[..n + 1] == [b[0]] + b[1..][..n];
    }
  }

  lemma {:induction false} SharedIsLongest(a: Text, b: Text, n: nat)
    requires n <= |a| && n <= |b| && a[..n] == b[..n]
    ensures n <= Shared(a, b)
  {
    if n > 0 {
      assert a[0] == a[..n][0] && b[0] == b[..n][0];
      assert a[1..][..n - 1] == a[..n][1..] && b[1..][..n - 1] == b[..n][1..];
      SharedIsLongest(a[1..], b[1..], n - 1);
    }
  }

  lemma {:induction false} LongestAfterIs(t: Text, q: Selector, at: nat)
    requires Fits(t, q, at)
    ensures LongestAfter(t, q, at, Shared(q.suffix, After(t, q, at)))
  {
    var after, end := After(t, q, at), at + |q.exact|;
    var s := Shared(q.suffix, after);
    SharedIsCommon(q.suffix, after);
    SliceOfSlice(t, end, end + |after|, 0, s);
    forall j: nat | Succeeds(t, q, at, j)
      ensures j <= s
    {
      SliceOfSlice(t, end, end + |after|, 0, j);
      SharedIsLongest(q.suffix, after, j);
    }
  }

  lemma {:induction false} AfterCounts(t: Text, q: Selector, at: nat, n: nat)
    requires Fits(t, q, at) && LongestAfter(t, q, at, n)
    ensures Shared(q.suffix, After(t, q, at)) == n
  {
    LongestAfterIs(t, q, at);
  }

  /**
   * The score of a candidate is how many units of the prefix stand before it,
   * outward and cut at code points, and how many of the suffix stand after it,
   * with one more where the next code points outward are different pairs with
   * one first half. That holds exactly where the texts are not crossed there,
   * and never counts less.
   */
  lemma {:induction false} ScoreMeans(t: Text, q: Selector, at: nat, k: nat, n: nat)
    requires Fits(t, q, at) && LongestBefore(t, q, at, k) && LongestAfter(t, q, at, n)
    ensures var half := if HalfMore(t, q, at, k) then 1 else 0;
            Score(t, q, at) >= k + half + n && (Score(t, q, at) == k + half + n <==> !CrossedAt(t, q, at, k))
  {
    LongestBeforeIs(t, q, at, k);
    BeforeCounts(t, q, at, k);
    AfterCounts(t, q, at, n);
  }

  /** The crossed case counts more: a pair, and its halves the other way round. */
  lemma {:induction false} CrossedScoresMore()
    ensures var t, q := [0xdc00, 0xd800, 81], Selector([81], [0xd800, 0xdc00], [], None, false);
            && LongestBefore(t, q, 2, 0) && LongestAfter(t, q, 2, 0) && HalfMore(t, q, 2, 0)
            && CrossedAt(t, q, 2, 0) && Score(t, q, 2) == 2
  {
    var pair: Text, halves: Text := [0xd800, 0xdc00], [0xdc00, 0xd800];
    var t, q: Selector := [0xdc00, 0xd800, 81], Selector([81], pair, [], None, false);
    assert Before(t, q, 2) == halves && After(t, q, 2) == [];
    assert q.prefix[1..] == [0xdc00] && t[1..2] == [0xd800] && q.prefix[0..] == pair && t[0..2] == halves;
    assert pair[0] != halves[0] && PrefixLeft(q, 0) == pair && TextLeft(t, q, 2, 0) == halves;
    assert halves[..1] == [0xdc00] && !EndsInPair(halves[..1]) && EndsInPair(pair);
    assert Crossed(pair, halves);
    assert !Precedes(t, q, 2, 1) && !Precedes(t, q, 2, 2);
    CrossedShare();
  }

  lemma {:induction false} CrossedShare()
    ensures Shared(Reverse([0xd800, 0xdc00]), Reverse([0xdc00, 0xd800])) == 2
  {
    var pair: Text := [0xd800, 0xdc00];
    TurnedHalves();
    SharedAfter(pair, [], []);
    assert pair + [] == pair;
  }

  lemma {:induction false} TurnedHalves()
    ensures Reverse([0xd800, 0xdc00]) == [0xd800, 0xdc00] == Reverse([0xdc00, 0xd800])
  {
    var pair: Text, halves: Text := [0xd800, 0xdc00], [0xdc00, 0xd800];
    assert pair[2..] == [] && pair[..2] == pair;
    assert halves[1..] == [0xd800] && halves[..1] == [0xdc00];
    assert [0xd800][1..] == [] && [0xd800][..1] == [0xd800];
  }

  /** No first half of a pair stands without its second. */
  predicate HalvesMeet(t: Text) {
    forall i :: 0 <= i < |t| ==> MeetsAt(t, i)
  }

  predicate MeetsAt(t: Text, i: nat)
    requires i < |t|
  {
    IsHigh(t[i]) ==> i + 1 < |t| && IsLow(t[i + 1])
  }

  lemma {:induction false} CutMeets(t: Text, n: nat)
    requires HalvesMeet(t) && 0 < n <= |t| && Boundary(t, n)
    ensures !IsHigh(t[n - 1])
  {
    assert MeetsAt(t, n - 1);
  }

  /** Texts without lone first halves are never crossed. */
  lemma {:induction false} WholePairsAreNotCrossed(t: Text, q: Selector, at: nat, k: nat)
    requires Fits(t, q, at) && Precedes(t, q, at, k) && HalvesMeet(q.prefix) && HalvesMeet(t[..at])
    ensures !CrossedAt(t, q, at, k)
  {
    var x, y := PrefixLeft(q, k), TextLeft(t, q, at, k);
    if x != [] && y != [] {
      CutMeets(q.prefix, |q.prefix| - k);
      assert Boundary(t[..at], at - k);
      CutMeets(t[..at], at - k);
      assert x[|x| - 1] == q.prefix[|q.prefix| - k - 1] && y[|y| - 1] == t[..at][at - k - 1];
      assert !IsHigh(x[|x| - 1]) && !IsHigh(y[|y| - 1]);
    }
  }

  // ------------------------------------------------------- the choice

  ghost function LongestFrom(a: Text, b: Text, n: nat): (k: nat)
    requires forall j: nat :: SameEnd(a, b, j) ==> j <= n
    ensures LongestEnd(a, b, k)
  {
    if SameEnd(a, b, n) then n else
      assert n != 0 by { assert SameEnd(a, b, 0); }
      LongestFrom(a, b, n - 1)
  }

  /** How much of the recorded context surrounds a candidate. */
  ghost function Surrounds(t: Text, q: Selector, at: nat): (r: (nat, nat))
    requires Fits(t, q, at)
    ensures LongestBefore(t, q, at, r.0) && LongestAfter(t, q, at, r.1)
  {
    var k := LongestFrom(q.prefix, Before(t, q, at), |q.prefix|);
    var n := Shared(q.suffix, After(t, q, at));
    LongestBeforeIs(t, q, at, k);
    LongestAfterIs(t, q, at);
    (k, n)
  }

  ghost function Context(t: Text, q: Selector, at: nat): nat
    requires Fits(t, q, at)
  {
    var (k, n) := Surrounds(t, q, at);
    k + n + if HalfMore(t, q, at, k) then 1 else 0
  }

  /** No candidate has more of the recorded context around it, and none with as much is nearer. */
  ghost predicate BestSurrounded(t: Text, q: Selector, positions: seq<nat>, at: nat) {
    && at in positions && Fits(t, q, at)
    && forall i <- positions :: Fits(t, q, i) ==>
         || Context(t, q, i) < Context(t, q, at)
         || (Context(t, q, i) == Context(t, q, at) && Nearer(q.position, at, i))
  }

  /** The candidate's texts are not crossed where they stop agreeing. */
  ghost predicate Plain(t: Text, q: Selector, at: nat)
    requires Fits(t, q, at)
  {
    !CrossedAt(t, q, at, Surrounds(t, q, at).0)
  }

  lemma {:induction false} ScoreIsContext(t: Text, q: Selector, at: nat)
    requires Fits(t, q, at)
    ensures Score(t, q, at) >= Context(t, q, at)
    ensures Score(t, q, at) == Context(t, q, at) <==> Plain(t, q, at)
  {
    var (k, n) := Surrounds(t, q, at);
    ScoreMeans(t, q, at, k, n);
  }

  lemma {:induction false} WholePairsArePlain(t: Text, q: Selector, at: nat)
    requires Fits(t, q, at) && HalvesMeet(q.prefix) && HalvesMeet(t[..at])
    ensures Plain(t, q, at)
  {
    WholePairsAreNotCrossed(t, q, at, Surrounds(t, q, at).0);
  }

  /**
   * What a search finds is the candidate that the recorded context surrounds
   * most, and where one must be unique it finds nothing only if each candidate
   * has another that is surrounded as much.
   */
  lemma {:induction false} SearchFindsContext(t: Text, q: Selector, positions: seq<nat>, r: Option<Span>)
    requires Answers(t, q, positions, r)
    requires forall i <- positions :: Fits(t, q, i) ==> Plain(t, q, i)
    ensures r.Some? ==> BestSurrounded(t, q, positions, r.value.from)
    ensures r.None? && q.exact != [] && positions != [] ==>
              forall at <- positions :: Fits(t, q, at) ==>
                exists i <- positions :: i != at && Fits(t, q, i) && Context(t, q, i) >= Context(t, q, at)
  {
    forall i <- positions | Fits(t, q, i)
      ensures Score(t, q, i) == Context(t, q, i)
    {
      ScoreIsContext(t, q, i);
    }
    if r.None? && q.exact != [] && positions != [] {
      forall at <- positions | Fits(t, q, at)
        ensures exists i <- positions :: i != at && Fits(t, q, i) && Context(t, q, i) >= Context(t, q, at)
      {
        assert !Wins(t, q, positions, at);
      }
    }
  }
}
