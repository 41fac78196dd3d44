/** Facts about slices and concatenation. */
module Sequences {
  lemma {:induction false} SliceOfSlice<T>(s: seq<T>, a: int, b: int, i: int, j: int)
    requires 0 <= a <= b <= |s| && 0 <= i <= j <= b - a
    ensures s[a..b][i..j] == s[a + i..a + j]
  {
    forall k | 0 <= k < j - i
      ensures s[a..b][i..j][k] == s[a + i..a + j][k]
    {
      assert s[a..b][i + k] == s[a + i + k];
    }
  }

  lemma {:induction false} ConcatAssociates<T>(a: seq<T>, b: seq<T>, c: seq<T>)
    ensures (a + b) + c == a + (b + c)
  {
  }

  lemma {:induction false} SliceMiddle<T>(a: seq<T>, b: seq<T>, c: seq<T>)
    ensures ((a + b) + c)[|a|..|a + b|] == b
  {
  }

  /** Three parts in a row, found again where they sit. */
  lemma {:induction false} ThreeInside<T>(base: seq<T>, lo: nat, hi: nat, a: seq<T>, b: seq<T>, c: seq<T>)
    requires lo <= hi <= |base| && base[lo..hi] == (a + b) + c
    ensures var s, e := lo + |a|, lo + |a| + |b|;
            && lo <= s <= e <= hi
            && base[lo..s] == a && base[s..e] == b && base[e..hi] == c
  {
    var m := base[lo..hi];
    var s, e := lo + |a|, lo + |a| + |b|;
    assert |m| == hi - lo == |a| + |b| + |c|;
    SliceOfSlice(base, lo, hi, 0, |a|);
    SliceOfSlice(base, lo, hi, |a|, |a| + |b|);
    SliceOfSlice(base, lo, hi, |a| + |b|, |m|);
    assert m[0..|a|] == a;
    SliceMiddle(a, b, c);
    assert m[|a| + |b|..|m|] == c;
  }

  lemma {:induction false} HeadGrows<T>(s: seq<T>, h: nat)
    requires h < |s|
    ensures s[..h + 1] == [s[0]] + s[1..][..h]
  {
  }

  lemma {:induction false} TailGrows<T>(s: seq<T>, t: nat)
    requires t < |s|
    ensures s[|s| - 1 - t..] == s[..|s| - 1][|s| - 1 - t..] + [s[|s| - 1]]
  {
  }

  lemma {:induction false} TailOfRest<T>(s: seq<T>, h: nat, t: nat)
    requires h + t <= |s|
    ensures s[h..][|s| - h - t..] == s[|s| - t..]
  {
    SliceOfSlice(s, h, |s|, |s| - h - t, |s| - h);
  }

  lemma {:induction false} InThree<T>(s: seq<T>, i: nat, j: nat)
    requires i <= j <= |s|
    ensures s == s[..i] + s[i..j] + s[j..]
  {
  }

  lemma {:induction false} RestOfRest<T>(s: seq<T>, i: nat, j: nat)
    requires i + j <= |s|
    ensures s[i..][j..] == s[i + j..]
  {
    SliceOfSlice(s, i, |s|, j, |s| - i);
  }
}
