/** Text as the browser counts it: a sequence of UTF-16 code units. */
module Utf16 {
  import opened Common
  import opened Sequences

  type Unit = u: int | 0 <= u < 0x1_0000
  type Text = seq<Unit>

  const NEWLINE: Unit := 10

  predicate OccursAt(hay: Text, needle: Text, at: int) {
    0 <= at <= |hay| - |needle| && hay[at..at + |needle|] == needle
  }

  /** `hay.indexOf(needle, start)` for a needle that is not empty. */
  function IndexOf(hay: Text, needle: Text, start: nat): (r: Option<nat>)
    requires needle != []
    ensures r.None? ==> forall i :: start <= i ==> !OccursAt(hay, needle, i)
    ensures r.Some? ==> start <= r.value && OccursAt(hay, needle, r.value)
    ensures r.Some? ==> forall i :: start <= i < r.value ==> !OccursAt(hay, needle, i)
    decreases |hay| - start
  {
    if start + |needle| > |hay| then None
    else if OccursAt(hay, needle, start) then Some(start)
    else IndexOf(hay, needle, start + 1)
  }

  /** The needle occurs at `at` and nowhere else; overlapping occurrences count. */
  ghost predicate OnlyAt(hay: Text, needle: Text, at: int) {
    && OccursAt(hay, needle, at)
    && forall i :: OccursAt(hay, needle, i) ==> i == at
  }

  /** What occurs in a part of a text occurs in the text. */
  lemma {:induction false} OccursWithin(text: Text, mid: Text, at: int, inner: Text, o: int)
    requires OccursAt(text, mid, at) && OccursAt(mid, inner, o)
    ensures OccursAt(text, inner, at + o)
  {
    SliceOfSlice(text, at, at + |mid|, o, o + |inner|);
  }
}
