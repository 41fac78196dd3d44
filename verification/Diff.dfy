/** The edits that turn one LF text into another, as byte-range patches. */
module Diff {
  import opened Sequences
  import opened Utf8

  /** A half-open byte range of the base text and what replaces it. */
  datatype Patch = Patch(path: string, start: nat, end: nat, exact: Str, replacement: Str)

  datatype DiffTag = Equal | Delete | Insert | Replace

  /** One operation of a line diff, with the old and new lines it spans. */
  datatype Op = Op(tag: DiffTag, oldStart: nat, oldEnd: nat, newStart: nat, newEnd: nat)

  /** Changed lines in a row. */
  datatype Run = Run(oldStart: nat, oldEnd: nat, newStart: nat, newEnd: nat)

  function Flat(lines: seq<Str>): Str {
    if lines == [] then [] else lines[0] + Flat(lines[1..])
  }

  /** The byte offset of the start of a line. */
  function At(lines: seq<Str>, i: nat): nat
    requires i <= |lines|
  {
    |Bytes(Flat(lines[..i]))|
  }

  lemma {:induction false} FlatConcat(a: seq<Str>, b: seq<Str>)
    ensures Flat(a + b) == Flat(a) + Flat(b)
  {
    if a == [] {
      assert a + b == b;
    } else {
      assert (a + b)[1..] == a[1..] + b;
      FlatConcat(a[1..], b);
      ConcatAssociates(a[0], Flat(a[1..]), Flat(b));
    }
  }

  // ------------------------------------------------------- the script

  /** The script covers both texts from (o, n) on, in order, equal where it says so. */
  predicate Covers(olds: seq<Str>, news: seq<Str>, ops: seq<Op>, o: nat, n: nat)
    decreases ops
  {
    if ops == [] then o == |olds| && n == |news|
    else
      var op := ops[0];
      && op.oldStart == o <= op.oldEnd <= |olds| && op.newStart == n <= op.newEnd <= |news|
      && (op.tag.Equal? ==> op.oldStart < op.oldEnd && olds[op.oldStart..op.oldEnd] == news[op.newStart..op.newEnd])
      && Covers(olds, news, ops[1..], op.oldEnd, op.newEnd)
  }

  predicate NoEmptyLine(lines: seq<Str>) {
    forall l <- lines :: l != []
  }

  // ------------------------------------------------------- runs

  function AddOp(runs: seq<Run>, touching: bool, op: Op): seq<Run> {
    if op.tag.Equal? then runs
    else if touching && runs != [] then
      runs[|runs| - 1 := runs[|runs| - 1].(oldEnd := op.oldEnd, newEnd := op.newEnd)]
    else runs + [Run(op.oldStart, op.oldEnd, op.newStart, op.newEnd)]
  }

  function RunsOf(ops: seq<Op>, runs: seq<Run>, touching: bool): seq<Run>
    decreases ops
  {
    if ops == [] then runs else RunsOf(ops[1..], AddOp(runs, touching, ops[0]), !ops[0].tag.Equal?)
  }

  /**
   * The runs up to (o, n): in order, a gap of equal lines before each one, and
   * equal lines from the last one on, at least one unless `touching`.
   */
  predicate RunsOk(olds: seq<Str>, news: seq<Str>, runs: seq<Run>, o: nat, n: nat, touching: bool)
    requires o <= |olds| && n <= |news|
    decreases runs
  {
    if runs == [] then olds[..o] == news[..n]
    else
      var k := |runs| - 1;
      var r := runs[k];
      && r.oldStart <= r.oldEnd <= o && r.newStart <= r.newEnd <= n
      && olds[r.oldEnd..o] == news[r.newEnd..n]
      && (touching ==> r.oldEnd == o) && (!touching ==> r.oldEnd < o)
      && RunsOk(olds, news, runs[..k], r.oldStart, r.newStart, false)
  }

  lemma {:induction false} RunsStayOk(olds: seq<Str>, news: seq<Str>, ops: seq<Op>, runs: seq<Run>,
                                      touching: bool, o: nat, n: nat)
    requires o <= |olds| && n <= |news| && Covers(olds, news, ops, o, n)
    requires RunsOk(olds, news, runs, o, n, touching) && (touching ==> runs != [])
    ensures var rs := RunsOf(ops, runs, touching);
            RunsOk(olds, news, rs, |olds|, |news|, EndsTouching(ops, touching))
    decreases ops
  {
    if ops != [] {
      AddOpOk(olds, news, runs, touching, ops[0], o, n);
      RunsStayOk(olds, news, ops[1..], AddOp(runs, touching, ops[0]), !ops[0].tag.Equal?, ops[0].oldEnd, ops[0].newEnd);
    }
  }

  predicate EndsTouching(ops: seq<Op>, touching: bool) {
    if ops == [] then touching else !ops[|ops| - 1].tag.Equal?
  }

  lemma {:induction false} AddOpOk(olds: seq<Str>, news: seq<Str>, runs: seq<Run>, touching: bool, op: Op, o: nat,
                                   n: nat)
    requires o <= |olds| && n <= |news| && RunsOk(olds, news, runs, o, n, touching) && (touching ==> runs != [])
    requires op.oldStart == o <= op.oldEnd <= |olds| && op.newStart == n <= op.newEnd <= |news|
    requires op.tag.Equal? ==> op.oldStart < op.oldEnd && olds[op.oldStart..op.oldEnd] == news[op.newStart..op.newEnd]
    ensures RunsOk(olds, news, AddOp(runs, touching, op), op.oldEnd, op.newEnd, !op.tag.Equal?)
    ensures !op.tag.Equal? ==> AddOp(runs, touching, op) != []
  {
    var rs := AddOp(runs, touching, op);
    if op.tag.Equal? {
      if runs == [] {
        assert olds[..op.oldEnd] == olds[..o] + olds[o..op.oldEnd];
        assert news[..op.newEnd] == news[..n] + news[n..op.newEnd];
      } else {
        var r := runs[|runs| - 1];
        assert olds[r.oldEnd..op.oldEnd] == olds[r.oldEnd..o] + olds[o..op.oldEnd];
        assert news[r.newEnd..op.newEnd] == news[r.newEnd..n] + news[n..op.newEnd];
      }
    } else if touching {
      assert rs[..|rs| - 1] == runs[..|runs| - 1];
    } else {
      assert rs[..|rs| - 1] == runs;
    }
  }

  // ------------------------------------------------------- common edges

  function CommonHead(a: Str, b: Str): (h: nat)
    ensures h <= |a| && h <= |b|
  {
    if a != [] && b != [] && a[0] == b[0] then 1 + CommonHead(a[1..], b[1..]) else 0
  }

  function CommonTail(a: Str, b: Str): (t: nat)
    ensures t <= |a| && t <= |b|
  {
    if a != [] && b != [] && a[|a| - 1] == b[|b| - 1] then 1 + CommonTail(a[..|a| - 1], b[..|b| - 1]) else 0
  }

  lemma {:induction false} SameHeads(a: Str, b: Str)
    ensures a[..CommonHead(a, b)] == b[..CommonHead(a, b)]
  {
    if a != [] && b != [] && a[0] == b[0] {
      SameHeads(a[1..], b[1..]);
      var h := CommonHead(a[1..], b[1..]);
      HeadGrows(a, h);
      HeadGrows(b, h);
    }
  }

  lemma {:induction false} TailMeans(a: Str, b: Str)
    ensures var t := CommonTail(a, b);
            a[|a| - t..] == b[|b| - t..]
  {
    if a != [] && b != [] && a[|a| - 1] == b[|b| - 1] {
      var n, m := |a| - 1, |b| - 1;
      TailMeans(a[..n], b[..m]);
      var t := CommonTail(a[..n], b[..m]);
      TailGrows(a, t);
      TailGrows(b, t);
    }
  }

  datatype Edges = Edges(head: nat, tail: nat)

  /** Both texts begin with `head` and end with `tail` equal characters, apart from each other. */
  predicate Shared(a: Str, b: Str, e: Edges) {
    && e.head + e.tail <= |a| && e.head + e.tail <= |b|
    && a[..e.head] == b[..e.head] && a[|a| - e.tail..] == b[|b| - e.tail..]
  }

  /** Head and tail, counted in whole characters; the tail is of what the head leaves. */
  function CommonEdges(a: Str, b: Str): (r: Edges)
    ensures r.head + r.tail <= |a| && r.head + r.tail <= |b|
  {
    var h := CommonHead(a, b);
    Edges(h, CommonTail(a[h..], b[h..]))
  }

  lemma {:induction false} EdgesMean(a: Str, b: Str)
    ensures Shared(a, b, CommonEdges(a, b))
  {
    var e := CommonEdges(a, b);
    HeadShared(a, b, e);
    EdgeTail(a, b, e, a[e.head..], b[e.head..]);
    TailShared(a, b, e, a[e.head..], b[e.head..]);
    assert Shared(a, b, e);
  }

  lemma {:induction false} EdgeTail(a: Str, b: Str, e: Edges, x: Str, y: Str)
    requires e == CommonEdges(a, b) && e.head <= |a| && e.head <= |b| && x == a[e.head..] && y == b[e.head..]
    ensures e.tail == CommonTail(x, y)
  {
  }

  lemma {:induction false} HeadShared(a: Str, b: Str, e: Edges)
    requires e == CommonEdges(a, b)
    ensures e.head + e.tail <= |a| && e.head + e.tail <= |b| && a[..e.head] == b[..e.head]
  {
    SameHeads(a, b);
  }

  lemma {:induction false} TailShared(a: Str, b: Str, e: Edges, x: Str, y: Str)
    requires e.head + e.tail <= |a| && e.head + e.tail <= |b| && x == a[e.head..] && y == b[e.head..]
    requires e.tail == CommonTail(x, y)
    ensures a[|a| - e.tail..] == b[|b| - e.tail..]
  {
    SameEnds(x, y, e.tail);
    SameTails(a, b, e.head, e.tail, x, y);
  }

  lemma {:induction false} SameEnds(x: Str, y: Str, t: nat)
    requires t == CommonTail(x, y)
    ensures t <= |x| && t <= |y| && x[|x| - t..] == y[|y| - t..]
  {
    TailMeans(x, y);
  }

  lemma {:induction false} SameTails(a: Str, b: Str, h: nat, t: nat, x: Str, y: Str)
    requires h + t <= |a| && h + t <= |b| && x == a[h..] && y == b[h..] && x[|x| - t..] == y[|y| - t..]
    ensures a[|a| - t..] == b[|b| - t..]
  {
    TailOfRest(a, h, t);
    TailOfRest(b, h, t);
  }

  lemma {:induction false} HeadIsLongest(a: Str, b: Str)
    ensures var h := CommonHead(a, b);
            h == |a| || h == |b| || a[h] != b[h]
  {
    if a != [] && b != [] && a[0] == b[0] { HeadIsLongest(a[1..], b[1..]); }
  }

  lemma {:induction false} TailIsLongest(a: Str, b: Str)
    ensures var t := CommonTail(a, b);
            t == |a| || t == |b| || a[|a| - 1 - t] != b[|b| - 1 - t]
  {
    if a != [] && b != [] && a[|a| - 1] == b[|b| - 1] { TailIsLongest(a[..|a| - 1], b[..|b| - 1]); }
  }

  /** What the edges leave differs in its first and in its last character, unless one side has none. */
  lemma {:induction false} EdgesAreLongest(a: Str, b: Str)
    ensures var e := CommonEdges(a, b);
            || e.head + e.tail == |a| || e.head + e.tail == |b|
            || (a[e.head] != b[e.head] && a[|a| - 1 - e.tail] != b[|b| - 1 - e.tail])
  {
    var h := CommonHead(a, b);
    HeadIsLongest(a, b);
    TailIsLongest(a[h..], b[h..]);
  }

  /** What the edges leave is the same only in equal texts. */
  lemma {:induction false} MiddlesDiffer(a: Str, b: Str, e: Edges)
    requires Shared(a, b, e)
    ensures a[e.head..|a| - e.tail] == b[e.head..|b| - e.tail] ==> a == b
  {
    if a[e.head..|a| - e.tail] == b[e.head..|b| - e.tail] {
      InThree(a, e.head, |a| - e.tail);
      InThree(b, e.head, |b| - e.tail);
    }
  }

  // ------------------------------------------------------- patches

  function Old(olds: seq<Str>, r: Run): Str
    requires r.oldStart <= r.oldEnd <= |olds|
  {
    Flat(olds[r.oldStart..r.oldEnd])
  }

  function New(news: seq<Str>, r: Run): Str
    requires r.newStart <= r.newEnd <= |news|
  {
    Flat(news[r.newStart..r.newEnd])
  }

  /** The patch from `was`, which begins at byte `at`, to `now`, without the edges. */
  function Trimmed(path: string, at: nat, was: Str, now: Str, e: Edges): Patch
    requires e.head + e.tail <= |was| && e.head + e.tail <= |now|
  {
    var exact := was[e.head..|was| - e.tail];
    var start := at + |Bytes(was[..e.head])|;
    Patch(path, start, start + |Bytes(exact)|, exact, now[e.head..|now| - e.tail])
  }

  function PatchOf(path: string, olds: seq<Str>, news: seq<Str>, r: Run): Patch
    requires r.oldStart <= r.oldEnd <= |olds| && r.newStart <= r.newEnd <= |news|
  {
    Trimmed(path, At(olds, r.oldStart), Old(olds, r), New(news, r), CommonEdges(Old(olds, r), New(news, r)))
  }

  /** A run whose lines turn out the same makes no patch. */
  function Emitted(p: Patch): seq<Patch> {
    if p.exact != p.replacement then [p] else []
  }

  function PatchesOf(path: string, olds: seq<Str>, news: seq<Str>, runs: seq<Run>): seq<Patch>
    requires forall r <- runs :: r.oldStart <= r.oldEnd <= |olds| && r.newStart <= r.newEnd <= |news|
  {
    if runs == [] then []
    else
      var k := |runs| - 1;
      PatchesOf(path, olds, news, runs[..k]) + Emitted(PatchOf(path, olds, news, runs[k]))
  }

  function TextPatches(path: string, olds: seq<Str>, news: seq<Str>, ops: seq<Op>): seq<Patch>
    requires forall r <- RunsOf(ops, [], false) :: r.oldStart <= r.oldEnd <= |olds| && r.newStart <= r.newEnd <= |news|
  {
    if Flat(olds) == Flat(news) then [] else PatchesOf(path, olds, news, RunsOf(ops, [], false))
  }

  lemma {:induction false} RunsInRange(olds: seq<Str>, news: seq<Str>, runs: seq<Run>, o: nat, n: nat, touching: bool)
    requires o <= |olds| && n <= |news| && RunsOk(olds, news, runs, o, n, touching)
    ensures forall r <- runs :: r.oldStart <= r.oldEnd <= o && r.newStart <= r.newEnd <= n
  {
    if runs != [] {
      var k := |runs| - 1;
      RunsInRange(olds, news, runs[..k], runs[k].oldStart, runs[k].newStart, false);
    }
  }

  // ------------------------------------------------------- applying them

  predicate Fits(base: seq<Byte>, p: Patch) {
    p.start <= p.end <= |base| && base[p.start..p.end] == Bytes(p.exact)
  }

  function ApplyOne(base: seq<Byte>, p: Patch): seq<Byte>
    requires p.start <= p.end <= |base|
  {
    base[..p.start] + Bytes(p.replacement) + base[p.end..]
  }

  /** Ascending and never touching, up to `pos`. */
  predicate Apart(ps: seq<Patch>, pos: int) {
    if ps == [] then pos >= 0
    else
      var k := |ps| - 1;
      ps[k].start <= ps[k].end <= pos && Apart(ps[..k], ps[k].start) && (k > 0 ==> ps[k - 1].end < ps[k].start)
  }

  /** The last patch first, so that earlier offsets still hold. */
  function ApplyAll(base: seq<Byte>, ps: seq<Patch>): seq<Byte>
    requires Apart(ps, |base|)
    decreases |ps|
  {
    if ps == [] then base
    else
      var k := |ps| - 1;
      ApplyAll(ApplyOne(base, ps[k]), Earlier(base, ps))
  }

  function Earlier(base: seq<Byte>, ps: seq<Patch>): (r: seq<Patch>)
    requires Apart(ps, |base|) && ps != []
    ensures |r| == |ps| - 1 && Apart(r, |ApplyOne(base, ps[|ps| - 1])|)
  {
    var k := |ps| - 1;
    ApartWidens(ps[..k], ps[k].start, |ApplyOne(base, ps[k])|);
    ps[..k]
  }

  lemma {:induction false} ApartWidens(ps: seq<Patch>, p: int, q: int)
    requires Apart(ps, p) && p <= q
    ensures Apart(ps, q)
  {
  }

  /** The bytes up to `pos` with the patches made. */
  function Patched(base: seq<Byte>, ps: seq<Patch>, pos: nat): seq<Byte>
    requires Apart(ps, pos) && pos <= |base|
  {
    if ps == [] then base[..pos]
    else
      var k := |ps| - 1;
      Patched(base, ps[..k], ps[k].start) + Bytes(ps[k].replacement) + base[ps[k].end..pos]
  }

  lemma {:induction false} PatchedSplits(base: seq<Byte>, ps: seq<Patch>, p: nat, q: nat)
    requires Apart(ps, p) && p <= q <= |base|
    ensures Apart(ps, q) && Patched(base, ps, q) == Patched(base, ps, p) + base[p..q]
  {
    ApartWidens(ps, p, q);
    if ps == [] {
      assert base[..q] == base[..p] + base[p..q];
    } else {
      var k := |ps| - 1;
      var fore := Patched(base, ps[..k], ps[k].start) + Bytes(ps[k].replacement);
      assert base[ps[k].end..q] == base[ps[k].end..p] + base[p..q];
      ConcatAssociates(fore, base[ps[k].end..p], base[p..q]);
    }
  }

  lemma {:induction false} SameFore(base: seq<Byte>, other: seq<Byte>, ps: seq<Patch>, pos: nat)
    requires Apart(ps, pos) && pos <= |base| && pos <= |other| && base[..pos] == other[..pos]
    ensures Patched(base, ps, pos) == Patched(other, ps, pos)
  {
    if ps != [] {
      var k := |ps| - 1;
      var p := ps[k];
      assert base[..p.start] == base[..pos][..p.start] && other[..p.start] == other[..pos][..p.start];
      SameFore(base, other, ps[..k], p.start);
      assert base[p.end..pos] == base[..pos][p.end..] && other[p.end..pos] == other[..pos][p.end..];
    }
  }

  lemma {:induction false} LastFirst(base: seq<Byte>, fore: seq<Patch>, p: Patch)
    requires p.start <= p.end <= |base| && Apart(fore, p.start)
    ensures var next := ApplyOne(base, p);
            && Apart(fore, |next|)
            && Patched(next, fore, |next|) == Patched(base, fore, p.start) + Bytes(p.replacement) + base[p.end..|base|]
  {
    var next := ApplyOne(base, p);
    PatchedSplits(next, fore, p.start, |next|);
    assert next[..p.start] == base[..p.start];
    SameFore(base, next, fore, p.start);
    assert next[p.start..|next|] == Bytes(p.replacement) + base[p.end..|base|] by {
      ConcatAssociates(base[..p.start], Bytes(p.replacement), base[p.end..]);
      assert base[p.end..] == base[p.end..|base|];
    }
    ConcatAssociates(Patched(base, fore, p.start), Bytes(p.replacement), base[p.end..|base|]);
  }

  /** Applying the patches last first makes the patched bytes. */
  lemma {:induction false} ApplyIsPatched(base: seq<Byte>, ps: seq<Patch>)
    requires Apart(ps, |base|)
    ensures ApplyAll(base, ps) == Patched(base, ps, |base|)
    decreases |ps|
  {
    if ps == [] {
    } else {
      var k := |ps| - 1;
      var p, next := ps[k], ApplyOne(base, ps[k]);
      var fore := Earlier(base, ps);
      ApplyIsPatched(next, fore);
      LastFirst(base, fore, p);
    }
  }

  // ------------------------------------------------------- the round trip

  lemma {:induction false} RunBytes(olds: seq<Str>, i: nat, j: nat)
    requires i <= j <= |olds|
    ensures At(olds, i) <= At(olds, j) <= |Bytes(Flat(olds))|
    ensures Bytes(Flat(olds))[At(olds, i)..At(olds, j)] == Bytes(Flat(olds[i..j]))
    ensures At(olds, j) == At(olds, i) + |Bytes(Flat(olds[i..j]))|
  {
    var a, b, c := olds[..i], olds[i..j], olds[j..];
    assert olds == (a + b) + c && olds[..j] == a + b;
    FlatConcat(a + b, c);
    FlatConcat(a, b);
    BytesConcat(Flat(a + b), Flat(c));
    BytesConcat(Flat(a), Flat(b));
    SliceMiddle(Bytes(Flat(a)), Bytes(Flat(b)), Bytes(Flat(c)));
  }

  /** A trimmed patch sits inside the old bytes, and makes the new ones. */
  lemma {:induction false} TrimmedSits(path: string, base: seq<Byte>, lo: nat, hi: nat, was: Str, now: Str, e: Edges)
    requires Shared(was, now, e) && lo <= hi <= |base| && base[lo..hi] == Bytes(was)
    ensures var p := Trimmed(path, lo, was, now, e);
            && lo <= p.start <= p.end <= hi && base[p.start..p.end] == Bytes(p.exact)
            && Bytes(now) == base[lo..p.start] + Bytes(p.replacement) + base[p.end..hi]
  {
    var p := Trimmed(path, lo, was, now, e);
    var a, c := Bytes(was[..e.head]), Bytes(was[|was| - e.tail..]);
    TrimmedPlace(path, base, lo, hi, was, now, e, p, a, c);
    SharedBytes(was, now, e, a, c);
  }

  lemma {:induction false} TrimmedPlace(path: string, base: seq<Byte>, lo: nat, hi: nat, was: Str, now: Str, e: Edges,
                                        p: Patch, a: seq<Byte>, c: seq<Byte>)
    requires Shared(was, now, e) && lo <= hi <= |base| && base[lo..hi] == Bytes(was)
    requires p == Trimmed(path, lo, was, now, e) && a == Bytes(was[..e.head]) && c == Bytes(was[|was| - e.tail..])
    ensures lo <= p.start <= p.end <= hi && base[p.start..p.end] == Bytes(p.exact)
    ensures base[lo..p.start] == a && base[p.end..hi] == c
  {
    ThreeParts(was, e.head, |was| - e.tail);
    ThreeInside(base, lo, hi, a, Bytes(p.exact), c);
  }

  lemma {:induction false} SharedBytes(was: Str, now: Str, e: Edges, a: seq<Byte>, c: seq<Byte>)
    requires Shared(was, now, e) && a == Bytes(was[..e.head]) && c == Bytes(was[|was| - e.tail..])
    ensures Bytes(now) == a + Bytes(now[e.head..|now| - e.tail]) + c
  {
    ThreeParts(now, e.head, |now| - e.tail);
    assert now[..e.head] == was[..e.head] && now[|now| - e.tail..] == was[|was| - e.tail..];
  }

  lemma {:induction false} RunPatch(path: string, olds: seq<Str>, i: nat, j: nat, was: Str, now: Str, e: Edges)
    requires i <= j <= |olds| && was == Flat(olds[i..j]) && Shared(was, now, e)
    ensures var p, base := Trimmed(path, At(olds, i), was, now, e), Bytes(Flat(olds));
            && At(olds, i) <= p.start <= p.end <= At(olds, j) <= |base| && base[p.start..p.end] == Bytes(p.exact)
            && Bytes(now) == base[At(olds, i)..p.start] + Bytes(p.replacement) + base[p.end..At(olds, j)]
            && (p.exact == p.replacement ==> was == now)
  {
    MiddlesDiffer(was, now, e);
    RunBytes(olds, i, j);
    TrimmedSits(path, Bytes(Flat(olds)), At(olds, i), At(olds, j), was, now, e);
  }

  /** The trimmed patch of a run sits inside the run's bytes and makes the new lines. */
  lemma {:induction false} PatchInRun(path: string, olds: seq<Str>, news: seq<Str>, r: Run)
    requires r.oldStart <= r.oldEnd <= |olds| && r.newStart <= r.newEnd <= |news|
    ensures var p, base := PatchOf(path, olds, news, r), Bytes(Flat(olds));
            && At(olds, r.oldStart) <= p.start <= p.end <= At(olds, r.oldEnd) <= |base|
            && base[p.start..p.end] == Bytes(p.exact)
            && Bytes(New(news, r)) == base[At(olds, r.oldStart)..p.start] + Bytes(p.replacement) + base[p.end..At(olds, r.oldEnd)]
            && (p.exact == p.replacement ==> Old(olds, r) == New(news, r))
  {
    EdgesMean(Old(olds, r), New(news, r));
    RunPatch(path, olds, r.oldStart, r.oldEnd, Old(olds, r), New(news, r), CommonEdges(Old(olds, r), New(news, r)));
  }

  lemma {:induction false} BytesSplit(s: Str, i: nat)
    requires i <= |s|
    ensures Bytes(s) == Bytes(s[..i]) + Bytes(s[i..])
  {
    BytesConcat(s[..i], s[i..]);
    assert s[..i] + s[i..] == s;
  }

  lemma {:induction false} ThreeParts(s: Str, i: nat, j: nat)
    requires i <= j <= |s|
    ensures Bytes(s) == Bytes(s[..i]) + Bytes(s[i..j]) + Bytes(s[j..])
  {
    BytesSplit(s, j);
    BytesSplit(s[..j], i);
    assert s[..j][..i] == s[..i] && s[..j][i..] == s[i..j];
  }

  /** The patches lie apart in the first `at` bytes and make `made` of them; they may touch its end if `touching`. */
  ghost predicate MakesUpTo(base: seq<Byte>, ps: seq<Patch>, at: nat, touching: bool, made: seq<Byte>) {
    && at <= |base| && Apart(ps, at) && (ps != [] && !touching ==> ps[|ps| - 1].end < at)
    && Patched(base, ps, at) == made
  }

  /** The patches of the runs up to (o, n) make the new text's first n lines. */
  lemma {:induction false} RunsMakeText(path: string, olds: seq<Str>, news: seq<Str>, runs: seq<Run>,
                                        o: nat, n: nat, touching: bool)
    requires o <= |olds| && n <= |news| && RunsOk(olds, news, runs, o, n, touching) && NoEmptyLine(olds)
    requires forall r <- runs :: r.oldStart <= r.oldEnd <= |olds| && r.newStart <= r.newEnd <= |news|
    ensures MakesUpTo(Bytes(Flat(olds)), PatchesOf(path, olds, news, runs), At(olds, o), touching, Bytes(Flat(news[..n])))
    decreases runs
  {
    var base := Bytes(Flat(olds));
    RunBytes(olds, o, o);
    if runs == [] {
      RunBytes(olds, 0, o);
      assert olds[0..o] == olds[..o];
    } else {
      var k := |runs| - 1;
      var r, fore := runs[k], runs[..k];
      RunsMakeText(path, olds, news, fore, r.oldStart, r.newStart, false);
      RunAndGap(path, olds, news, PatchesOf(path, olds, news, fore), r, o, n);
    }
  }

  lemma {:induction false} PatchesFit(path: string, olds: seq<Str>, news: seq<Str>, runs: seq<Run>)
    requires forall r <- runs :: r.oldStart <= r.oldEnd <= |olds| && r.newStart <= r.newEnd <= |news|
    ensures forall p <- PatchesOf(path, olds, news, runs) :: Fits(Bytes(Flat(olds)), p)
  {
    if runs != [] {
      var k := |runs| - 1;
      assert runs[k] in runs;
      PatchInRun(path, olds, news, runs[k]);
      PatchesFit(path, olds, news, runs[..k]);
    }
  }

  lemma {:induction false} RunAndGap(path: string, olds: seq<Str>, news: seq<Str>, ps: seq<Patch>, r: Run, o: nat,
                                     n: nat)
    requires r.oldStart <= r.oldEnd <= o <= |olds| && r.newStart <= r.newEnd <= n <= |news|
    requires olds[r.oldEnd..o] == news[r.newEnd..n] && NoEmptyLine(olds)
    requires MakesUpTo(Bytes(Flat(olds)), ps, At(olds, r.oldStart), false, Bytes(Flat(news[..r.newStart])))
    ensures MakesUpTo(Bytes(Flat(olds)), ps + Emitted(PatchOf(path, olds, news, r)), At(olds, o), r.oldEnd == o,
                      Bytes(Flat(news[..n])))
  {
    RunAdds(path, olds, news, ps, r);
    GapAdds(path, olds, news, ps + Emitted(PatchOf(path, olds, news, r)), r.oldEnd, r.newEnd, o, n);
  }

  lemma {:induction false} RunAdds(path: string, olds: seq<Str>, news: seq<Str>, ps: seq<Patch>, r: Run)
    requires r.oldStart <= r.oldEnd <= |olds| && r.newStart <= r.newEnd <= |news|
    requires At(olds, r.oldStart) <= |Bytes(Flat(olds))| && Apart(ps, At(olds, r.oldStart))
    requires ps != [] ==> ps[|ps| - 1].end < At(olds, r.oldStart)
    requires Patched(Bytes(Flat(olds)), ps, At(olds, r.oldStart)) == Bytes(Flat(news[..r.newStart]))
    ensures var p, base := PatchOf(path, olds, news, r), Bytes(Flat(olds));
            var qs := ps + Emitted(p);
            && At(olds, r.oldEnd) <= |base| && Apart(qs, At(olds, r.oldEnd))
            && (qs != [] ==> qs[|qs| - 1].end <= At(olds, r.oldEnd))
            && Patched(base, qs, At(olds, r.oldEnd)) == Bytes(Flat(news[..r.newEnd]))
  {
    var p, base := PatchOf(path, olds, news, r), Bytes(Flat(olds));
    var lo, hi := At(olds, r.oldStart), At(olds, r.oldEnd);
    PatchInRun(path, olds, news, r);
    RunBytes(olds, r.oldStart, r.oldEnd);
    NextLines(news, r.newStart, r.newEnd);
    if p.exact == p.replacement {
      PatchedSplits(base, ps, lo, hi);
      assert ps + [] == ps;
    } else {
      PatchAdds(base, ps, lo, hi, p);
    }
  }

  lemma {:induction false} PatchAdds(base: seq<Byte>, ps: seq<Patch>, lo: nat, hi: nat, p: Patch)
    requires lo <= p.start <= p.end <= hi <= |base| && Apart(ps, lo) && (ps != [] ==> ps[|ps| - 1].end < lo)
    ensures Apart(ps + [p], hi)
    ensures Patched(base, ps + [p], hi) ==
            Patched(base, ps, lo) + (base[lo..p.start] + Bytes(p.replacement) + base[p.end..hi])
  {
    PatchedSplits(base, ps, lo, p.start);
    assert (ps + [p])[..|ps|] == ps;
    Regroup(Patched(base, ps, lo), base[lo..p.start], Bytes(p.replacement), base[p.end..hi]);
  }

  lemma {:induction false} Regroup<T>(a: seq<T>, b: seq<T>, c: seq<T>, d: seq<T>)
    ensures (a + b) + c + d == a + (b + c + d)
  {
  }

  lemma {:induction false} NextLines(news: seq<Str>, i: nat, j: nat)
    requires i <= j <= |news|
    ensures Bytes(Flat(news[..j])) == Bytes(Flat(news[..i])) + Bytes(Flat(news[i..j]))
  {
    assert news[..j] == news[..i] + news[i..j];
    FlatConcat(news[..i], news[i..j]);
    BytesConcat(Flat(news[..i]), Flat(news[i..j]));
  }

  lemma {:induction false} GapAdds(path: string, olds: seq<Str>, news: seq<Str>, ps: seq<Patch>, oe: nat, ne: nat,
                                   o: nat, n: nat)
    requires oe <= o <= |olds| && ne <= n <= |news| && olds[oe..o] == news[ne..n] && NoEmptyLine(olds)
    requires At(olds, oe) <= |Bytes(Flat(olds))| && Apart(ps, At(olds, oe))
    requires ps != [] ==> ps[|ps| - 1].end <= At(olds, oe)
    requires Patched(Bytes(Flat(olds)), ps, At(olds, oe)) == Bytes(Flat(news[..ne]))
    ensures var base := Bytes(Flat(olds));
            && At(olds, o) <= |base| && Apart(ps, At(olds, o))
            && (ps != [] && oe < o ==> ps[|ps| - 1].end < At(olds, o))
            && Patched(base, ps, At(olds, o)) == Bytes(Flat(news[..n]))
  {
    RunBytes(olds, oe, o);
    PatchedSplits(Bytes(Flat(olds)), ps, At(olds, oe), At(olds, o));
    NextLines(news, ne, n);
    if oe < o {
      assert olds[oe..o][0] in olds;
      assert Flat(olds[oe..o]) != [];
      BytesNotEmpty(Flat(olds[oe..o]));
    }
  }

  /** The runs of any valid script make the new text. */
  lemma {:induction false} ScriptMakesText(path: string, olds: seq<Str>, news: seq<Str>, ops: seq<Op>)
    requires Covers(olds, news, ops, 0, 0) && NoEmptyLine(olds)
    ensures forall r <- RunsOf(ops, [], false) :: r.oldStart <= r.oldEnd <= |olds| && r.newStart <= r.newEnd <= |news|
    ensures var ps, base := PatchesOf(path, olds, news, RunsOf(ops, [], false)), Bytes(Flat(olds));
            && Apart(ps, |base|) && (forall p <- ps :: Fits(base, p))
            && Patched(base, ps, |base|) == Bytes(Flat(news))
  {
    var runs := RunsOf(ops, [], false);
    RunsStayOk(olds, news, ops, [], false, 0, 0);
    RunsInRange(olds, news, runs, |olds|, |news|, EndsTouching(ops, false));
    RunsMakeText(path, olds, news, runs, |olds|, |news|, EndsTouching(ops, false));
    PatchesFit(path, olds, news, runs);
    assert olds[..|olds|] == olds && news[..|news|] == news;
  }

  /**
   * Diff patches round trip: for any valid line script between two texts, the
   * patches ascend and never touch, each names the base text in its range,
   * applying them last first gives the new text, and there is none only when
   * the texts are equal.
   */
  lemma {:induction false} PatchesRoundTrip(path: string, olds: seq<Str>, news: seq<Str>, ops: seq<Op>)
    requires Covers(olds, news, ops, 0, 0) && NoEmptyLine(olds)
    ensures forall r <- RunsOf(ops, [], false) :: r.oldStart <= r.oldEnd <= |olds| && r.newStart <= r.newEnd <= |news|
    ensures var ps, base := TextPatches(path, olds, news, ops), Bytes(Flat(olds));
            && Apart(ps, |base|) && (forall p <- ps :: Fits(base, p))
            && ApplyAll(base, ps) == Bytes(Flat(news))
            && (ps == [] <==> Flat(olds) == Flat(news))
  {
    var base := Bytes(Flat(olds));
    ScriptMakesText(path, olds, news, ops);
    if Flat(olds) != Flat(news) {
      var ps := TextPatches(path, olds, news, ops);
      ApplyIsPatched(base, ps);
      if ps == [] {
        assert base[..|base|] == base;
        BytesInjective(Flat(olds), Flat(news));
      }
    }
  }

  // ------------------------------------------------------- only what differs

  /** The patch begins and ends with characters that differ, unless it only inserts or only deletes. */
  predicate Tight(p: Patch) {
    || p.exact == [] || p.replacement == []
    || (p.exact[0] != p.replacement[0] && p.exact[|p.exact| - 1] != p.replacement[|p.replacement| - 1])
  }

  lemma {:induction false} TrimmedIsTight(path: string, at: nat, was: Str, now: Str)
    ensures Tight(Trimmed(path, at, was, now, CommonEdges(was, now)))
  {
    EdgesAreLongest(was, now);
  }

  /** Patches are cut down to the characters that differ, so whatever is anchored beside them is left alone. */
  lemma {:induction false} PatchesAreTight(path: string, olds: seq<Str>, news: seq<Str>, runs: seq<Run>)
    requires forall r <- runs :: r.oldStart <= r.oldEnd <= |olds| && r.newStart <= r.newEnd <= |news|
    ensures forall p <- PatchesOf(path, olds, news, runs) :: Tight(p) && p.exact != p.replacement && p.path == path
  {
    if runs != [] {
      var k := |runs| - 1;
      var r := runs[k];
      PatchesAreTight(path, olds, news, runs[..k]);
      assert r in runs;
      TrimmedIsTight(path, At(olds, r.oldStart), Old(olds, r), New(news, r));
    }
  }

  // ------------------------------------------------------- what a server checks

  /** The offset is between two characters of the text. */
  ghost predicate Boundary(s: Str, k: int) {
    exists i :: 0 <= i <= |s| && k == |Bytes(s[..i])|
  }

  lemma {:induction false} BoundaryAt(s: Str, i: nat)
    requires i <= |s|
    ensures Boundary(s, |Bytes(s[..i])|)
  {
  }

  lemma {:induction false} CutBoundary(olds: seq<Str>, i: nat, j: nat, h: nat)
    requires i <= j <= |olds| && h <= |Flat(olds[i..j])|
    ensures Boundary(Flat(olds), At(olds, i) + |Bytes(Flat(olds[i..j])[..h])|)
  {
    var a, b, c := Flat(olds[..i]), Flat(olds[i..j]), Flat(olds[j..]);
    assert olds == olds[..i] + (olds[i..j] + olds[j..]);
    FlatConcat(olds[..i], olds[i..j] + olds[j..]);
    FlatConcat(olds[i..j], olds[j..]);
    var s, k := Flat(olds), |a| + h;
    assert s == a + (b + c);
    assert s[..k] == a + b[..h];
    BytesConcat(a, b[..h]);
    BoundaryAt(s, k);
  }

  lemma {:induction false} TrimmedOnBoundaries(path: string, olds: seq<Str>, i: nat, j: nat, now: Str, e: Edges)
    requires i <= j <= |olds| && e.head + e.tail <= |Flat(olds[i..j])| && e.head + e.tail <= |now|
    ensures var p := Trimmed(path, At(olds, i), Flat(olds[i..j]), now, e);
            Boundary(Flat(olds), p.start) && Boundary(Flat(olds), p.end)
  {
    var was := Flat(olds[i..j]);
    var h, k := e.head, |was| - e.tail;
    CutBoundary(olds, i, j, h);
    CutBoundary(olds, i, j, k);
    assert |Bytes(was[..k])| == |Bytes(was[..h])| + |Bytes(was[h..k])| by {
      BytesSplit(was[..k], h);
      assert was[..k][..h] == was[..h] && was[..k][h..] == was[h..k];
    }
  }

  lemma {:induction false} PatchOnBoundaries(path: string, olds: seq<Str>, news: seq<Str>, r: Run)
    requires r.oldStart <= r.oldEnd <= |olds| && r.newStart <= r.newEnd <= |news|
    ensures var p := PatchOf(path, olds, news, r);
            Boundary(Flat(olds), p.start) && Boundary(Flat(olds), p.end) && p.path == path
  {
    TrimmedOnBoundaries(path, olds, r.oldStart, r.oldEnd, New(news, r), CommonEdges(Old(olds, r), New(news, r)));
  }

  lemma {:induction false} AllOnBoundaries(path: string, olds: seq<Str>, news: seq<Str>, runs: seq<Run>)
    requires forall r <- runs :: r.oldStart <= r.oldEnd <= |olds| && r.newStart <= r.newEnd <= |news|
    ensures forall p <- PatchesOf(path, olds, news, runs) ::
              Boundary(Flat(olds), p.start) && Boundary(Flat(olds), p.end) && p.path == path
  {
    if runs != [] {
      var k := |runs| - 1;
      assert runs[k] in runs;
      PatchOnBoundaries(path, olds, news, runs[k]);
      AllOnBoundaries(path, olds, news, runs[..k]);
    }
  }

  // ------------------------------------------------------- as it runs

  /** The byte offset of the start of each piece, and of the end of the last. */
  method Offsets(lines: seq<Str>) returns (at: seq<nat>)
    ensures |at| == |lines| + 1 && forall i :: 0 <= i <= |lines| ==> at[i] == At(lines, i)
  {
    at := [0];
    for i := 0 to |lines|
      invariant |at| == i + 1 && forall j :: 0 <= j <= i ==> at[j] == At(lines, j)
    {
      at := at + [at[i] + |Bytes(lines[i])|];
      RunBytes(lines, i, i + 1);
      assert lines[i..i + 1] == [lines[i]] && Flat([lines[i]]) == lines[i];
    }
  }

  /** The changed lines, one run for the operations that touch. */
  method CollectRuns(ops: seq<Op>) returns (runs: seq<Run>)
    ensures runs == RunsOf(ops, [], false)
  {
    runs := [];
    var touching := false;
    for i := 0 to |ops|
      invariant touching ==> runs != []
      invariant RunsOf(ops[i..], runs, touching) == RunsOf(ops, [], false)
    {
      var op := ops[i];
      assert ops[i..][0] == op && ops[i..][1..] == ops[i + 1..];
      if op.tag.Equal? {
        touching := false;
        continue;
      }
      if touching {
        runs := runs[|runs| - 1 := runs[|runs| - 1].(oldEnd := op.oldEnd, newEnd := op.newEnd)];
      } else {
        runs := runs + [Run(op.oldStart, op.oldEnd, op.newStart, op.newEnd)];
      }
      touching := true;
    }
  }

  /** `patches`, given the lines and the script of the line diff. */
  method Patches(path: string, olds: seq<Str>, news: seq<Str>, ops: seq<Op>) returns (ps: seq<Patch>)
    requires Covers(olds, news, ops, 0, 0) && NoEmptyLine(olds)
    ensures forall r <- RunsOf(ops, [], false) :: r.oldStart <= r.oldEnd <= |olds| && r.newStart <= r.newEnd <= |news|
    ensures ps == TextPatches(path, olds, news, ops)
    ensures Apart(ps, |Bytes(Flat(olds))|) && ApplyAll(Bytes(Flat(olds)), ps) == Bytes(Flat(news))
    ensures ps == [] <==> Flat(olds) == Flat(news)
    ensures forall p <- ps :: Tight(p) && p.exact != p.replacement && p.path == path
  {
    PatchesRoundTrip(path, olds, news, ops);
    if Flat(olds) == Flat(news) { return []; }
    var runs := CollectRuns(ops);
    ps := RunPatches(path, olds, news, runs);
    PatchesAreTight(path, olds, news, runs);
  }

  /** The trimmed patch of each run, except one that changes nothing. */
  method RunPatches(path: string, olds: seq<Str>, news: seq<Str>, runs: seq<Run>) returns (ps: seq<Patch>)
    requires forall r <- runs :: r.oldStart <= r.oldEnd <= |olds| && r.newStart <= r.newEnd <= |news|
    ensures ps == PatchesOf(path, olds, news, runs)
  {
    var oldAt := Offsets(olds);
    ps := [];
    for i := 0 to |runs|
      invariant ps == PatchesOf(path, olds, news, runs[..i])
    {
      var r := runs[i];
      assert r in runs && runs[..i + 1][..i] == runs[..i];
      var was, now := Flat(olds[r.oldStart..r.oldEnd]), Flat(news[r.newStart..r.newEnd]);
      var p := Trimmed(path, oldAt[r.oldStart], was, now, CommonEdges(was, now));
      if p.exact != p.replacement { ps := ps + [p]; }
    }
    assert runs[..|runs|] == runs;
  }
}
