/** Which tracked fragments hold the text of which deletions. */
module Fragments {
  import opened Common
  import opened Sequences
  import opened Utf16
  import opened AnchorEdits

  /** A fragment the deletions created; `at` is its gap in the final text. */
  datatype Created = Created(id: string, text: Text, at: int)

  datatype Deletion = Deletion(edit: nat, deleted: Text, point: int)

  /** Fragments `first` up to `last` of the list. */
  datatype Run = Run(first: nat, last: nat)

  // ------------------------------------------------------- gaps

  function MovePoint(point: int, c: Cut): int {
    if c.et <= point then point + |c.insert| - (c.et - c.ef)
    else if c.ef < point then c.ef
    else point
  }

  function PointAfter(point: int, later: seq<Cut>): int
    decreases later
  {
    if later == [] then point else PointAfter(MovePoint(point, later[0]), later[1..])
  }

  function DeletionsOf(cur: Text, cuts: seq<Cut>, index: nat): seq<Deletion>
    requires Valid(|cur|, cuts)
    decreases cuts
  {
    if cuts == [] then []
    else
      var c := cuts[0];
      (if c.et > c.ef then [Deletion(index, cur[c.ef..c.et], PointAfter(c.ef, cuts[1..]))] else [])
      + DeletionsOf(ApplyCut(cur, c), cuts[1..], index + 1)
  }

  /** Which side of a gap each character was on, absent for inserted text. */
  type Sides = seq<Option<bool>>

  ghost function StepSides(sides: Sides, c: Cut): (r: Sides)
    requires CutFits(|sides|, c)
    ensures |r| == |sides| + |c.insert| - (c.et - c.ef)
  {
    sides[..c.ef] + seq(|c.insert|, _ => None) + sides[c.et..]
  }

  ghost function RunSides(sides: Sides, cuts: seq<Cut>): Sides
    requires Valid(|sides|, cuts)
    decreases cuts
  {
    if cuts == [] then sides else RunSides(StepSides(sides, cuts[0]), cuts[1..])
  }

  /** The point is an offset of the text with the right characters on each side. */
  ghost predicate Parts(sides: Sides, point: int) {
    && 0 <= point <= |sides|
    && forall k :: 0 <= k < |sides| && sides[k].Some? ==> (sides[k].value <==> point <= k)
  }

  /** A gap stays a valid offset between what was before it and what was after. */
  lemma {:induction false} GapsStayBetween(sides: Sides, point: int, cuts: seq<Cut>)
    requires Valid(|sides|, cuts) && Parts(sides, point)
    ensures Parts(RunSides(sides, cuts), PointAfter(point, cuts))
    decreases cuts
  {
    if cuts != [] {
      assert Parts(StepSides(sides, cuts[0]), MovePoint(point, cuts[0]));
      GapsStayBetween(StepSides(sides, cuts[0]), MovePoint(point, cuts[0]), cuts[1..]);
    }
  }

  lemma {:induction false} PointInText(text: Text, point: int, cuts: seq<Cut>)
    requires Valid(|text|, cuts) && 0 <= point <= |text|
    ensures 0 <= PointAfter(point, cuts) <= |ApplyCuts(text, cuts)|
    decreases cuts
  {
    if cuts != [] { PointInText(ApplyCut(text, cuts[0]), MovePoint(point, cuts[0]), cuts[1..]); }
  }

  /** Every computed gap is an offset of the final text. */
  lemma {:induction false} GapsInFinalText(cur: Text, cuts: seq<Cut>, index: nat)
    requires Valid(|cur|, cuts)
    ensures forall d <- DeletionsOf(cur, cuts, index) ::
              d.deleted != [] && d.edit >= index && 0 <= d.point <= |ApplyCuts(cur, cuts)|
    decreases cuts
  {
    if cuts != [] {
      var c := cuts[0];
      PointInText(ApplyCut(cur, c), c.ef, cuts[1..]);
      GapsInFinalText(ApplyCut(cur, c), cuts[1..], index + 1);
    }
  }

  // ------------------------------------------------------- runs

  function Joined(fs: seq<Created>, first: nat, last: nat): Text
    requires first <= last <= |fs|
  {
    if first == last then [] else Joined(fs, first, last - 1) + fs[last - 1].text
  }

  predicate FitsGap(fs: seq<Created>, consumed: seq<bool>, gap: Option<int>, i: nat)
    requires i < |fs| == |consumed|
  {
    !consumed[i] && (gap.None? || fs[i].at == gap.value)
  }

  /** Free fragments in a row, at the gap if one is given, that make the text. */
  predicate IsRun(fs: seq<Created>, consumed: seq<bool>, gap: Option<int>, deleted: Text, r: Run)
    requires |fs| == |consumed|
  {
    && r.first < r.last <= |fs|
    && (forall i :: r.first <= i < r.last ==> FitsGap(fs, consumed, gap, i))
    && Joined(fs, r.first, r.last) == deleted
  }

  ghost predicate NoRun(fs: seq<Created>, consumed: seq<bool>, gap: Option<int>, deleted: Text)
    requires |fs| == |consumed|
  {
    forall q: Run :: !IsRun(fs, consumed, gap, deleted, q)
  }

  function GapOf(d: Deletion, atGap: bool): Option<int> {
    if atGap then Some(d.point) else None
  }

  /** Every fragment of the run sits at the deletion's own gap. */
  predicate AtGap(fs: seq<Created>, d: Deletion, r: Run) {
    forall i :: r.first <= i < r.last && 0 <= i < |fs| ==> fs[i].at == d.point
  }

  lemma {:induction false} JoinedPrefix(fs: seq<Created>, first: nat, mid: nat, last: nat)
    requires first <= mid <= last <= |fs|
    ensures Joined(fs, first, mid) <= Joined(fs, first, last)
    decreases last
  {
    if mid < last { JoinedPrefix(fs, first, mid, last - 1); }
  }

  /** The greedy walk from `first` finds a run when there is one. */
  method RunFrom(fs: seq<Created>, consumed: seq<bool>, deleted: Text, gap: Option<int>, first: nat)
    returns (r: Option<Run>)
    requires |fs| == |consumed| && deleted != [] && first < |fs|
    ensures r.Some? ==> r.value.first == first && IsRun(fs, consumed, gap, deleted, r.value)
    ensures r.None? ==> forall l: nat :: !IsRun(fs, consumed, gap, deleted, Run(first, l))
  {
    if !FitsGap(fs, consumed, gap, first) { return None; }
    var last, joined := first, [];
    while last < |fs| && FitsGap(fs, consumed, gap, last) && |joined| < |deleted|
      invariant first <= last <= |fs| && joined == Joined(fs, first, last)
      invariant forall i :: first <= i < last ==> FitsGap(fs, consumed, gap, i)
      invariant forall l :: first <= l < last ==> |Joined(fs, first, l)| < |deleted|
    {
      joined := joined + fs[last].text;
      last := last + 1;
    }
    if joined == deleted { return Some(Run(first, last)); }
    forall l: nat
      ensures !IsRun(fs, consumed, gap, deleted, Run(first, l))
    {
      if last < l <= |fs| && |joined| >= |deleted| { JoinedPrefix(fs, first, last, l); }
    }
    r := None;
  }

  /** `firstRun`: the first run in the list, or none when there is none at all. */
  method FirstRun(fs: seq<Created>, consumed: seq<bool>, deleted: Text, gap: Option<int>) returns (r: Option<Run>)
    requires |fs| == |consumed| && deleted != []
    ensures r.Some? ==> IsRun(fs, consumed, gap, deleted, r.value)
    ensures r.Some? ==> forall q: Run :: q.first < r.value.first ==> !IsRun(fs, consumed, gap, deleted, q)
    ensures r.None? ==> NoRun(fs, consumed, gap, deleted)
  {
    for first := 0 to |fs|
      invariant forall q: Run :: q.first < first ==> !IsRun(fs, consumed, gap, deleted, q)
    {
      r := RunFrom(fs, consumed, deleted, gap, first);
      if r.Some? { return; }
      forall q: Run | q.first == first
        ensures !IsRun(fs, consumed, gap, deleted, q)
      {
        assert q == Run(first, q.last);
      }
    }
    r := None;
  }

  // ------------------------------------------------------- matching

  predicate Within(r: Run, i: int) {
    r.first <= i < r.last
  }

  /** Runs share no fragment, and exactly their fragments are consumed. */
  ghost predicate Consumes(runs: seq<Option<Run>>, consumed: seq<bool>) {
    && (forall i :: 0 <= i < |consumed| ==>
          (consumed[i] <==> exists d :: 0 <= d < |runs| && runs[d].Some? && Within(runs[d].value, i)))
    && forall d, e, i :: 0 <= d < e < |runs| && runs[d].Some? && runs[e].Some? ==>
                           !(Within(runs[d].value, i) && Within(runs[e].value, i))
  }

  /** Each run's texts join up to exactly its deletion's text. */
  predicate Matches(fs: seq<Created>, ds: seq<Deletion>, runs: seq<Option<Run>>) {
    && |runs| == |ds|
    && forall d :: 0 <= d < |ds| && runs[d].Some? ==>
         runs[d].value.first < runs[d].value.last <= |fs| &&
         Joined(fs, runs[d].value.first, runs[d].value.last) == ds[d].deleted
  }

  /** Marks the fragments of a run as taken. */
  method Consume(consumed: seq<bool>, r: Run) returns (c: seq<bool>)
    requires r.first <= r.last <= |consumed|
    ensures |c| == |consumed| && forall i :: 0 <= i < |c| ==> c[i] == (consumed[i] || Within(r, i))
  {
    c := consumed;
    for i := r.first to r.last
      invariant |c| == |consumed|
      invariant forall j :: 0 <= j < |c| ==> c[j] == (consumed[j] || r.first <= j < i)
    {
      c := c[i := true];
    }
  }

  lemma {:induction false} ConsumeKeeps(fs: seq<Created>, consumed: seq<bool>, c: seq<bool>, gap: Option<int>,
                                        deleted: Text, runs: seq<Option<Run>>, d: nat, r: Run)
    requires |fs| == |consumed| == |c| && Consumes(runs, consumed) && d < |runs| && runs[d].None?
    requires IsRun(fs, consumed, gap, deleted, r)
    requires forall i :: 0 <= i < |c| ==> c[i] == (consumed[i] || Within(r, i))
    ensures Consumes(runs[d := Some(r)], c)
  {
    var rs := runs[d := Some(r)];
    forall i | 0 <= i < |c|
      ensures c[i] <==> exists e :: 0 <= e < |rs| && rs[e].Some? && Within(rs[e].value, i)
    {
      if consumed[i] {
        var e :| 0 <= e < |runs| && runs[e].Some? && Within(runs[e].value, i);
        assert rs[e] == runs[e];
      } else if Within(r, i) {
        assert rs[d] == Some(r);
      }
    }
    forall e, i | 0 <= e < |runs| && e != d && runs[e].Some? && Within(runs[e].value, i)
      ensures !Within(r, i)
    {
      if 0 <= i < |fs| {
        assert consumed[i];
        assert Within(r, i) ==> FitsGap(fs, consumed, gap, i);
      }
    }
  }

  /** One search for every deletion that has no run yet. */
  method TakeRuns(fs: seq<Created>, ds: seq<Deletion>, atGap: bool, runs0: seq<Option<Run>>, consumed0: seq<bool>)
    returns (runs: seq<Option<Run>>, consumed: seq<bool>)
    requires |fs| == |consumed0| && Matches(fs, ds, runs0) && Consumes(runs0, consumed0)
    requires forall d <- ds :: d.deleted != []
    ensures |consumed| == |fs| && Matches(fs, ds, runs) && Consumes(runs, consumed)
    ensures forall d :: 0 <= d < |ds| && runs0[d].Some? ==> runs[d] == runs0[d]
    ensures forall i :: 0 <= i < |fs| ==> consumed0[i] ==> consumed[i]
    ensures forall d :: 0 <= d < |ds| && runs[d].None? ==> NoRun(fs, consumed, GapOf(ds[d], atGap), ds[d].deleted)
    ensures atGap ==> forall d :: 0 <= d < |ds| && runs0[d].None? && runs[d].Some? ==> AtGap(fs, ds[d], runs[d].value)
  {
    runs, consumed := runs0, consumed0;
    for d := 0 to |ds|
      invariant |consumed| == |fs| && Matches(fs, ds, runs) && Consumes(runs, consumed)
      invariant forall e :: 0 <= e < |ds| && (runs0[e].Some? || e >= d) ==> runs[e] == runs0[e]
      invariant forall i :: 0 <= i < |fs| ==> consumed0[i] ==> consumed[i]
      invariant forall e :: 0 <= e < d && runs[e].None? ==> NoRun(fs, consumed, GapOf(ds[e], atGap), ds[e].deleted)
      invariant atGap ==> forall e :: 0 <= e < d && runs0[e].None? && runs[e].Some? ==> AtGap(fs, ds[e], runs[e].value)
    {
      if runs[d].Some? { continue; }
      assert ds[d] in ds;
      runs, consumed := TakeRun(fs, ds, d, GapOf(ds[d], atGap), runs, consumed);
    }
  }

  /** One deletion takes the first run that is free, if there is one. */
  method TakeRun(fs: seq<Created>, ds: seq<Deletion>, d: nat, gap: Option<int>,
                 runs0: seq<Option<Run>>, consumed0: seq<bool>)
    returns (runs: seq<Option<Run>>, consumed: seq<bool>)
    requires |fs| == |consumed0| && Matches(fs, ds, runs0) && Consumes(runs0, consumed0)
    requires d < |ds| && runs0[d].None? && ds[d].deleted != []
    ensures |consumed| == |fs| && Matches(fs, ds, runs) && Consumes(runs, consumed)
    ensures forall e :: 0 <= e < |ds| && e != d ==> runs[e] == runs0[e]
    ensures forall i :: 0 <= i < |fs| ==> consumed0[i] ==> consumed[i]
    ensures forall g, deleted :: NoRun(fs, consumed0, g, deleted) ==> NoRun(fs, consumed, g, deleted)
    ensures runs[d].None? ==> NoRun(fs, consumed, gap, ds[d].deleted)
    ensures runs[d].Some? && gap == Some(ds[d].point) ==> AtGap(fs, ds[d], runs[d].value)
  {
    runs, consumed := runs0, consumed0;
    var run := FirstRun(fs, consumed0, ds[d].deleted, gap);
    if run.None? { return; }
    consumed := Consume(consumed0, run.value);
    ConsumeKeeps(fs, consumed0, consumed, gap, ds[d].deleted, runs0, d, run.value);
    StillNone(fs, consumed0, consumed);
    runs := runs0[d := run];
    forall i | run.value.first <= i < run.value.last
      ensures gap.Some? ==> fs[i].at == gap.value
    {
      assert FitsGap(fs, consumed0, gap, i);
    }
  }

  /** Fewer free fragments make no new run. */
  lemma {:induction false} StillNone(fs: seq<Created>, consumed: seq<bool>, c: seq<bool>)
    requires |fs| == |consumed| == |c| && forall i :: 0 <= i < |c| ==> consumed[i] ==> c[i]
    ensures forall gap, deleted :: NoRun(fs, consumed, gap, deleted) ==> NoRun(fs, c, gap, deleted)
  {
    forall gap, deleted, q: Run | IsRun(fs, c, gap, deleted, q)
      ensures IsRun(fs, consumed, gap, deleted, q)
    {
      forall i | q.first <= i < q.last
        ensures FitsGap(fs, consumed, gap, i)
      {
        assert FitsGap(fs, c, gap, i);
      }
    }
  }

  /** The runs share nothing, and what they leave makes no unmatched deletion's text. */
  ghost predicate Exhausts(fs: seq<Created>, ds: seq<Deletion>, runs: seq<Option<Run>>)
    requires |runs| == |ds|
  {
    exists consumed :: |consumed| == |fs| && Consumes(runs, consumed)
                       && forall d :: 0 <= d < |ds| && runs[d].None? ==> NoRun(fs, consumed, None, ds[d].deleted)
  }

  function AllFree(fs: seq<Created>): seq<bool> {
    seq(|fs|, _ => false)
  }

  /** No other deletion has the deletion's gap. */
  predicate OwnGap(ds: seq<Deletion>, d: nat)
    requires d < |ds|
  {
    forall e :: 0 <= e < |ds| && e != d ==> ds[e].point != ds[d].point
  }

  /** A deletion with a gap of its own, whose fragments sit there, gets fragments that sit there. */
  ghost predicate KeepsOwn(fs: seq<Created>, ds: seq<Deletion>, runs: seq<Option<Run>>)
    requires |runs| == |ds|
  {
    forall d :: 0 <= d < |ds| && OwnGap(ds, d) && !NoRun(fs, AllFree(fs), Some(ds[d].point), ds[d].deleted) ==>
      runs[d].Some? && AtGap(fs, ds[d], runs[d].value)
  }

  lemma {:induction false} TakenAtGap(fs: seq<Created>, d: Deletion, r: Run, i: nat)
    requires i < |fs| && AtGap(fs, d, r) && Within(r, i)
    ensures fs[i].at == d.point
  {
  }

  /** What the gap search consumed sits at the gaps of the deletions that took it. */
  lemma {:induction false} OthersElsewhere(fs: seq<Created>, ds: seq<Deletion>, runs: seq<Option<Run>>, consumed: seq<bool>,
                                          d: nat, q: Run)
    requires |fs| == |consumed| && |runs| == |ds| && Consumes(runs, consumed) && d < |ds| && OwnGap(ds, d) && runs[d].None?
    requires forall e :: 0 <= e < |ds| && runs[e].Some? ==> AtGap(fs, ds[e], runs[e].value)
    requires IsRun(fs, AllFree(fs), Some(ds[d].point), ds[d].deleted, q)
    ensures IsRun(fs, consumed, Some(ds[d].point), ds[d].deleted, q)
  {
    forall i | q.first <= i < q.last
      ensures FitsGap(fs, consumed, Some(ds[d].point), i)
    {
      assert FitsGap(fs, AllFree(fs), Some(ds[d].point), i);
      if consumed[i] {
        var e :| 0 <= e < |runs| && runs[e].Some? && Within(runs[e].value, i);
        TakenAtGap(fs, ds[e], runs[e].value, i);
      }
    }
  }

  lemma {:induction false} GapSearchKeepsOwn(fs: seq<Created>, ds: seq<Deletion>, runs: seq<Option<Run>>, consumed: seq<bool>)
    requires |fs| == |consumed| && |runs| == |ds| && Consumes(runs, consumed)
    requires forall e :: 0 <= e < |ds| && runs[e].Some? ==> AtGap(fs, ds[e], runs[e].value)
    requires forall d :: 0 <= d < |ds| && runs[d].None? ==> NoRun(fs, consumed, Some(ds[d].point), ds[d].deleted)
    ensures KeepsOwn(fs, ds, runs)
  {
    forall d | 0 <= d < |ds| && OwnGap(ds, d) && !NoRun(fs, AllFree(fs), Some(ds[d].point), ds[d].deleted)
      ensures runs[d].Some?
    {
      if runs[d].None? {
        var q: Run :| IsRun(fs, AllFree(fs), Some(ds[d].point), ds[d].deleted, q);
        OthersElsewhere(fs, ds, runs, consumed, d, q);
      }
    }
  }

  /** The gap search for every deletion, and then the search at any gap. */
  method MatchFragments(fs: seq<Created>, ds: seq<Deletion>) returns (runs: seq<Option<Run>>)
    requires forall d <- ds :: d.deleted != []
    ensures Matches(fs, ds, runs)
    ensures Exhausts(fs, ds, runs)
    ensures KeepsOwn(fs, ds, runs)
  {
    runs := seq(|ds|, _ => None);
    var consumed := AllFree(fs);
    runs, consumed := TakeRuns(fs, ds, true, runs, consumed);
    GapSearchKeepsOwn(fs, ds, runs, consumed);
    runs, consumed := TakeRuns(fs, ds, false, runs, consumed);
    assert Consumes(runs, consumed);
  }

  // ------------------------------------------------------- ranges

  function RangesOf(fs: seq<Created>, edit: nat, r: Run, i: nat, start: nat): seq<FragmentRange>
    requires i <= r.last <= |fs|
    decreases r.last - i
  {
    if i == r.last then []
    else [FragmentRange(fs[i].id, edit, start, start + |fs[i].text|)]
         + RangesOf(fs, edit, r, i + 1, start + |fs[i].text|)
  }

  /**
   * The ranges of one deletion partition its text in order: each starts where
   * the one before ends, the last ends where the text does, and each holds
   * its fragment's text.
   */
  predicate Tiles(fs: seq<Created>, edit: nat, r: Run, i: nat, start: nat, deleted: Text, ranges: seq<FragmentRange>)
    requires i <= r.last <= |fs|
    decreases r.last - i
  {
    if i == r.last then ranges == [] && start == |deleted|
    else
      && ranges != [] && ranges[0].id == fs[i].id && ranges[0].edit == edit
      && ranges[0].start == start <= ranges[0].end <= |deleted|
      && deleted[ranges[0].start..ranges[0].end] == fs[i].text
      && Tiles(fs, edit, r, i + 1, ranges[0].end, deleted, ranges[1..])
  }

  lemma {:induction false} RangesTile(fs: seq<Created>, edit: nat, r: Run, i: nat, deleted: Text)
    requires r.first <= i <= r.last <= |fs| && Joined(fs, r.first, r.last) == deleted
    ensures Tiles(fs, edit, r, i, |Joined(fs, r.first, i)|, deleted,
                  RangesOf(fs, edit, r, i, |Joined(fs, r.first, i)|))
    decreases r.last - i
  {
    if i < r.last {
      JoinedPrefix(fs, r.first, i, r.last);
      JoinedPrefix(fs, r.first, i + 1, r.last);
      var n, m := |Joined(fs, r.first, i)|, |Joined(fs, r.first, i + 1)|;
      assert deleted[..m] == Joined(fs, r.first, i) + fs[i].text;
      assert deleted[n..m] == fs[i].text;
      RangesTile(fs, edit, r, i + 1, deleted);
    }
  }

  function AllRanges(fs: seq<Created>, ds: seq<Deletion>, runs: seq<Option<Run>>): seq<FragmentRange>
    requires Matches(fs, ds, runs)
  {
    if ds == [] then []
    else
      var n := |ds| - 1;
      AllRanges(fs, ds[..n], runs[..n])
      + if runs[n].Some? then RangesOf(fs, ds[n].edit, runs[n].value, runs[n].value.first, 0) else []
  }

  method RangesForRun(fs: seq<Created>, edit: nat, r: Run) returns (out: seq<FragmentRange>)
    requires r.first <= r.last <= |fs|
    ensures out == RangesOf(fs, edit, r, r.first, 0)
  {
    out := [];
    var start: nat := 0;
    for i := r.first to r.last
      invariant RangesOf(fs, edit, r, r.first, 0) == out + RangesOf(fs, edit, r, i, start)
    {
      out := out + [FragmentRange(fs[i].id, edit, start, start + |fs[i].text|)];
      start := start + |fs[i].text|;
    }
  }

  /** Where a point sits after the later edits. */
  method FindPoint(at: int, later: seq<Cut>) returns (point: int)
    ensures point == PointAfter(at, later)
  {
    point := at;
    for k := 0 to |later|
      invariant PointAfter(point, later[k..]) == PointAfter(at, later)
    {
      assert later[k..][1..] == later[k + 1..];
      point := MovePoint(point, later[k]);
    }
  }

  /** Each deletion's text and gap, as the edits are walked. */
  method CollectDeletions(before: Text, edits: seq<Edit>) returns (ds: seq<Deletion>)
    requires Valid(|before|, Running(edits, 0))
    ensures ds == DeletionsOf(before, Running(edits, 0), 0)
  {
    var spans := Running(edits, 0);
    ds := [];
    var cur := before;
    assert spans[0..] == spans;
    for index := 0 to |spans|
      invariant Valid(|cur|, spans[index..])
      invariant DeletionsOf(before, spans, 0) == ds + DeletionsOf(cur, spans[index..], index)
    {
      assert spans[index..][1..] == spans[index + 1..];
      cur, ds := NextDeletion(cur, spans, index, ds, DeletionsOf(before, spans, 0));
    }
  }

  /** One edit of the walk: its deletion, if it has one, and the text it leaves. */
  method NextDeletion(cur: Text, spans: seq<Cut>, index: nat, ds: seq<Deletion>, ghost all: seq<Deletion>)
    returns (next: Text, ds': seq<Deletion>)
    requires index < |spans| && Valid(|cur|, spans[index..]) && all == ds + DeletionsOf(cur, spans[index..], index)
    ensures Valid(|next|, spans[index + 1..]) && all == ds' + DeletionsOf(next, spans[index + 1..], index + 1)
  {
    var c := spans[index];
    assert spans[index..][0] == c && spans[index..][1..] == spans[index + 1..];
    next, ds' := ApplyCut(cur, c), ds;
    if c.et > c.ef {
      var point := FindPoint(c.ef, spans[index + 1..]);
      var d := Deletion(index, cur[c.ef..c.et], point);
      ConcatAssociates(ds, [d], DeletionsOf(next, spans[index + 1..], index + 1));
      ds' := ds + [d];
    }
  }

  method CollectRanges(fs: seq<Created>, ds: seq<Deletion>, runs: seq<Option<Run>>) returns (out: seq<FragmentRange>)
    requires Matches(fs, ds, runs)
    ensures out == AllRanges(fs, ds, runs)
  {
    out := [];
    for d := 0 to |ds|
      invariant out == AllRanges(fs, ds[..d], runs[..d])
    {
      assert ds[..d + 1][..d] == ds[..d] && runs[..d + 1][..d] == runs[..d];
      if runs[d].Some? {
        var ranges := RangesForRun(fs, ds[d].edit, runs[d].value);
        out := out + ranges;
      }
    }
    assert ds[..|ds|] == ds && runs[..|ds|] == runs;
  }

  /** A deletion that has a run gets ranges that tile its text. */
  predicate Tiled(fs: seq<Created>, d: Deletion, run: Option<Run>) {
    run.Some? ==>
      && run.value.first <= run.value.last <= |fs|
      && Tiles(fs, d.edit, run.value, run.value.first, 0, d.deleted, RangesOf(fs, d.edit, run.value, run.value.first, 0))
  }

  /**
   * `fragmentRangesFor`: every fragment goes to at most one deletion, a
   * deletion that gets fragments gets ranges that tile its text, and identical
   * texts at different gaps keep their own fragments. The deletions and the
   * runs behind the ranges come out beside them.
   */
  method FragmentRangesFor(before: Text, edits: seq<Edit>, fs: seq<Created>)
    returns (out: seq<FragmentRange>, ds: seq<Deletion>, runs: seq<Option<Run>>)
    requires Valid(|before|, Running(edits, 0))
    ensures ds == DeletionsOf(before, Running(edits, 0), 0)
    ensures Matches(fs, ds, runs) && out == AllRanges(fs, ds, runs) && Exhausts(fs, ds, runs) && KeepsOwn(fs, ds, runs)
    ensures forall d :: 0 <= d < |ds| ==> Tiled(fs, ds[d], runs[d])
    ensures forall d <- ds :: 0 <= d.point <= |ApplyCuts(before, Running(edits, 0))|
  {
    ds := CollectDeletions(before, edits);
    GapsInFinalText(before, Running(edits, 0), 0);
    runs := MatchFragments(fs, ds);
    out := CollectRanges(fs, ds, runs);
    forall d | 0 <= d < |ds| && runs[d].Some?
      ensures Tiled(fs, ds[d], runs[d])
    {
      RangesTile(fs, ds[d].edit, runs[d].value, runs[d].value.first, ds[d].deleted);
    }
  }

  // ------------------------------------------------------- the planner reads them

  /** A fragment range holds its fragment's text at its place in the deletion. */
  predicate Holds(range: FragmentRange, deleted: Text, text: Text) {
    range.start <= range.end <= |deleted| && deleted[range.start..range.end] == text
  }

  lemma {:induction false} FragmentForMember(ranges: seq<FragmentRange>, edit: nat, from: int, to: int)
    ensures var f := FragmentFor(ranges, edit, from, to);
            f.Some? ==> f.value in ranges && f.value.edit == edit && f.value.start <= from && to <= f.value.end
  {
    if ranges != [] { FragmentForMember(ranges[1..], edit, from, to); }
  }

  lemma {:induction false} FragmentReads(p: Planned, cur: Text, c: Cut, ctx: Context, f: FragmentRange, text: Text)
    requires CutFits(|cur|, c) && c.ef < c.et && Attached(p.a) && InText(cur, p.a) && Covers(c, p.a) && !ctx.foreign
    requires FragmentFor(ctx.fragments, ctx.edit, p.a.from - c.ef, p.a.to - c.ef) == Some(f) && Holds(f, cur[c.ef..c.et], text)
    ensures var a := DeleteUnder(p, c, ctx).a;
            && a.fragment == Some(f.id) && a.offset.Some? && a.length == Some(p.a.to - p.a.from)
            && OccursAt(text, cur[p.a.from..p.a.to], a.offset.value)
  {
    FragmentForMember(ctx.fragments, ctx.edit, p.a.from - c.ef, p.a.to - c.ef);
    var o := p.a.from - c.ef - f.start;
    SliceOfSlice(cur, c.ef, c.et, p.a.from - c.ef, p.a.to - c.ef);
    SliceOfSlice(cur[c.ef..c.et], f.start, f.end, o, o + p.a.to - p.a.from);
  }

  /** A range of a run is one of its fragments, and holds its text. */
  lemma {:induction false} RangeOfRun(fs: seq<Created>, edit: nat, r: Run, i: nat, start: nat, deleted: Text, x: FragmentRange)
    returns (j: nat)
    requires i <= r.last <= |fs| && x in RangesOf(fs, edit, r, i, start)
    requires Tiles(fs, edit, r, i, start, deleted, RangesOf(fs, edit, r, i, start))
    ensures i <= j < r.last && x.id == fs[j].id && x.edit == edit && Holds(x, deleted, fs[j].text)
    decreases r.last - i
  {
    var first := FragmentRange(fs[i].id, edit, start, start + |fs[i].text|);
    var rest := RangesOf(fs, edit, r, i + 1, start + |fs[i].text|);
    assert RangesOf(fs, edit, r, i, start) == [first] + rest && ([first] + rest)[1..] == rest;
    if x == first {
      j := i;
    } else {
      j := RangeOfRun(fs, edit, r, i + 1, start + |fs[i].text|, deleted, x);
    }
  }

  /** Every range given out holds the text of the fragment it names. */
  lemma {:induction false} RangeHolds(fs: seq<Created>, ds: seq<Deletion>, runs: seq<Option<Run>>, x: FragmentRange)
    returns (d: nat, i: nat)
    requires Matches(fs, ds, runs) && x in AllRanges(fs, ds, runs)
    ensures d < |ds| && i < |fs| && x.edit == ds[d].edit && x.id == fs[i].id && Holds(x, ds[d].deleted, fs[i].text)
    decreases |ds|
  {
    var n := |ds| - 1;
    if x in AllRanges(fs, ds[..n], runs[..n]) {
      d, i := RangeHolds(fs, ds[..n], runs[..n], x);
    } else {
      d := n;
      var r := runs[n].value;
      RangesTile(fs, ds[n].edit, r, r.first, ds[n].deleted);
      i := RangeOfRun(fs, ds[n].edit, r, r.first, 0, ds[n].deleted, x);
    }
  }

  /** The running text when edit `k` is made. */
  function TextAt(cur: Text, cuts: seq<Cut>, k: nat): (r: Text)
    requires Valid(|cur|, cuts) && k < |cuts|
    ensures CutFits(|r|, cuts[k])
    decreases cuts
  {
    if k == 0 then cur else TextAt(ApplyCut(cur, cuts[0]), cuts[1..], k - 1)
  }

  /** What edit `k` takes out of it. */
  function TakenAt(cur: Text, cuts: seq<Cut>, k: nat): Text
    requires Valid(|cur|, cuts) && k < |cuts|
  {
    var t, c := TextAt(cur, cuts, k), cuts[k];
    t[c.ef..c.et]
  }

  /** A deletion's text is what its edit takes out of the running text. */
  lemma {:induction false} DeletionReads(cur: Text, cuts: seq<Cut>, index: nat, d: Deletion)
    requires Valid(|cur|, cuts) && d in DeletionsOf(cur, cuts, index)
    ensures index <= d.edit < index + |cuts|
    ensures d.deleted == TakenAt(cur, cuts, d.edit - index)
    decreases cuts
  {
    var c := cuts[0];
    if !(c.et > c.ef && d == Deletion(index, cur[c.ef..c.et], PointAfter(c.ef, cuts[1..]))) {
      DeletionReads(ApplyCut(cur, c), cuts[1..], index + 1, d);
    }
  }

  /**
   * An anchor detached into a fragment keeps where its text is. With the
   * ranges that were computed for the batch, whichever edit takes the anchor
   * whole: the fragment it is recorded under is one that was created, and
   * reads the anchor's text at the recorded offset, for the recorded length.
   */
  lemma {:induction false} DetachedIntoFragment(before: Text, cuts: seq<Cut>, fs: seq<Created>, ds: seq<Deletion>,
                                               runs: seq<Option<Run>>, k: nat, cur: Text, p: Planned)
    requires Valid(|before|, cuts) && ds == DeletionsOf(before, cuts, 0) && Matches(fs, ds, runs)
    requires k < |cuts| && cur == TextAt(before, cuts, k) && cuts[k].ef < cuts[k].et
    requires Attached(p.a) && InText(cur, p.a) && Covers(cuts[k], p.a)
    ensures RecordedIn(fs, DeleteUnder(p, cuts[k], Context(k, AllRanges(fs, ds, runs), false)).a, cur[p.a.from..p.a.to])
  {
    var c, ranges := cuts[k], AllRanges(fs, ds, runs);
    var found := FragmentFor(ranges, k, p.a.from - c.ef, p.a.to - c.ef);
    if found.None? {
      NoFragmentRecorded(p, cur, c, Context(k, ranges, false), fs);
    } else {
      FragmentForMember(ranges, k, p.a.from - c.ef, p.a.to - c.ef);
      var i := RangeReads(before, cuts, fs, ds, runs, k, found.value);
      FragmentRecorded(p, cur, c, Context(k, ranges, false), fs, found.value, i);
    }
  }

  lemma {:induction false} NoFragmentRecorded(p: Planned, cur: Text, c: Cut, ctx: Context, fs: seq<Created>)
    requires CutFits(|cur|, c) && c.ef < c.et && Attached(p.a) && InText(cur, p.a) && Covers(c, p.a) && !ctx.foreign
    requires FragmentFor(ctx.fragments, ctx.edit, p.a.from - c.ef, p.a.to - c.ef).None?
    ensures RecordedIn(fs, DeleteUnder(p, c, ctx).a, cur[p.a.from..p.a.to])
  {
  }

  lemma {:induction false} FragmentRecorded(p: Planned, cur: Text, c: Cut, ctx: Context, fs: seq<Created>, f: FragmentRange,
                                           i: nat)
    requires CutFits(|cur|, c) && c.ef < c.et && Attached(p.a) && InText(cur, p.a) && Covers(c, p.a) && !ctx.foreign
    requires FragmentFor(ctx.fragments, ctx.edit, p.a.from - c.ef, p.a.to - c.ef) == Some(f)
    requires i < |fs| && f.id == fs[i].id && Holds(f, cur[c.ef..c.et], fs[i].text)
    ensures RecordedIn(fs, DeleteUnder(p, c, ctx).a, cur[p.a.from..p.a.to])
  {
    FragmentReads(p, cur, c, ctx, f, fs[i].text);
    assert fs[i] in fs;
  }

  lemma {:induction false} FragmentForFinds(fragments: seq<FragmentRange>, edit: nat, from: int, to: int)
    ensures FragmentFor(fragments, edit, from, to).Some? <==>
            exists f <- fragments :: f.edit == edit && f.start <= from && to <= f.end
  {
    if fragments != [] {
      FragmentForFinds(fragments[1..], edit, from, to);
      assert fragments == [fragments[0]] + fragments[1..];
    }
  }

  /** A covered anchor is recorded under a fragment exactly when one range of its deletion holds all of it. */
  lemma {:induction false} RecordedExactly(p: Planned, c: Cut, ctx: Context)
    requires c.ef < c.et && Attached(p.a) && Covers(c, p.a) && !ctx.foreign
    ensures DeleteUnder(p, c, ctx).a.fragment.Some? <==>
            exists f <- ctx.fragments :: f.edit == ctx.edit && f.start <= p.a.from - c.ef && p.a.to - c.ef <= f.end
  {
    FragmentForFinds(ctx.fragments, ctx.edit, p.a.from - c.ef, p.a.to - c.ef);
  }

  lemma {:induction false} RangeReads(before: Text, cuts: seq<Cut>, fs: seq<Created>, ds: seq<Deletion>,
                                      runs: seq<Option<Run>>, k: nat, x: FragmentRange) returns (i: nat)
    requires Valid(|before|, cuts) && ds == DeletionsOf(before, cuts, 0) && Matches(fs, ds, runs)
    requires k < |cuts| && x in AllRanges(fs, ds, runs) && x.edit == k
    ensures i < |fs| && x.id == fs[i].id && Holds(x, TakenAt(before, cuts, k), fs[i].text)
  {
    var d, j := RangeHolds(fs, ds, runs, x);
    DeletionReads(before, cuts, 0, ds[d]);
    i := j;
  }

  /** The fragment an anchor is recorded under, if any, holds its text where the record says. */
  predicate RecordedIn(fs: seq<Created>, a: Anchor, text: Text) {
    a.fragment.Some? ==>
      && a.offset.Some? && a.length == Some(|text|)
      && exists f <- fs :: f.id == a.fragment.value && OccursAt(f.text, text, a.offset.value)
  }
}
