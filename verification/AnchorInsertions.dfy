/**
 * The insertions of a batch seen character by character: one is listed for
 * phase 2 as long as its characters stand together.
 */
module AnchorInsertions {
  import opened Common
  import opened Utf16
  import opened AnchorEdits

  /** A mark is a character's place in the insertion that is watched, absent on every other character. */
  type Mark = Option<nat>

  function StepTags(tags: seq<Mark>, c: Cut): (r: seq<Mark>)
    requires CutFits(|tags|, c)
    ensures |r| == |tags| + |c.insert| - (c.et - c.ef)
  {
    tags[..c.ef] + seq(|c.insert|, _ => None) + tags[c.et..]
  }

  function RunTags(tags: seq<Mark>, cuts: seq<Cut>): seq<Mark>
    requires Valid(|tags|, cuts)
    decreases cuts
  {
    if cuts == [] then tags else RunTags(StepTags(tags, cuts[0]), cuts[1..])
  }

  /** The watched characters stand in order from `at` on. */
  predicate Stands(tags: seq<Mark>, n: nat, at: nat) {
    at + n <= |tags| && forall k :: at <= k < at + n ==> tags[k] == Some(k - at)
  }

  predicate StandsSomewhere(tags: seq<Mark>, n: nat) {
    exists at | 0 <= at <= |tags| :: Stands(tags, n, at)
  }

  /** After every edit of the batch they still stand together. */
  predicate StandsThroughout(tags: seq<Mark>, n: nat, cuts: seq<Cut>)
    requires Valid(|tags|, cuts)
    decreases cuts
  {
    cuts == [] || (
      && StandsSomewhere(StepTags(tags, cuts[0]), n)
      && StandsThroughout(StepTags(tags, cuts[0]), n, cuts[1..]))
  }

  /** Exactly the insertion's characters are marked. */
  predicate Watches(tags: seq<Mark>, ins: Insertion) {
    && 0 <= ins.at && ins.at + |ins.text| <= |tags| && ins.text != []
    && forall k :: 0 <= k < |tags| ==>
         tags[k] == if ins.at <= k < ins.at + |ins.text| then Some(k - ins.at) else None
  }

  lemma {:induction false} FollowedStands(tags: seq<Mark>, ins: Insertion, c: Cut)
    requires Watches(tags, ins) && CutFits(|tags|, c) && Follow(ins, c).Some?
    ensures Watches(StepTags(tags, c), Follow(ins, c).value)
  {
    var r, y := StepTags(tags, c), Follow(ins, c).value;
    forall k | 0 <= k < |r|
      ensures r[k] == if y.at <= k < y.at + |y.text| then Some(k - y.at) else None
    {
      if k < c.ef {
        assert r[k] == tags[k];
      } else if k >= c.ef + |c.insert| {
        assert r[k] == tags[k - |c.insert| + (c.et - c.ef)];
      }
    }
  }

  /** An edit that reaches into an insertion takes one of its characters or parts two of them. */
  lemma {:induction false} ReachedFalls(tags: seq<Mark>, ins: Insertion, c: Cut)
    requires Watches(tags, ins) && CutFits(|tags|, c) && !Idle(c) && Follow(ins, c).None?
    ensures !StandsSomewhere(StepTags(tags, c), |ins.text|)
  {
    var r, n := StepTags(tags, c), |ins.text|;
    forall at: nat | at <= |r|
      ensures !Stands(r, n, at)
    {
      NotThere(tags, ins, c, at);
    }
  }

  /** Where a marked character of the new text was before. */
  lemma {:induction false} MarkWasAt(tags: seq<Mark>, ins: Insertion, c: Cut, k: nat)
    requires Watches(tags, ins) && CutFits(|tags|, c) && k < |StepTags(tags, c)| && StepTags(tags, c)[k].Some?
    ensures var i := ins.at + StepTags(tags, c)[k].value;
            if k < c.ef then i == k else c.ef + |c.insert| <= k && i == k - |c.insert| + (c.et - c.ef)
  {
    var r := StepTags(tags, c);
    if k < c.ef {
      assert r[k] == tags[k];
    } else if k >= c.ef + |c.insert| {
      assert r[k] == tags[k - |c.insert| + (c.et - c.ef)];
    }
  }

  lemma {:induction false} NotThere(tags: seq<Mark>, ins: Insertion, c: Cut, at: nat)
    requires Watches(tags, ins) && CutFits(|tags|, c) && !Idle(c) && Follow(ins, c).None?
    ensures !Stands(StepTags(tags, c), |ins.text|, at)
  {
    var r, n := StepTags(tags, c), |ins.text|;
    if at + n <= |r| && r[at] == Some(0) && r[at + n - 1] == Some(n - 1) {
      MarkWasAt(tags, ins, c, at);
      MarkWasAt(tags, ins, c, at + n - 1);
      assert r[c.ef] == None;
    }
  }

  lemma {:induction false} FollowAllHas(inserts: seq<Insertion>, c: Cut, ins: Insertion)
    requires ins in inserts && Follow(ins, c).Some?
    ensures Follow(ins, c).value in FollowAll(inserts, c)
  {
    if inserts[0] != ins { FollowAllHas(inserts[1..], c, ins); }
  }

  /**
   * An insertion stays listed: as long as its characters stand together after
   * every edit of the batch, phase 2 finds it listed where they are.
   */
  lemma {:induction false} InsertionsStayListed(st: FileState, tags: seq<Mark>, ins: Insertion, cuts: seq<Cut>, ctx: Context)
    returns (y: Insertion)
    requires ins in st.inserts && |tags| == |st.cur| && Watches(tags, ins) && Valid(|st.cur|, cuts)
    requires StandsThroughout(tags, |ins.text|, cuts)
    ensures y in RunFile(st, cuts, ctx).inserts && y.text == ins.text && Watches(RunTags(tags, cuts), y)
    decreases cuts
  {
    if cuts == [] {
      y := ins;
    } else {
      var c, next := cuts[0], StepFile(st, cuts[0], ctx);
      var tags' := StepTags(tags, c);
      if Idle(c) {
        assert tags' == tags;
        y := InsertionsStayListed(next, tags', ins, cuts[1..], ctx.(edit := ctx.edit + 1));
      } else {
        if Follow(ins, c).None? { ReachedFalls(tags, ins, c); }
        var moved := Follow(ins, c).value;
        FollowAllHas(st.inserts, c, ins);
        FollowedStands(tags, ins, c);
        y := InsertionsStayListed(next, tags', moved, cuts[1..], ctx.(edit := ctx.edit + 1));
      }
    }
  }
}
