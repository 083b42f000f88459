/**
 * The observability extractor at the heart of `calculate_ephemeris`
 * (ephemeris.py): from one altitude and one night flag per time-grid sample it
 * builds the mask "altitude >= 30 degrees and night", cuts the masked indices
 * into contiguous blocks, picks the longest block (the first one on a tie),
 * and reports that block's start, end and duration together with the peak
 * altitude over every masked sample.
 *
 * Instants are whole minutes, altitudes are degrees.
 */
module Observability {
  import opened Wrappers

  /** MIN_ALTITUDE in ephemeris.py. */
  const MinAltitude: real := 30.0

  predicate StrictlyIncreasing(s: seq<int>) {
    forall k :: 0 < k < |s| ==> s[k - 1] < s[k]
  }

  function Last<T>(s: seq<T>): T
    requires |s| > 0
  {
    s[|s| - 1]
  }

  /** `altitude_mask & night_mask`. */
  function Mask(alts: seq<real>, night: seq<bool>): (mask: seq<bool>)
    requires |alts| == |night|
    ensures |mask| == |alts|
    ensures forall i :: 0 <= i < |mask| ==> (mask[i] <==> alts[i] >= MinAltitude && night[i])
    ensures AnyMasked(mask) <==> exists i :: 0 <= i < |alts| && alts[i] >= MinAltitude && night[i]
  {
    seq(|alts|, i requires 0 <= i < |alts| => alts[i] >= MinAltitude && night[i])
  }

  predicate AnyMasked(mask: seq<bool>) {
    exists i :: 0 <= i < |mask| && mask[i]
  }

  /** The masked indices at or after i, in ascending order. */
  function WhereFrom(mask: seq<bool>, i: nat): (idx: seq<nat>)
    requires i <= |mask|
    ensures forall k :: 0 <= k < |idx| ==> i <= idx[k] < |mask| && mask[idx[k]]
    ensures forall k :: i <= k < |mask| && mask[k] ==> k in idx
    ensures StrictlyIncreasing(idx)
    decreases |mask| - i
  {
    if i == |mask| then []
    else if mask[i] then [i] + WhereFrom(mask, i + 1)
    else WhereFrom(mask, i + 1)
  }

  /** `np.where(mask)[0]`: masked indices, ascending. */
  function Where(mask: seq<bool>): (idx: seq<nat>)
    ensures forall k :: 0 <= k < |idx| ==> idx[k] < |mask| && mask[idx[k]]
    ensures forall k :: 0 <= k < |mask| && mask[k] ==> k in idx
    ensures StrictlyIncreasing(idx)
  {
    WhereFrom(mask, 0)
  }

  /**
   * `np.split(idx, np.where(np.diff(idx) > 1)[0] + 1)`: cut idx between
   * every two neighbours whose difference exceeds one.
   */
  function Split(idx: seq<nat>): (blocks: seq<seq<nat>>)
    ensures |blocks| == 0 <==> |idx| == 0
    ensures forall j :: 0 <= j < |blocks| ==> |blocks[j]| > 0
    ensures |idx| > 0 ==> blocks[0][0] == idx[0]
    decreases |idx|
  {
    if |idx| == 0 then []
    else if |idx| == 1 then [idx]
    else
      var rest := Split(idx[1..]);
      if idx[1] > idx[0] + 1 then [[idx[0]]] + rest
      else [[idx[0]] + rest[0]] + rest[1..]
  }

  function Flatten(blocks: seq<seq<nat>>): seq<nat> {
    if |blocks| == 0 then [] else blocks[0] + Flatten(blocks[1..])
  }

  /** The blocks put back together are the indices split: nothing lost, nothing reordered. */
  lemma {:induction false} SplitFlattens(idx: seq<nat>)
    ensures Flatten(Split(idx)) == idx
    decreases |idx|
  {
    if |idx| > 1 {
      var rest := Split(idx[1..]);
      SplitFlattens(idx[1..]);
      if idx[1] <= idx[0] + 1 {
        calc {
          Flatten(Split(idx));
          ([idx[0]] + rest[0]) + Flatten(rest[1..]);
          [idx[0]] + (rest[0] + Flatten(rest[1..]));
          [idx[0]] + Flatten(rest);
          idx;
        }
      }
    }
  }

  /** The blocks of masked indices, in grid order. */
  function Blocks(mask: seq<bool>): seq<seq<nat>> {
    Split(Where(mask))
  }

  /**
   * s..e is a run of masked samples that cannot be extended within
   * mask[i..]: the sample before it is unmasked (or it starts at i) and the
   * sample after it is unmasked (or it ends the grid).
   */
  ghost predicate RunFrom(mask: seq<bool>, i: nat, s: nat, e: nat) {
    && i <= s <= e < |mask|
    && (forall k :: s <= k <= e ==> mask[k])
    && (s == i || !mask[s - 1])
    && (e + 1 == |mask| || !mask[e + 1])
  }

  /** s..e is a maximal run of consecutive masked samples. */
  ghost predicate MaximalRun(mask: seq<bool>, s: nat, e: nat) {
    RunFrom(mask, 0, s, e)
  }

  /**
   * bs lists the runs of mask[i..] in order: each block holds every index
   * from its first to its last, which is a run that cannot be extended
   * within mask[i..], each block ends before the next one starts, and every masked sample
   * at or after i lies in one of them.
   */
  ghost predicate RunsFrom(mask: seq<bool>, i: nat, bs: seq<seq<nat>>)
    requires forall j :: 0 <= j < |bs| ==> |bs[j]| > 0
  {
    && (forall j :: 0 <= j < |bs| ==>
          RunFrom(mask, i, bs[j][0], Last(bs[j])) && |bs[j]| == Last(bs[j]) - bs[j][0] + 1)
    && (forall j {:trigger EndsBefore(bs, j)} :: 0 < j < |bs| ==> EndsBefore(bs, j))
    && (forall k {:trigger Covered(bs, k)} :: i <= k < |mask| && mask[k] ==> Covered(bs, k))
  }

  /** Block j - 1 ends before block j starts. */
  ghost predicate EndsBefore(bs: seq<seq<nat>>, j: nat)
    requires 0 < j < |bs| && |bs[j - 1]| > 0 && |bs[j]| > 0
  {
    Last(bs[j - 1]) < bs[j][0]
  }

  /** Sample k lies between the first and the last index of one of the blocks. */
  ghost predicate Covered(bs: seq<seq<nat>>, k: nat) {
    exists j :: 0 <= j < |bs| && |bs[j]| > 0 && bs[j][0] <= k <= Last(bs[j])
  }

  /** Split of WhereFrom(mask, i): its blocks are exactly the runs of mask[i..], in order. */
  lemma {:induction false} SplitRunsFrom(mask: seq<bool>, i: nat)
    requires i <= |mask|
    ensures RunsFrom(mask, i, Split(WhereFrom(mask, i)))
    decreases |mask| - i
  {
    if i < |mask| {
      SplitRunsFrom(mask, i + 1);
      if !mask[i] {
        SplitRunsSkip(mask, i);
      } else if i + 1 < |mask| && mask[i + 1] {
        SplitRunsMerge(mask, i);
      } else {
        SplitRunsNew(mask, i);
      }
    }
  }

  /** Step of SplitRunsFrom where sample i is unmasked: the blocks are those of mask[i + 1..]. */
  lemma {:induction false} SplitRunsSkip(mask: seq<bool>, i: nat)
    requires i < |mask| && !mask[i]
    requires RunsFrom(mask, i + 1, Split(WhereFrom(mask, i + 1)))
    ensures RunsFrom(mask, i, Split(WhereFrom(mask, i)))
  {
    assert WhereFrom(mask, i) == WhereFrom(mask, i + 1);
  }

  /** Step of SplitRunsFrom where samples i and i + 1 are both masked: i joins the first block. */
  lemma {:induction false} SplitRunsMerge(mask: seq<bool>, i: nat)
    requires i + 1 < |mask| && mask[i] && mask[i + 1]
    requires RunsFrom(mask, i + 1, Split(WhereFrom(mask, i + 1)))
    ensures RunsFrom(mask, i, Split(WhereFrom(mask, i)))
  {
    var rest := WhereFrom(mask, i + 1);
    var rbs := Split(rest);
    var idx := WhereFrom(mask, i);
    assert idx == [i] + rest;
    assert rest[0] == i + 1;
    assert idx[1..] == rest;
    var bs := Split(idx);
    assert bs == [[i] + rbs[0]] + rbs[1..];
    RunsAfterMerge(mask, i, rbs, bs);
    CoveredAfterMerge(mask, i, rbs, bs);
  }

  /** The per-block and ordering clauses of RunsFrom after i joins the first block. */
  lemma {:induction false} RunsAfterMerge(mask: seq<bool>, i: nat, rbs: seq<seq<nat>>, bs: seq<seq<nat>>)
    requires i + 1 < |mask| && mask[i]
    requires |rbs| > 0 && forall j :: 0 <= j < |rbs| ==> |rbs[j]| > 0
    requires rbs[0][0] == i + 1
    requires bs == [[i] + rbs[0]] + rbs[1..]
    requires forall j :: 0 <= j < |rbs| ==>
      RunFrom(mask, i + 1, rbs[j][0], Last(rbs[j])) && |rbs[j]| == Last(rbs[j]) - rbs[j][0] + 1
    requires forall j {:trigger EndsBefore(rbs, j)} :: 0 < j < |rbs| ==> EndsBefore(rbs, j)
    ensures forall j :: 0 <= j < |bs| ==> |bs[j]| > 0
    ensures forall j :: 0 <= j < |bs| ==>
      RunFrom(mask, i, bs[j][0], Last(bs[j])) && |bs[j]| == Last(bs[j]) - bs[j][0] + 1
    ensures forall j {:trigger EndsBefore(bs, j)} :: 0 < j < |bs| ==> EndsBefore(bs, j)
  {
    var b0 := [i] + rbs[0];
    assert b0[0] == i && Last(b0) == Last(rbs[0]) && |b0| == |rbs[0]| + 1;
    forall j | 0 <= j < |bs|
      ensures |bs[j]| > 0
      ensures RunFrom(mask, i, bs[j][0], Last(bs[j])) && |bs[j]| == Last(bs[j]) - bs[j][0] + 1
    {
      if j > 0 {
        assert bs[j] == rbs[j];
        StartsMonotone(rbs, 0, j);
      }
    }
    forall j | 0 < j < |bs|
      ensures EndsBefore(bs, j)
    {
      assert bs[j] == rbs[j];
      if j > 1 {
        assert bs[j - 1] == rbs[j - 1];
        assert EndsBefore(rbs, j);
      } else if |rbs| > 1 {
        assert EndsBefore(rbs, 1);
      }
    }
  }

  /** Step of SplitRunsFrom where sample i is masked and i + 1 is not: i opens a block of its own. */
  lemma {:induction false} SplitRunsNew(mask: seq<bool>, i: nat)
    requires i < |mask| && mask[i] && (i + 1 == |mask| || !mask[i + 1])
    requires RunsFrom(mask, i + 1, Split(WhereFrom(mask, i + 1)))
    ensures RunsFrom(mask, i, Split(WhereFrom(mask, i)))
  {
    var rest := WhereFrom(mask, i + 1);
    var rbs := Split(rest);
    var idx := WhereFrom(mask, i);
    assert idx == [i] + rest;
    var bs := Split(idx);
    if |rest| == 0 {
      assert rbs == [] && idx == [i];
      assert bs == [[i]] + rbs;
    } else {
      assert idx[1..] == rest;
      assert mask[rest[0]];
      assert idx[1] > idx[0] + 1;
      assert bs == [[i]] + rbs;
    }
    RunsAfterNew(mask, i, rbs, bs);
    CoveredAfterNew(mask, i, rbs, bs);
  }

  /** The per-block and ordering clauses of RunsFrom after i opens a block of its own. */
  lemma {:induction false} RunsAfterNew(mask: seq<bool>, i: nat, rbs: seq<seq<nat>>, bs: seq<seq<nat>>)
    requires i < |mask| && mask[i] && (i + 1 == |mask| || !mask[i + 1])
    requires forall j :: 0 <= j < |rbs| ==> |rbs[j]| > 0
    requires |rbs| > 0 ==> rbs[0][0] > i + 1
    requires bs == [[i]] + rbs
    requires forall j :: 0 <= j < |rbs| ==>
      RunFrom(mask, i + 1, rbs[j][0], Last(rbs[j])) && |rbs[j]| == Last(rbs[j]) - rbs[j][0] + 1
    requires forall j {:trigger EndsBefore(rbs, j)} :: 0 < j < |rbs| ==> EndsBefore(rbs, j)
    ensures forall j :: 0 <= j < |bs| ==> |bs[j]| > 0
    ensures forall j :: 0 <= j < |bs| ==>
      RunFrom(mask, i, bs[j][0], Last(bs[j])) && |bs[j]| == Last(bs[j]) - bs[j][0] + 1
    ensures forall j {:trigger EndsBefore(bs, j)} :: 0 < j < |bs| ==> EndsBefore(bs, j)
  {
    forall j | 0 <= j < |bs|
      ensures |bs[j]| > 0
      ensures RunFrom(mask, i, bs[j][0], Last(bs[j])) && |bs[j]| == Last(bs[j]) - bs[j][0] + 1
    {
      if j > 0 {
        assert bs[j] == rbs[j - 1];
      }
    }
    forall j | 0 < j < |bs|
      ensures EndsBefore(bs, j)
    {
      assert bs[j] == rbs[j - 1];
      if j > 1 {
        assert bs[j - 1] == rbs[j - 2];
        assert EndsBefore(rbs, j - 1);
      }
    }
  }

  /** Blocks that each end before the next starts have increasing starts. */
  lemma {:induction false} StartsMonotone(bs: seq<seq<nat>>, j: nat, j': nat)
    requires forall j :: 0 <= j < |bs| ==> |bs[j]| > 0 && bs[j][0] <= Last(bs[j])
    requires forall j {:trigger EndsBefore(bs, j)} :: 0 < j < |bs| ==> EndsBefore(bs, j)
    requires j <= j' < |bs|
    ensures bs[j][0] <= bs[j'][0]
    ensures j < j' ==> bs[j][0] < bs[j'][0]
    decreases j' - j
  {
    if j < j' {
      StartsMonotone(bs, j, j' - 1);
      assert EndsBefore(bs, j');
    }
  }

  /** A block whose first and last index enclose k covers k. */
  lemma CoveredBy(bs: seq<seq<nat>>, k: nat, j: nat)
    requires j < |bs| && |bs[j]| > 0 && bs[j][0] <= k <= Last(bs[j])
    ensures Covered(bs, k)
  {
  }

  lemma {:induction false} CoveredAfterMerge(mask: seq<bool>, i: nat, rbs: seq<seq<nat>>, bs: seq<seq<nat>>)
    requires |rbs| > 0 && forall j :: 0 <= j < |rbs| ==> |rbs[j]| > 0
    requires rbs[0][0] == i + 1 && rbs[0][0] <= Last(rbs[0])
    requires bs == [[i] + rbs[0]] + rbs[1..]
    requires forall k {:trigger Covered(rbs, k)} :: i + 1 <= k < |mask| && mask[k] ==> Covered(rbs, k)
    ensures forall k {:trigger Covered(bs, k)} :: i <= k < |mask| && mask[k] ==> Covered(bs, k)
  {
    forall k | i <= k < |mask| && mask[k]
      ensures Covered(bs, k)
    {
      assert Last(bs[0]) == Last(rbs[0]);
      if k == i {
        CoveredBy(bs, k, 0);
      } else {
        assert Covered(rbs, k);
        var j :| 0 <= j < |rbs| && |rbs[j]| > 0 && rbs[j][0] <= k <= Last(rbs[j]);
        if j == 0 {
          CoveredBy(bs, k, 0);
        } else {
          assert bs[j] == rbs[j];
          CoveredBy(bs, k, j);
        }
      }
    }
  }

  lemma {:induction false} CoveredAfterNew(mask: seq<bool>, i: nat, rbs: seq<seq<nat>>, bs: seq<seq<nat>>)
    requires forall j :: 0 <= j < |rbs| ==> |rbs[j]| > 0
    requires bs == [[i]] + rbs
    requires forall k {:trigger Covered(rbs, k)} :: i + 1 <= k < |mask| && mask[k] ==> Covered(rbs, k)
    ensures forall k {:trigger Covered(bs, k)} :: i <= k < |mask| && mask[k] ==> Covered(bs, k)
  {
    forall k | i <= k < |mask| && mask[k]
      ensures Covered(bs, k)
    {
      if k == i {
        CoveredBy(bs, k, 0);
      } else {
        assert Covered(rbs, k);
        var j :| 0 <= j < |rbs| && |rbs[j]| > 0 && rbs[j][0] <= k <= Last(rbs[j]);
        assert bs[j + 1] == rbs[j];
        CoveredBy(bs, k, j + 1);
      }
    }
  }

  /** Two maximal runs that share a sample are the same run. */
  lemma MaximalRunsMeet(mask: seq<bool>, s: nat, e: nat, s2: nat, e2: nat)
    requires MaximalRun(mask, s, e) && MaximalRun(mask, s2, e2)
    requires s2 <= s <= e2
    ensures s == s2 && e == e2
  {
  }

  /**
   * The blocks are exactly the maximal runs of masked samples, listed in
   * increasing order of their start.
   */
  lemma {:induction false} BlocksAreMaximalRuns(mask: seq<bool>)
    ensures RunsFrom(mask, 0, Blocks(mask))
    ensures AnyMasked(mask) ==> |Blocks(mask)| > 0
    ensures forall s: nat, e: nat :: MaximalRun(mask, s, e) ==>
      exists j :: 0 <= j < |Blocks(mask)| && Blocks(mask)[j][0] == s && Last(Blocks(mask)[j]) == e
  {
    SplitRunsFrom(mask, 0);
    var bs := Blocks(mask);
    if AnyMasked(mask) {
      var k :| 0 <= k < |mask| && mask[k];
      assert Covered(bs, k);
    }
    forall s: nat, e: nat | MaximalRun(mask, s, e)
      ensures exists j :: 0 <= j < |bs| && bs[j][0] == s && Last(bs[j]) == e
    {
      assert mask[s] && Covered(bs, s);
      var j :| 0 <= j < |bs| && |bs[j]| > 0 && bs[j][0] <= s <= Last(bs[j]);
      MaximalRunsMeet(mask, s, e, bs[j][0], Last(bs[j]));
    }
  }

  /** The number of samples in the run s..e. */
  function RunLength(s: int, e: int): int {
    e - s + 1
  }

  /**
   * `max(blocks, key=len)`: the index of a longest block. Python's max only
   * replaces its candidate on a strictly greater key, so on a tie the first
   * longest block wins.
   */
  function FirstLongest(bs: seq<seq<nat>>): (r: nat)
    requires |bs| > 0
    ensures r < |bs|
    ensures forall j :: 0 <= j < |bs| ==> |bs[j]| <= |bs[r]|
    ensures forall j :: 0 <= j < r ==> |bs[j]| < |bs[r]|
  {
    if |bs| == 1 then 0
    else
      var r := FirstLongest(bs[..|bs| - 1]);
      if |bs[|bs| - 1]| > |bs[r]| then |bs| - 1 else r
  }

  /**
   * The first index and last index of the block the extractor selects: a
   * maximal run of masked samples at least as long as every other one and
   * strictly longer than every one that starts earlier.
   */
  function LongestRun(mask: seq<bool>): (run: (nat, nat))
    requires AnyMasked(mask)
    ensures MaximalRun(mask, run.0, run.1)
    ensures forall s: nat, e: nat :: MaximalRun(mask, s, e) ==> RunLength(s, e) <= RunLength(run.0, run.1)
    ensures forall s: nat, e: nat :: MaximalRun(mask, s, e) && s < run.0 ==> RunLength(s, e) < RunLength(run.0, run.1)
  {
    var bs := Blocks(mask);
    BlocksAreMaximalRuns(mask);
    var r := FirstLongest(bs);
    var b := bs[r];
    assert forall s: nat, e: nat :: MaximalRun(mask, s, e) && s < b[0] ==> RunLength(s, e) < RunLength(b[0], Last(b)) by {
      forall s: nat, e: nat | MaximalRun(mask, s, e) && s < b[0]
        ensures RunLength(s, e) < RunLength(b[0], Last(b))
      {
        var j :| 0 <= j < |bs| && bs[j][0] == s && Last(bs[j]) == e;
        if j >= r {
          StartsMonotone(bs, r, j);
        }
      }
    }
    (b[0], Last(b))
  }

  /** `altitudes[mask]`: the altitudes of the masked samples, in grid order. */
  function Select(alts: seq<real>, mask: seq<bool>): (r: seq<real>)
    requires |alts| == |mask|
    ensures forall i :: 0 <= i < |alts| && mask[i] ==> alts[i] in r
    ensures forall x :: x in r ==> exists i :: 0 <= i < |alts| && mask[i] && alts[i] == x
  {
    if |alts| == 0 then []
    else
      Select(alts[..|alts| - 1], mask[..|mask| - 1])
        + (if mask[|mask| - 1] then [alts[|alts| - 1]] else [])
  }

  /** `np.max` of a non-empty sequence. */
  function SeqMax(s: seq<real>): (m: real)
    requires |s| > 0
    ensures m in s
    ensures forall k :: 0 <= k < |s| ==> s[k] <= m
  {
    if |s| == 1 then s[0]
    else
      var m := SeqMax(s[1..]);
      if s[0] >= m then s[0] else m
  }

  /**
   * `np.max(altitudes[observable_mask])`: the highest altitude over all
   * masked samples, whichever block they lie in.
   */
  function Peak(alts: seq<real>, mask: seq<bool>): (p: real)
    requires |alts| == |mask| && AnyMasked(mask)
    ensures forall i :: 0 <= i < |alts| && mask[i] ==> alts[i] <= p
    ensures exists i :: 0 <= i < |alts| && mask[i] && alts[i] == p
  {
    var selected := Select(alts, mask);
    assert |selected| > 0;
    SeqMax(selected)
  }

  /** What the extractor reports for one target. */
  datatype Window =
    | NotObservable
    | Observable(start: int, end: int, duration: int, peak: real)

  /** `time_grid[1]` raises IndexError on a grid of a single sample. */
  datatype ExtractError = GridIndexError

  /**
   * Lines 156-202 of ephemeris.py after the altitudes and night flags are
   * sampled: the observable window of one target on the time grid.
   */
  function Extract(grid: seq<int>, alts: seq<real>, night: seq<bool>): (r: Result<Window, ExtractError>)
    requires |alts| == |grid| && |night| == |grid|
    ensures r.Ok? && r.value.Observable? ==> AnyMasked(Mask(alts, night))
    ensures r == Ok(NotObservable) <==>
      forall i :: 0 <= i < |grid| ==> !(alts[i] >= MinAltitude && night[i])
    ensures r.Err? <==>
      (exists i :: 0 <= i < |grid| && alts[i] >= MinAltitude && night[i]) && |grid| < 2
    ensures r.Ok? && r.value.Observable? ==>
      var run := LongestRun(Mask(alts, night));
      && r.value.start == grid[run.0]
      && r.value.end == grid[run.1]
      && r.value.duration == (grid[run.1] - grid[run.0]) + (grid[1] - grid[0])
      && (forall k :: run.0 <= k <= run.1 ==> alts[k] <= r.value.peak)
    ensures r.Ok? && r.value.Observable? ==>
      && r.value.peak >= MinAltitude
      && (forall i :: 0 <= i < |grid| && alts[i] >= MinAltitude && night[i] ==> alts[i] <= r.value.peak)
      && (exists i :: 0 <= i < |grid| && alts[i] >= MinAltitude && night[i] && alts[i] == r.value.peak)
  {
    var mask := Mask(alts, night);
    if !AnyMasked(mask) then Ok(NotObservable)
    else
      var run := LongestRun(mask);
      if |grid| < 2 then Err(GridIndexError)
      else
        var peak := Peak(alts, mask);
        Ok(Observable(grid[run.0], grid[run.1], (grid[run.1] - grid[run.0]) + (grid[1] - grid[0]), peak))
  }

  /** Samples spaced exactly `step` apart. */
  ghost predicate UniformGrid(grid: seq<int>, step: int) {
    forall k :: 0 <= k < |grid| ==> grid[k] == grid[0] + step * k
  }

  /**
   * On a uniform grid the reported start does not follow the end, and the
   * duration (end - start plus one step) is the run length in samples times
   * the step.
   */
  lemma {:induction false} UniformSpan(grid: seq<int>, step: nat, s: nat, e: nat)
    requires UniformGrid(grid, step) && s <= e < |grid| && 1 < |grid|
    ensures grid[s] <= grid[e]
    ensures grid[e] - grid[s] == (e - s) * step
    ensures grid[1] - grid[0] == step
    ensures (grid[e] - grid[s]) + (grid[1] - grid[0]) == (e - s + 1) * step
  {
    assert grid[e] - grid[s] == step * (e - s) by {
      assert grid[e] == grid[0] + step * e;
      assert grid[s] == grid[0] + step * s;
    }
    assert grid[1] - grid[0] == step by {
      assert grid[1] == grid[0] + step * 1;
    }
  }

  lemma {:induction false} ObservableDuration(grid: seq<int>, alts: seq<real>, night: seq<bool>, step: nat)
    requires |alts| == |grid| && |night| == |grid|
    requires UniformGrid(grid, step)
    requires Extract(grid, alts, night).Ok? && Extract(grid, alts, night).value.Observable?
    ensures var w := Extract(grid, alts, night).value;
      var run := LongestRun(Mask(alts, night));
      && w.start <= w.end
      && w.end - w.start == (run.1 - run.0) * step
      && w.duration == (w.end - w.start) + step
      && w.duration == (run.1 - run.0 + 1) * step
  {
    var run := LongestRun(Mask(alts, night));
    assert RunFrom(Mask(alts, night), 0, run.0, run.1);
    UniformSpan(grid, step, run.0, run.1);
  }
}
