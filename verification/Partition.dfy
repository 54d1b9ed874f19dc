/** The check a loaded allocator index must pass: every block of the committed
    range belongs to exactly one reachable, free or retired range. */
module Partition {
  import opened ExtentRuns

  ghost predicate InBounds(r: Run, common: nat, highWater: nat) {
    common <= r.start && r.count > 0 && r.End() <= highWater
  }

  ghost predicate AllInBounds(runs: seq<Run>, common: nat, highWater: nat) {
    forall i :: 0 <= i < |runs| ==> InBounds(runs[i], common, highWater)
  }

  /** Every block of [common, highWater) is covered once, and nothing else is covered. */
  ghost predicate Partitions(runs: seq<Run>, common: nat, highWater: nat) {
    forall b :: Mult(runs, b) == One(common <= b < highWater)
  }

  lemma {:induction false} UncoveredBelow(runs: seq<Run>, b: int)
    requires forall i :: 0 <= i < |runs| ==> b < runs[i].start
    ensures Mult(runs, b) == 0
  {
    if runs != [] {
      UncoveredBelow(runs[..|runs| - 1], b);
    }
  }

  /** A sweep that meets a start other than its cursor has found a defect. */
  lemma {:induction false} SweepDefect(sorted: seq<Run>, n: nat, common: nat, highWater: nat, cursor: nat)
    requires n <= |sorted| && SortedByStart(sorted) && AllInBounds(sorted, common, highWater)
    requires common <= cursor <= highWater
    requires Partitions(sorted[..n], common, cursor)
    requires if n < |sorted| then sorted[n].start != cursor else cursor != highWater
    ensures !Partitions(sorted, common, highWater)
  {
    if n < |sorted| && sorted[n].start < cursor {
      var b := sorted[n].start;
      MultSplit(sorted, n, b);
      assert Mult(sorted, b) >= 2;
    } else {
      var rest := sorted[n..];
      forall i | 0 <= i < |rest| ensures cursor < rest[i].start {
        assert rest[i] == sorted[n + i];
      }
      UncoveredBelow(rest, cursor);
      assert sorted == sorted[..n] + rest;
      MultConcat(sorted[..n], rest, cursor);
      assert Mult(sorted, cursor) == 0;
    }
  }

  lemma {:induction false} SweepStep(sorted: seq<Run>, n: nat, common: nat, cursor: nat)
    requires n < |sorted| && common <= cursor == sorted[n].start
    requires Partitions(sorted[..n], common, cursor)
    ensures Partitions(sorted[..n + 1], common, cursor + sorted[n].count)
  {
    MultStep(sorted, n);
  }

  /** Collects the ranges, refusing the first one that is empty or out of bounds. */
  method CollectRanges(ranges: seq<Run>, common: nat, highWater: nat) returns (ok: bool)
    ensures ok == AllInBounds(ranges, common, highWater)
  {
    for n := 0 to |ranges|
      invariant AllInBounds(ranges[..n], common, highWater)
    {
      var r := ranges[n];
      if r.start < common || r.count == 0 || r.start > highWater || r.count > highWater - r.start {
        return false;
      }
    }
    assert ranges[..|ranges|] == ranges;
    ok := true;
  }

  /** Accepts if and only if all ranges are non-empty and in bounds and every
      block of the committed range lies in exactly one of them. */
  method ValidatePartition(common: nat, highWater: nat,
                           reachable: seq<Run>, free: seq<Run>, retired: seq<Run>)
    returns (accepted: bool)
    requires common <= highWater
    ensures accepted <==>
              && AllInBounds(reachable + free + retired, common, highWater)
              && Partitions(reachable + free + retired, common, highWater)
  {
    var ranges := reachable + free + retired;
    accepted := CollectRanges(ranges, common, highWater);
    if !accepted {
      return;
    }
    var sorted := SortByStart(ranges);
    BoundsOfPermutation(ranges, sorted, common, highWater);
    var cursor := common;
    for n := 0 to |sorted|
      invariant common <= cursor <= highWater
      invariant Partitions(sorted[..n], common, cursor)
    {
      assert InBounds(sorted[n], common, highWater);
      if sorted[n].start < cursor || sorted[n].start != cursor {
        SweepDefect(sorted, n, common, highWater, cursor);
        return false;
      }
      SweepStep(sorted, n, common, cursor);
      cursor := cursor + sorted[n].count;
    }
    assert sorted[..|sorted|] == sorted;
    if cursor != highWater {
      SweepDefect(sorted, |sorted|, common, highWater, cursor);
      return false;
    }
  }

  lemma {:induction false} BoundsOfPermutation(a: seq<Run>, c: seq<Run>, common: nat, highWater: nat)
    requires multiset(a) == multiset(c) && AllInBounds(a, common, highWater)
    ensures AllInBounds(c, common, highWater)
  {
    forall i | 0 <= i < |c| ensures InBounds(c[i], common, highWater) {
      assert c[i] in multiset(a);
      assert c[i] in a;
    }
  }

  /** In a partition the three block counters add up to the committed range. */
  lemma {:induction false} CountersAddUp(common: nat, highWater: nat,
                      reachable: seq<Run>, free: seq<Run>, retired: seq<Run>)
    requires common <= highWater
    requires Partitions(reachable + free + retired, common, highWater)
    ensures Blocks(reachable) + Blocks(free) + Blocks(retired) == highWater - common
  {
    BlocksConcat(reachable + free, retired);
    BlocksConcat(reachable, free);
    BlocksByCover(reachable + free + retired, common, highWater, 1);
  }
}
