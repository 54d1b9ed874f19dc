/** The free runs of a Blob staging allocator: ascending with gaps, possibly with
    empty runs left behind by allocations. */
module StagingRuns {
  import opened ExtentRuns
  import opened Retirement

  lemma {:induction false} GappedOnce(runs: seq<Run>, b: int)
    requires Gapped(runs)
    ensures Mult(runs, b) <= 1
  {
    if runs != [] {
      var n := |runs| - 1;
      GappedOnce(runs[..n], b);
      if runs[n].Has(b) {
        Uncovered(runs[..n], n, b);
      }
    }
  }

  /** The smallest run that covers both. */
  function Join(x: Run, y: Run): Run
    requires x.start <= y.start
  {
    Run(x.start, Max(x.End(), y.End()) - x.start, x.gen)
  }

  ghost predicate Covers(runs: seq<Run>, b: int) { Mult(runs, b) > 0 }

  lemma {:induction false} CoversParts(a: seq<Run>, r: Run, c: seq<Run>, b: int)
    ensures Covers(a + [r] + c, b) <==> Covers(a, b) || r.Has(b) || Covers(c, b)
  {
    MultConcat(a + [r], c, b);
    MultPush(a, r);
  }

  lemma {:induction false} CoversSplit(runs: seq<Run>, k: nat, b: int)
    requires k <= |runs|
    ensures Covers(runs, b) <==> Covers(runs[..k], b) || Covers(runs[k..], b)
  {
    assert runs == runs[..k] + runs[k..];
    MultConcat(runs[..k], runs[k..], b);
  }

  /** A merge in progress: `cur` ends the finished part and `runs[k..]` is still to come. */
  ghost predicate Merging(head: seq<Run>, cur: Run, runs: seq<Run>, k: nat) {
    && |head| <= k <= |runs|
    && Gapped(head + [cur]) && Gapped(runs)
    && forall i :: k <= i < |runs| ==> cur.start <= runs[i].start
  }

  lemma {:induction false} JoinNext(head: seq<Run>, cur: Run, runs: seq<Run>, k: nat, b: int)
    requires Merging(head, cur, runs, k) && k < |runs| && cur.End() >= runs[k].start
    ensures Merging(head, Join(cur, runs[k]), runs, k + 1)
    ensures Covers(head + [Join(cur, runs[k])] + runs[k + 1..], b) <==> Covers(head + [cur] + runs[k..], b)
  {
    var joined := Join(cur, runs[k]);
    CoversParts(head, joined, runs[k + 1..], b);
    CoversParts(head, cur, runs[k..], b);
    assert runs[k..] == [] + [runs[k]] + runs[k + 1..];
    CoversParts([], runs[k], runs[k + 1..], b);
    assert (head + [joined])[..|head|] == (head + [cur])[..|head|];
    forall i, j | 0 <= i < j < |head| + 1
      ensures (head + [joined])[i].End() < (head + [joined])[j].start
    {
      assert (head + [cur])[i].End() < (head + [cur])[j].start;
    }
  }

  /** Absorb every following run that the current one reaches. */
  method AbsorbFollowing(head: seq<Run>, first: Run, runs: seq<Run>, from: nat) returns (out: seq<Run>)
    requires Merging(head, first, runs, from)
    ensures Gapped(out) && |out| <= |head| + 1 + |runs| - from
    ensures forall b :: Covers(out, b) <==> Covers(head + [first] + runs[from..], b)
    ensures Positive(head) && Positive(runs) && first.count > 0 ==> Positive(out)
  {
    var cur, k := first, from;
    while k != |runs| && cur.End() >= runs[k].start
      invariant from <= k <= |runs| && Merging(head, cur, runs, k)
      invariant first.count > 0 ==> cur.count > 0
      invariant forall b :: Covers(head + [cur] + runs[k..], b) <==> Covers(head + [first] + runs[from..], b)
      decreases |runs| - k
    {
      forall b: int
        ensures Covers(head + [Join(cur, runs[k])] + runs[k + 1..], b) <==> Covers(head + [cur] + runs[k..], b)
      {
        JoinNext(head, cur, runs, k, b);
      }
      JoinNext(head, cur, runs, k, 0);
      cur, k := Join(cur, runs[k]), k + 1;
    }
    out := head + [cur] + runs[k..];
    FinishMerge(head, cur, runs, k);
  }

  lemma {:induction false} FinishMerge(head: seq<Run>, cur: Run, runs: seq<Run>, k: nat)
    requires Merging(head, cur, runs, k) && (k < |runs| ==> cur.End() < runs[k].start)
    ensures Gapped(head + [cur] + runs[k..])
  {
    var out := head + [cur] + runs[k..];
    forall i, j | 0 <= i < j < |out| ensures out[i].End() < out[j].start {
      if j <= |head| {
        assert out[i] == (head + [cur])[i] && out[j] == (head + [cur])[j];
      } else {
        var q := j - |head| - 1 + k;
        assert out[j] == runs[q] && (k < q ==> runs[k].End() < runs[q].start);
        if i > |head| {
          assert out[i] == runs[i - |head| - 1 + k];
        } else if i < |head| {
          assert out[i] == (head + [cur])[i];
          assert (head + [cur])[i].End() < (head + [cur])[|head|].start;
        }
      }
    }
  }

  /** First run that does not start before `start`. */
  method LowerBound(runs: seq<Run>, start: nat) returns (p: nat)
    requires Gapped(runs)
    ensures p <= |runs|
    ensures forall i :: 0 <= i < p ==> runs[i].start < start
    ensures forall i :: p <= i < |runs| ==> start <= runs[i].start
  {
    p := 0;
    while p < |runs| && runs[p].start < start
      invariant p <= |runs|
      invariant forall i :: 0 <= i < p ==> runs[i].start < start
    {
      p := p + 1;
    }
    assert p < |runs| ==> forall i :: p < i < |runs| ==> runs[p].End() < runs[i].start;
  }

  /** Give a run back: it joins whatever it touches, the list stays gapped and grows
      by at most one run. */
  method InsertFreeRun(runs: seq<Run>, r: Run) returns (out: seq<Run>)
    requires Gapped(runs)
    ensures Gapped(out) && |out| <= |runs| + 1
    ensures forall b :: Covers(out, b) <==> Covers(runs, b) || r.Has(b)
    ensures Positive(runs) && r.count > 0 ==> Positive(out)
  {
    var p := LowerBound(runs, r.start);
    if p != 0 && runs[p - 1].End() >= r.start {
      var head, cur := runs[..p - 1], Join(runs[p - 1], r);
      assert head + [runs[p - 1]] == runs[..p];
      out := AbsorbFollowing(head, cur, runs, p);
      forall b ensures Covers(head + [cur] + runs[p..], b) <==> Covers(runs, b) || r.Has(b) {
        CoversParts(head, cur, runs[p..], b);
        CoversSplit(runs, p, b);
        MultPush(head, runs[p - 1]);
      }
    } else {
      var head := runs[..p];
      assert forall i, j :: 0 <= i < j < p ==> runs[i].End() < runs[j].start;
      assert p != 0 ==> forall i :: 0 <= i < p - 1 ==> runs[i].End() < runs[p - 1].start;
      out := AbsorbFollowing(head, r, runs, p);
      forall b ensures Covers(head + [r] + runs[p..], b) <==> Covers(runs, b) || r.Has(b) {
        CoversParts(head, r, runs[p..], b);
        CoversSplit(runs, p, b);
      }
    }
  }
}
