/** Lists of block runs, as the allocator keeps them: free runs, retired runs
    and the blocks of extent references.  A list is judged by how often it
    covers each block, so overlaps and losses are both visible. */
module ExtentRuns {

  /** A run of blocks; `gen` is its retirement generation, 0 when it has none. */
  datatype Run = Run(start: nat, count: nat, gen: nat) {
    function End(): nat { start + count }
    predicate Has(b: int) { start <= b < start + count }
  }

  function One(p: bool): nat { if p then 1 else 0 }

  /** The number of runs in the list that cover block `b`. */
  function Mult(runs: seq<Run>, b: int): nat {
    if runs == [] then 0
    else Mult(runs[..|runs| - 1], b) + One(runs[|runs| - 1].Has(b))
  }

  /** Total number of blocks in the list, with repetitions. */
  function Blocks(runs: seq<Run>): nat {
    if runs == [] then 0 else Blocks(runs[..|runs| - 1]) + runs[|runs| - 1].count
  }

  ghost predicate SameCover(a: seq<Run>, c: seq<Run>) {
    forall b :: Mult(a, b) == Mult(c, b)
  }

  ghost predicate Disjoint(runs: seq<Run>) {
    forall b :: Mult(runs, b) <= 1
  }

  ghost predicate Positive(runs: seq<Run>) {
    forall i :: 0 <= i < |runs| ==> runs[i].count > 0
  }

  ghost predicate AllGen(runs: seq<Run>, g: nat) {
    forall i :: 0 <= i < |runs| ==> runs[i].gen == g
  }

  lemma {:induction false} AllGenPermutation(a: seq<Run>, c: seq<Run>)
    requires multiset(a) == multiset(c)
    ensures forall g :: AllGen(a, g) ==> AllGen(c, g)
  {
    forall i | 0 <= i < |c| ensures c[i] in a {
      assert c[i] in multiset(a);
    }
  }

  ghost predicate SortedByStart(runs: seq<Run>) {
    forall i, j :: 0 <= i < j < |runs| ==> runs[i].start <= runs[j].start
  }

  /** Ascending, non-empty, and with a gap between neighbours. */
  ghost predicate Separated(runs: seq<Run>) {
    && Positive(runs)
    && forall i, j :: 0 <= i < j < |runs| ==> runs[i].End() < runs[j].start
  }

  // ---------------------------------------------------------------- multiplicity

  lemma {:induction false} MultConcat(a: seq<Run>, c: seq<Run>, b: int)
    ensures Mult(a + c, b) == Mult(a, b) + Mult(c, b)
  {
    if c == [] {
      assert a + c == a;
    } else {
      var n := |c| - 1;
      assert (a + c)[..|a + c| - 1] == a + c[..n];
      MultConcat(a, c[..n], b);
    }
  }

  lemma {:induction false} MultPush(runs: seq<Run>, r: Run)
    ensures forall b :: Mult(runs + [r], b) == Mult(runs, b) + One(r.Has(b))
  {
    assert (runs + [r])[..|runs|] == runs;
  }

  lemma {:induction false} MultStep(runs: seq<Run>, i: nat)
    requires i < |runs|
    ensures forall b :: Mult(runs[..i + 1], b) == Mult(runs[..i], b) + One(runs[i].Has(b))
  {
    assert runs[..i + 1][..i] == runs[..i];
  }

  lemma {:induction false} MultSplit(runs: seq<Run>, i: nat, b: int)
    requires i < |runs|
    ensures Mult(runs, b) == Mult(runs[..i], b) + One(runs[i].Has(b)) + Mult(runs[i + 1..], b)
  {
    assert runs == runs[..i + 1] + runs[i + 1..];
    MultConcat(runs[..i + 1], runs[i + 1..], b);
    MultStep(runs, i);
  }

  lemma {:induction false} MultUpdate(runs: seq<Run>, i: nat, r: Run)
    requires i < |runs|
    ensures forall b :: Mult(runs[i := r], b) + One(runs[i].Has(b)) == Mult(runs, b) + One(r.Has(b))
  {
    forall b: int
      ensures Mult(runs[i := r], b) + One(runs[i].Has(b)) == Mult(runs, b) + One(r.Has(b))
    {
      MultSplit(runs, i, b);
      MultSplit(runs[i := r], i, b);
      assert runs[i := r][..i] == runs[..i];
      assert runs[i := r][i + 1..] == runs[i + 1..];
    }
  }

  lemma {:induction false} MultOfMember(runs: seq<Run>, i: nat, b: int)
    requires i < |runs| && runs[i].Has(b)
    ensures Mult(runs, b) >= 1
  {
    MultSplit(runs, i, b);
  }

  lemma {:induction false} MultOfTwo(runs: seq<Run>, i: nat, j: nat, b: int)
    requires i < j < |runs| && runs[i].Has(b) && runs[j].Has(b)
    ensures Mult(runs, b) >= 2
  {
    MultSplit(runs, j, b);
    MultOfMember(runs[..j], i, b);
  }

  lemma {:induction false} MultWitness(runs: seq<Run>, b: int) returns (i: nat)
    requires Mult(runs, b) >= 1
    ensures i < |runs| && runs[i].Has(b)
  {
    var n := |runs| - 1;
    if runs[n].Has(b) {
      i := n;
    } else {
      i := MultWitness(runs[..n], b);
    }
  }

  /** Coverage does not depend on the order of the list. */
  lemma {:induction false} RemovedOne(c: seq<Run>, k: nat)
    requires k < |c|
    ensures multiset(c[..k] + c[k + 1..]) == multiset(c) - multiset{c[k]}
  {
    assert c == c[..k] + [c[k]] + c[k + 1..];
  }

  lemma {:induction false} MultPermutation(a: seq<Run>, c: seq<Run>, b: int)
    requires multiset(a) == multiset(c)
    ensures Mult(a, b) == Mult(c, b)
    decreases |a|
  {
    if a != [] {
      var n := |a| - 1;
      assert a[n] in multiset(c);
      var k :| 0 <= k < |c| && c[k] == a[n];
      RemovedOne(a, n);
      RemovedOne(c, k);
      assert a[..n] + a[n + 1..] == a[..n];
      MultPermutation(a[..n], c[..k] + c[k + 1..], b);
      MultSplit(c, k, b);
      MultConcat(c[..k], c[k + 1..], b);
    } else {
      assert |multiset(c)| == 0;
    }
  }

  lemma {:induction false} BlocksConcat(a: seq<Run>, c: seq<Run>)
    ensures Blocks(a + c) == Blocks(a) + Blocks(c)
  {
    if c == [] {
      assert a + c == a;
    } else {
      var n := |c| - 1;
      assert (a + c)[..|a + c| - 1] == a + c[..n];
      BlocksConcat(a, c[..n]);
    }
  }

  /** A sum of run lengths counts, block by block, how often each is covered. */
  lemma {:induction false} BlocksByCover(runs: seq<Run>, lo: nat, hi: nat, k: nat)
    requires lo <= hi
    requires forall b :: lo <= b < hi ==> Mult(runs, b) == k
    requires forall b :: b < lo || b >= hi ==> Mult(runs, b) == 0
    ensures Blocks(runs) == k * (hi - lo)
  {
    BlocksIsCoverSum(runs, UpperEnd(runs));
    CoverSumFlat(runs, lo, hi, k, if UpperEnd(runs) > hi then UpperEnd(runs) else hi);
    BlocksIsCoverSum(runs, if UpperEnd(runs) > hi then UpperEnd(runs) else hi);
  }

  function UpperEnd(runs: seq<Run>): (e: nat)
    ensures forall i :: 0 <= i < |runs| ==> runs[i].End() <= e
  {
    if runs == [] then 0
    else
      var n := |runs| - 1;
      var rest := UpperEnd(runs[..n]);
      assert forall i :: 0 <= i < n ==> runs[..n][i] == runs[i];
      if rest > runs[n].End() then rest else runs[n].End()
  }

  function CoverSum(runs: seq<Run>, hi: nat): nat {
    if hi == 0 then 0 else CoverSum(runs, hi - 1) + Mult(runs, hi - 1)
  }

  lemma {:induction false} CoverSumPush(runs: seq<Run>, r: Run, hi: nat)
    ensures CoverSum(runs + [r], hi) == CoverSum(runs, hi) + CoverSum([r], hi)
  {
    if hi > 0 {
      CoverSumPush(runs, r, hi - 1);
      MultConcat(runs, [r], hi - 1);
    }
  }

  lemma {:induction false} CoverSumOne(r: Run, hi: nat)
    ensures CoverSum([r], hi) == if hi <= r.start then 0 else if hi < r.End() then hi - r.start else r.count
  {
    if hi > 0 {
      CoverSumOne(r, hi - 1);
      assert Mult([r], hi - 1) == One(r.Has(hi - 1)) by { MultPush([], r); assert [] + [r] == [r]; }
    }
  }

  lemma {:induction false} BlocksIsCoverSum(runs: seq<Run>, hi: nat)
    requires forall i :: 0 <= i < |runs| ==> runs[i].End() <= hi
    ensures Blocks(runs) == CoverSum(runs, hi)
  {
    if runs == [] {
      CoverSumFlat(runs, 0, 0, 0, hi);
    } else {
      var n := |runs| - 1;
      assert runs == runs[..n] + [runs[n]];
      BlocksIsCoverSum(runs[..n], hi);
      CoverSumPush(runs[..n], runs[n], hi);
      CoverSumOne(runs[n], hi);
    }
  }

  lemma {:induction false} CoverSumFlat(runs: seq<Run>, lo: nat, hi: nat, k: nat, m: nat)
    requires lo <= hi
    requires forall b :: lo <= b < hi ==> Mult(runs, b) == k
    requires forall b :: b < lo || b >= hi ==> Mult(runs, b) == 0
    ensures CoverSum(runs, m) == k * (if m <= lo then 0 else if m < hi then m - lo else hi - lo)
  {
    if m > 0 {
      CoverSumFlat(runs, lo, hi, k, m - 1);
      if lo < m <= hi {
        assert k * (m - lo) == k * (m - 1 - lo) + k;
      }
    }
  }

  /** A separated list that covers one interval is one run. */
  lemma {:induction false} CoverIsOneRun(runs: seq<Run>, lo: nat, hi: nat)
    requires lo < hi && Separated(runs)
    requires forall b :: Mult(runs, b) == One(lo <= b < hi)
    ensures |runs| == 1 && runs[0].start == lo && runs[0].End() == hi
  {
    var k := MultWitness(runs, lo);
    forall i | 0 <= i < |runs| ensures runs[i].start == lo && runs[i].End() == hi {
      MultOfMember(runs, i, runs[i].start);
      MultOfMember(runs, i, runs[i].End() - 1);
      if runs[i].start > lo {
        var j := MultWitness(runs, runs[i].start - 1);
      }
      if runs[i].End() < hi {
        var j := MultWitness(runs, runs[i].End());
      }
    }
  }

  // ---------------------------------------------------------------- sorting

  /** The two sort orders in use: by start, or by retirement generation and then start. */
  predicate RunLe(byGen: bool, x: Run, y: Run) {
    if byGen && x.gen != y.gen then x.gen < y.gen else x.start <= y.start
  }

  ghost predicate SortedRuns(byGen: bool, runs: seq<Run>) {
    forall i, j :: 0 <= i < j < |runs| ==> RunLe(byGen, runs[i], runs[j])
  }

  lemma {:induction false} InsertKeepsOrder(byGen: bool, sorted: seq<Run>, r: Run, k: nat)
    requires SortedRuns(byGen, sorted) && k <= |sorted|
    requires k > 0 ==> RunLe(byGen, sorted[k - 1], r)
    requires forall j :: k <= j < |sorted| ==> RunLe(byGen, r, sorted[j])
    ensures SortedRuns(byGen, sorted[..k] + [r] + sorted[k..])
  {
    var out := sorted[..k] + [r] + sorted[k..];
    forall i, j | 0 <= i < j < |out|
      ensures RunLe(byGen, out[i], out[j])
    {
      var x := if i < k then sorted[i] else if i == k then r else sorted[i - 1];
      var y := if j < k then sorted[j] else if j == k then r else sorted[j - 1];
      assert out[i] == x && out[j] == y;
    }
  }

  lemma {:induction false} InsertMultiset(sorted: seq<Run>, r: Run, k: nat)
    requires k <= |sorted|
    ensures multiset(sorted[..k] + [r] + sorted[k..]) == multiset(sorted) + multiset{r}
  {
    assert sorted == sorted[..k] + sorted[k..];
  }

  method InsertSorted(byGen: bool, sorted: seq<Run>, r: Run) returns (out: seq<Run>)
    requires SortedRuns(byGen, sorted)
    ensures multiset(out) == multiset(sorted) + multiset{r}
    ensures SortedRuns(byGen, out)
  {
    var k := |sorted|;
    while k > 0 && !RunLe(byGen, sorted[k - 1], r)
      invariant 0 <= k <= |sorted|
      invariant forall j :: k <= j < |sorted| ==> RunLe(byGen, r, sorted[j])
    {
      k := k - 1;
    }
    InsertKeepsOrder(byGen, sorted, r, k);
    InsertMultiset(sorted, r, k);
    out := sorted[..k] + [r] + sorted[k..];
  }

  /** Library sort: some ordered permutation, nothing promised about ties. */
  method SortRuns(byGen: bool, runs: seq<Run>) returns (sorted: seq<Run>)
    ensures multiset(sorted) == multiset(runs)
    ensures SortedRuns(byGen, sorted)
  {
    sorted := [];
    for n := 0 to |runs|
      invariant multiset(sorted) == multiset(runs[..n])
      invariant SortedRuns(byGen, sorted)
    {
      assert runs[..n + 1] == runs[..n] + [runs[n]];
      sorted := InsertSorted(byGen, sorted, runs[n]);
    }
    assert runs[..|runs|] == runs;
  }

  method SortByStart(runs: seq<Run>) returns (sorted: seq<Run>)
    ensures multiset(sorted) == multiset(runs)
    ensures SortedByStart(sorted)
    ensures SameCover(sorted, runs)
  {
    sorted := SortRuns(false, runs);
    forall b: int ensures Mult(sorted, b) == Mult(runs, b) {
      MultPermutation(sorted, runs, b);
    }
  }

  // ---------------------------------------------------------------- run operations

  /** Append a run to an ascending list, merging it when it touches the last one. */
  function PushMerged(out: seq<Run>, r: Run): seq<Run> {
    if out != [] && out[|out| - 1].End() == r.start then
      out[|out| - 1 := out[|out| - 1].(count := out[|out| - 1].count + r.count)]
    else out + [r]
  }

  lemma {:induction false} PushMergedCover(out: seq<Run>, r: Run)
    ensures forall b :: Mult(PushMerged(out, r), b) == Mult(out, b) + One(r.Has(b))
  {
    if out != [] && out[|out| - 1].End() == r.start {
      var last := out[|out| - 1];
      MultUpdate(out, |out| - 1, last.(count := last.count + r.count));
    } else {
      MultPush(out, r);
    }
  }

  /** Merge the touching neighbours of an ascending list, leaving empty runs out. */
  function MergeAll(sorted: seq<Run>): seq<Run> {
    if sorted == [] then []
    else
      var n := |sorted| - 1;
      if sorted[n].count != 0 then PushMerged(MergeAll(sorted[..n]), sorted[n]) else MergeAll(sorted[..n])
  }

  /** Some ascending order of the runs, merged.  Runs that start alike may be in either order. */
  ghost predicate CoalescesTo(runs: seq<Run>, out: seq<Run>) {
    exists sorted :: multiset(sorted) == multiset(runs) && SortedByStart(sorted) && out == MergeAll(sorted)
  }

  ghost predicate StrictByStart(runs: seq<Run>) {
    forall i, j :: 0 <= i < j < |runs| ==> runs[i].start < runs[j].start
  }

  lemma {:induction false} Member(a: seq<Run>, c: seq<Run>, i: nat) returns (k: nat)
    requires multiset(a) == multiset(c) && i < |a|
    ensures k < |c| && c[k] == a[i]
  {
    assert a[i] in multiset(c);
    k :| k < |c| && c[k] == a[i];
  }

  lemma {:induction false} SameLast(a: seq<Run>, c: seq<Run>)
    requires multiset(a) == multiset(c) && SortedByStart(a) && StrictByStart(c) && a != []
    ensures c != [] && a[|a| - 1] == c[|c| - 1]
  {
    var k := Member(a, c, |a| - 1);
    var m := Member(c, a, |c| - 1);
    assert k == |c| - 1 || c[k].start < c[|c| - 1].start;
    assert m == |a| - 1 || a[m].start <= a[|a| - 1].start;
  }

  lemma {:induction false} WithoutLast(a: seq<Run>)
    requires a != []
    ensures multiset(a[..|a| - 1]) == multiset(a) - multiset{a[|a| - 1]}
  {
    assert a == a[..|a| - 1] + [a[|a| - 1]];
  }

  lemma {:induction false} SameLength(a: seq<Run>, c: seq<Run>)
    requires multiset(a) == multiset(c)
    ensures |a| == |c|
  {
    assert |a| == |multiset(a)| && |c| == |multiset(c)|;
  }

  lemma {:induction false} SortUnique(a: seq<Run>, c: seq<Run>)
    requires multiset(a) == multiset(c) && SortedByStart(a) && StrictByStart(c)
    ensures a == c
    decreases |a|
  {
    SameLength(a, c);
    if a != [] {
      SameLast(a, c);
      WithoutLast(a);
      WithoutLast(c);
      var n := |a| - 1;
      SortUnique(a[..n], c[..n]);
      assert a == a[..n] + [a[n]];
      assert c == c[..n] + [c[n]];
    }
  }

  lemma {:induction false} MergeAllCover(sorted: seq<Run>)
    ensures SameCover(MergeAll(sorted), sorted)
    ensures forall g :: AllGen(sorted, g) ==> AllGen(MergeAll(sorted), g)
  {
    if sorted != [] {
      var n := |sorted| - 1;
      MergeAllCover(sorted[..n]);
      PushMergedCover(MergeAll(sorted[..n]), sorted[n]);
      assert SameCover(MergeAll(sorted[..n]), sorted[..n]);
      forall g | AllGen(sorted, g) ensures AllGen(MergeAll(sorted), g) {
        assert AllGen(sorted[..n], g);
      }
    }
  }

  lemma {:induction false} CoalescesCover(runs: seq<Run>, out: seq<Run>)
    requires CoalescesTo(runs, out)
    ensures SameCover(out, runs)
    ensures AllGen(runs, 0) ==> AllGen(out, 0)
  {
    var order :| multiset(order) == multiset(runs) && SortedByStart(order) && out == MergeAll(order);
    MergeAllCover(order);
    AllGenPermutation(runs, order);
    forall b ensures Mult(out, b) == Mult(runs, b) {
      MultPermutation(order, runs, b);
    }
  }

  /** With distinct starts there is one order, and so one result. */
  lemma {:induction false} CoalescesOnce(runs: seq<Run>, sorted: seq<Run>, out: seq<Run>)
    requires CoalescesTo(runs, out) && multiset(sorted) == multiset(runs) && StrictByStart(sorted)
    ensures out == MergeAll(sorted)
  {
    var order :| multiset(order) == multiset(runs) && SortedByStart(order) && out == MergeAll(order);
    SortUnique(order, sorted);
  }

  /** Shape kept while merging the first `n` runs of an ascending list. */
  ghost predicate MergedShape(sorted: seq<Run>, out: seq<Run>, n: nat) {
    && Positive(out)
    && SortedByStart(out)
    && (n < |sorted| ==> forall i :: 0 <= i < |out| ==> out[i].start <= sorted[n].start)
  }

  lemma {:induction false} PushMergedShape(sorted: seq<Run>, out: seq<Run>, n: nat)
    requires n < |sorted| && SortedByStart(sorted) && sorted[n].count > 0
    requires MergedShape(sorted, out, n)
    ensures MergedShape(sorted, PushMerged(out, sorted[n]), n + 1)
    ensures Separated(out) && (out != [] ==> out[|out| - 1].End() <= sorted[n].start)
            ==> Separated(PushMerged(out, sorted[n]))
  {
  }

  lemma {:induction false} LastBelow(sorted: seq<Run>, out: seq<Run>, n: nat)
    requires n < |sorted| && sorted[n].count > 0 && out != []
    requires Mult(out, sorted[n].start) == Mult(sorted[..n], sorted[n].start)
    requires out[|out| - 1].start <= sorted[n].start
    requires Disjoint(sorted)
    ensures out[|out| - 1].End() <= sorted[n].start
  {
    MultSplit(sorted, n, sorted[n].start);
  }

  lemma {:induction false} CoalesceStep(sorted: seq<Run>, out: seq<Run>, n: nat)
    requires n < |sorted| && SortedByStart(sorted) && sorted[n].count > 0
    requires MergedShape(sorted, out, n) && SameCover(out, sorted[..n])
    requires Disjoint(sorted) ==> Separated(out)
    ensures MergedShape(sorted, PushMerged(out, sorted[n]), n + 1)
    ensures SameCover(PushMerged(out, sorted[n]), sorted[..n + 1])
    ensures Disjoint(sorted) ==> Separated(PushMerged(out, sorted[n]))
  {
    MultStep(sorted, n);
    PushMergedCover(out, sorted[n]);
    PushMergedShape(sorted, out, n);
    if Disjoint(sorted) && out != [] {
      LastBelow(sorted, out, n);
    }
  }

  /** Sort by start, drop empty runs and merge touching ones.  Every block keeps
      its multiplicity, and disjoint input comes out separated. */
  method Coalesce(runs: seq<Run>) returns (out: seq<Run>)
    ensures SameCover(out, runs)
    ensures Positive(out) && SortedByStart(out)
    ensures Disjoint(runs) ==> Separated(out)
    ensures forall g :: AllGen(runs, g) ==> AllGen(out, g)
    ensures CoalescesTo(runs, out)
  {
    var sorted := SortByStart(runs);
    AllGenPermutation(runs, sorted);
    out := [];
    for n := 0 to |sorted|
      invariant SameCover(out, sorted[..n])
      invariant MergedShape(sorted, out, n)
      invariant Disjoint(sorted) ==> Separated(out)
      invariant forall g :: AllGen(sorted, g) ==> AllGen(out, g)
      invariant out == MergeAll(sorted[..n])
    {
      assert sorted[..n + 1][..n] == sorted[..n];
      if sorted[n].count != 0 {
        CoalesceStep(sorted, out, n);
        out := PushMerged(out, sorted[n]);
      } else {
        MultStep(sorted, n);
      }
    }
    assert sorted[..|sorted|] == sorted;
  }

  /** What is left of one run beside a block range. */
  function CutRun(r: Run, start: nat, end: nat): seq<Run>
    requires start <= end
  {
    if end <= r.start || start >= r.End() then [r]
    else
      (if start > r.start then [Run(r.start, start - r.start, 0)] else [])
      + if end < r.End() then [Run(end, r.End() - end, 0)] else []
  }

  lemma {:induction false} CutRunCover(r: Run, start: nat, end: nat, b: int)
    requires start <= end
    ensures Mult(CutRun(r, start, end), b) == One(r.Has(b) && !(start <= b < end))
  {
    var front := if start > r.start then [Run(r.start, start - r.start, 0)] else [];
    var back := if end < r.End() then [Run(end, r.End() - end, 0)] else [];
    MultConcat(front, back, b);
  }

  /** The list without the blocks of a range. */
  function WithoutRange(runs: seq<Run>, start: nat, count: nat): seq<Run> {
    if runs == [] then []
    else
      var n := |runs| - 1;
      WithoutRange(runs[..n], start, count) + CutRun(runs[n], start, start + count)
  }

  lemma {:induction false} WithoutRangeCover(runs: seq<Run>, start: nat, count: nat, b: int)
    ensures Mult(WithoutRange(runs, start, count), b) == if start <= b < start + count then 0 else Mult(runs, b)
  {
    if runs != [] {
      var n := |runs| - 1;
      WithoutRangeCover(runs[..n], start, count, b);
      CutRunCover(runs[n], start, start + count, b);
      MultConcat(WithoutRange(runs[..n], start, count), CutRun(runs[n], start, start + count), b);
    }
  }

  method PushCut(kept: seq<Run>, r: Run, start: nat, end: nat) returns (out: seq<Run>)
    requires start <= end
    ensures out == kept + CutRun(r, start, end)
  {
    if end <= r.start || start >= r.End() {
      return kept + [r];
    }
    out := kept;
    if start > r.start {
      out := out + [Run(r.start, start - r.start, 0)];
    }
    if end < r.End() {
      out := out + [Run(end, r.End() - end, 0)];
    }
  }

  /** Remove a block range from every run of the list. */
  method RemoveRange(runs: seq<Run>, start: nat, count: nat) returns (out: seq<Run>)
    ensures out == WithoutRange(runs, start, count)
    ensures forall b :: Mult(out, b) == if start <= b < start + count then 0 else Mult(runs, b)
  {
    out := [];
    var end := start + count;
    for n := 0 to |runs|
      invariant out == WithoutRange(runs[..n], start, count)
    {
      assert runs[..n + 1][..n] == runs[..n];
      out := PushCut(out, runs[n], start, end);
    }
    assert runs[..|runs|] == runs;
    forall b ensures Mult(out, b) == if start <= b < start + count then 0 else Mult(runs, b) {
      WithoutRangeCover(runs, start, count, b);
    }
  }

  /** The list without the blocks of several runs, taken out one after the other. */
  function Without(runs: seq<Run>, removed: seq<Run>): seq<Run> {
    if removed == [] then runs
    else
      var n := |removed| - 1;
      WithoutRange(Without(runs, removed[..n]), removed[n].start, removed[n].count)
  }

  lemma {:induction false} WithoutCover(runs: seq<Run>, removed: seq<Run>, b: int)
    ensures Mult(Without(runs, removed), b) == if Mult(removed, b) > 0 then 0 else Mult(runs, b)
  {
    if removed != [] {
      var n := |removed| - 1;
      WithoutCover(runs, removed[..n], b);
      WithoutRangeCover(Without(runs, removed[..n]), removed[n].start, removed[n].count, b);
    }
  }

  method RemoveAll(runs: seq<Run>, removed: seq<Run>) returns (out: seq<Run>)
    ensures out == Without(runs, removed)
    ensures forall b :: Mult(out, b) == if Mult(removed, b) > 0 then 0 else Mult(runs, b)
  {
    out := runs;
    for n := 0 to |removed|
      invariant out == Without(runs, removed[..n])
    {
      assert removed[..n + 1][..n] == removed[..n];
      out := RemoveRange(out, removed[n].start, removed[n].count);
    }
    assert removed[..|removed|] == removed;
    forall b ensures Mult(out, b) == if Mult(removed, b) > 0 then 0 else Mult(runs, b) {
      WithoutCover(runs, removed, b);
    }
  }

  lemma {:induction false} WithoutRangeGen(runs: seq<Run>, start: nat, count: nat)
    requires AllGen(runs, 0)
    ensures AllGen(WithoutRange(runs, start, count), 0)
  {
    if runs != [] {
      assert forall i :: 0 <= i < |runs| - 1 ==> runs[..|runs| - 1][i] == runs[i];
      WithoutRangeGen(runs[..|runs| - 1], start, count);
    }
  }

  lemma {:induction false} WithoutGen(runs: seq<Run>, removed: seq<Run>)
    requires AllGen(runs, 0)
    ensures AllGen(Without(runs, removed), 0)
  {
    if removed != [] {
      var n := |removed| - 1;
      WithoutGen(runs, removed[..n]);
      WithoutRangeGen(Without(runs, removed[..n]), removed[n].start, removed[n].count);
    }
  }

  /** The first run that is long enough. */
  ghost predicate FirstFit(free: seq<Run>, i: nat, count: nat) {
    && i < |free|
    && free[i].count >= count
    && forall j :: 0 <= j < i ==> free[j].count < count
  }

  /** Its index, or the length of the list if no run is. */
  function FitIndex(free: seq<Run>, count: nat): (i: nat)
    ensures i <= |free| && (i < |free| ==> FirstFit(free, i, count))
    ensures i == |free| ==> forall j :: 0 <= j < |free| ==> free[j].count < count
  {
    if free == [] then 0
    else
      var n := |free| - 1;
      var i := FitIndex(free[..n], count);
      assert forall j :: 0 <= j < n ==> free[..n][j] == free[j];
      if i < n || free[n].count >= count then i else i + 1
  }

  lemma {:induction false} FitIndexIs(free: seq<Run>, count: nat, i: nat)
    requires FirstFit(free, i, count)
    ensures FitIndex(free, count) == i
  {
  }

  /** Where first fit allocates, from the end of the file if no run is long enough. */
  function FitStart(free: seq<Run>, next: nat, count: nat): nat {
    var i := FitIndex(free, count);
    if i < |free| then free[i].start else next
  }

  function FitRest(free: seq<Run>, count: nat): seq<Run> {
    var i := FitIndex(free, count);
    if i < |free| then free[i := Run(free[i].start + count, free[i].count - count, free[i].gen)] else free
  }

  function FitNext(free: seq<Run>, next: nat, count: nat): nat {
    if FitIndex(free, count) < |free| then next else next + count
  }

  /** The free list together with the unbounded tail loses exactly the allocated blocks. */
  lemma {:induction false} FitCover(free: seq<Run>, next: nat, count: nat)
    ensures forall b :: Mult(free, b) + One(b >= next)
                     == Mult(FitRest(free, count), b) + One(b >= FitNext(free, next, count))
                        + One(FitStart(free, next, count) <= b < FitStart(free, next, count) + count)
  {
    var i := FitIndex(free, count);
    if i < |free| {
      MultUpdate(free, i, Run(free[i].start + count, free[i].count - count, free[i].gen));
    }
  }

  /** First fit from the free list, else from the end of the file. */
  method AllocateBlocks(free: seq<Run>, next: nat, count: nat)
    returns (at: nat, free': seq<Run>, next': nat)
    ensures at == FitStart(free, next, count) && free' == FitRest(free, count) && next' == FitNext(free, next, count)
    ensures forall b :: Mult(free, b) + One(b >= next)
                     == Mult(free', b) + One(b >= next') + One(at <= b < at + count)
    ensures AllGen(free, 0) ==> AllGen(free', 0)
  {
    FitCover(free, next, count);
    for i := 0 to |free|
      invariant forall j :: 0 <= j < i ==> free[j].count < count
    {
      if free[i].count >= count {
        FitIndexIs(free, count, i);
        at := free[i].start;
        free' := free[i := Run(at + count, free[i].count - count, free[i].gen)];
        next' := next;
        return;
      }
    }
    at, free', next' := next, free, next + count;
  }

  function NonEmpty(runs: seq<Run>): (out: seq<Run>)
    ensures Positive(out)
    ensures forall i :: 0 <= i < |out| ==> out[i] in runs
  {
    if runs == [] then []
    else
      var n := |runs| - 1;
      NonEmpty(runs[..n]) + if runs[n].count != 0 then [runs[n]] else []
  }

  lemma {:induction false} NonEmptyCover(runs: seq<Run>)
    ensures SameCover(NonEmpty(runs), runs)
  {
    if runs != [] {
      var n := |runs| - 1;
      NonEmptyCover(runs[..n]);
      MultPush(NonEmpty(runs[..n]), runs[n]);
      assert SameCover(runs[..n], NonEmpty(runs[..n]));
      assert NonEmpty(runs) == if runs[n].count != 0 then NonEmpty(runs[..n]) + [runs[n]] else NonEmpty(runs[..n]);
    }
  }

  /** Drop the empty runs an allocation leaves behind. */
  method EraseEmpty(runs: seq<Run>) returns (out: seq<Run>)
    ensures out == NonEmpty(runs) && SameCover(out, runs)
  {
    out := [];
    for n := 0 to |runs|
      invariant out == NonEmpty(runs[..n])
    {
      assert runs[..n + 1][..n] == runs[..n];
      if runs[n].count != 0 {
        out := out + [runs[n]];
      }
    }
    assert runs[..|runs|] == runs;
    NonEmptyCover(runs);
  }
}
