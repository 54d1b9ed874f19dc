/** Loading the allocator state of a generation: the checks that stand between the bytes
    of its two indexes and a session that may allocate from them. */
module AllocatorLoading {
  import opened ExtentRuns
  import opened Partition
  import opened CommitAllocation
  import opened MetadataReservation
  import opened CommitPlan
  import opened LittleEndian
  import opened AllocatorCodec

  /** The three counters of the allocator root. */
  datatype Stored = Stored(reachable: nat, free: nat, retired: nat)

  ghost predicate Neighbours(runs: seq<Run>, n: nat) {
    n <= |runs| && forall i, j :: 0 <= i < j < n ==> After(runs[i], runs[j])
  }

  /** An order that neighbours keep, all keep. */
  lemma {:induction false} NeighbourStep(runs: seq<Run>, n: nat)
    requires Neighbours(runs, n) && n < |runs| && (n > 0 ==> After(runs[n - 1], runs[n]))
    ensures Neighbours(runs, n + 1)
  {
    forall i | 0 <= i < n ensures After(runs[i], runs[n]) {
      assert i < n - 1 ==> After(runs[i], runs[n - 1]);
    }
  }

  /** Runs in index order, across the pages of the index. */
  method CheckOrder(runs: seq<Run>) returns (ok: bool)
    ensures ok <==> Positive(runs) && RetiredOrder(runs)
  {
    for n := 0 to |runs|
      invariant forall i :: 0 <= i < n ==> runs[i].count > 0
      invariant Neighbours(runs, n)
    {
      if runs[n].count == 0 || (n > 0 && !After(runs[n - 1], runs[n])) {
        return false;
      }
      NeighbourStep(runs, n);
    }
    ok := true;
  }

  /** Free runs, which have no generation, are in that order exactly if gaps separate them. */
  lemma {:induction false} FreeOrder(runs: seq<Run>)
    requires AllGen(runs, 0)
    ensures Positive(runs) && RetiredOrder(runs) <==> Separated(runs)
  {
    if Separated(runs) {
      forall i, j | 0 <= i < j < |runs| ensures After(runs[i], runs[j]) {
        assert runs[i].End() < runs[j].start;
      }
    }
    if Positive(runs) && RetiredOrder(runs) {
      forall i, j | 0 <= i < j < |runs| ensures runs[i].End() < runs[j].start {
        assert After(runs[i], runs[j]);
      }
    }
  }

  method SumBlocks(runs: seq<Run>) returns (sum: nat)
    ensures sum == Blocks(runs)
  {
    sum := 0;
    for n := 0 to |runs|
      invariant sum == Blocks(runs[..n])
    {
      assert runs[..n + 1][..n] == runs[..n];
      sum := sum + runs[n].count;
    }
    assert runs[..|runs|] == runs;
  }

  method CheckGenerations(retired: seq<Run>, generation: nat) returns (ok: bool)
    ensures ok <==> GensWithin(retired, generation)
  {
    for n := 0 to |retired|
      invariant forall i :: 0 <= i < n ==> 0 < retired[i].gen <= generation
    {
      if retired[n].gen == 0 || retired[n].gen > generation {
        assert retired[n] in retired;
        return false;
      }
    }
    ok := true;
  }

  /** Loading accepts a state exactly if it is valid and the stored counters are its sums.
      A free run is read without a generation. */
  method LoadAllocator(o: Loaded, stored: Stored) returns (accepted: bool)
    requires o.common <= o.start && AllGen(o.free, 0)
    ensures accepted <==>
            && ValidLoaded(o)
            && stored == Stored(Blocks(o.reachable), Blocks(o.free), Blocks(o.retired))
  {
    var freeOk := CheckOrder(o.free);
    var retiredOk := CheckOrder(o.retired);
    FreeOrder(o.free);
    if ValidLoaded(o) {
      LoadedPositive(o);
      CountersAddUp(o.common, o.start, o.reachable, o.free, o.retired);
    }
    if !freeOk || !retiredOk {
      return false;
    }
    var gensOk := CheckGenerations(o.retired, o.generation);
    var reachable := SumBlocks(o.reachable);
    var free := SumBlocks(o.free);
    var retired := SumBlocks(o.retired);
    if !gensOk || free != stored.free || retired != stored.retired || reachable != stored.reachable
       || reachable + free + retired != o.start - o.common
    {
      return false;
    }
    accepted := ValidatePartition(o.common, o.start, o.reachable, o.free, o.retired);
  }

  /** What the commit writes to the allocator root. */
  method StoreCounters(plan: Plan, pending: seq<Run>, retained: seq<Run>) returns (stored: Stored)
    requires plan.Planned? && plan.allocatorRoot.count == 1
    ensures stored == Stored(Blocks(NewReachable(plan, pending, retained)), Blocks(plan.free), Blocks(plan.retired))
  {
    var free := SumBlocks(plan.free);
    var retired := SumBlocks(plan.retired);
    var extents := SumBlocks(plan.extents);
    var metadata := SumBlocks(plan.metadata);
    var chunks := SumBlocks(pending);
    var kept := SumBlocks(retained);
    ReachableSum(plan, pending, retained);
    stored := Stored(1 + extents + metadata + chunks + kept, free, retired);
  }

  /** A commit and the next load.  What a converged commit stores is accepted if and only
      if no index page was cut from the rest of another and no discarded chunk straddles
      the committed boundary. */
  method CommitAndLoad(o: Loaded, oldest: nat, staged: Staged, ghost stagedOldest: nat, retained: seq<Run>,
                       counts: seq<nat>, page: nat, sizes: PageSizes)
    returns (plan: Plan, accepted: bool, ghost rounds: seq<Attempt>)
    requires page > 0 && CommitReady(o, oldest, staged, stagedOldest, retained)
    requires NoEmptyPages(sizes) && forall i :: 0 <= i < |counts| ==> counts[i] > 0
    ensures plan.Planned? ==> PlanSound(o, oldest, staged, retained, plan) && PlacedFirst(o, oldest, staged, counts, plan)
    ensures plan.Planned? ==> Indexed(plan, rounds, page, sizes)
    ensures plan.PlanFailed? ==> Unplannable(o, oldest, staged, retained, rounds, page, sizes) && !NoPages(sizes)
    ensures plan.Planned? ==>
            (accepted <==> AllClear(rounds, plan.retired, page, sizes) && NoneStraddles(staged.discarded, o.start))
  {
    plan, rounds := PlanCommit(o, oldest, staged, stagedOldest, retained, counts, page, sizes);
    accepted := false;
    if plan.Planned? {
      var stored := StoreCounters(plan, staged.pending, retained);
      NextLoadIff(o, oldest, staged, retained, plan);
      accepted := LoadAllocator(NextLoaded(o, staged, retained, plan), stored);
    }
  }

  /** Both indexes of an accepted state are lists that leaf pages can hold: they are
      written and read back unchanged. */
  lemma {:induction false} IndexesCanonical(o: Loaded)
    requires ValidLoaded(o) && o.start < U64 && o.generation < U64
    ensures o.free != [] ==> Canonical(o.free, false)
    ensures o.retired != [] ==> Canonical(o.retired, true)
  {
    var all := o.reachable + o.free + o.retired;
    forall i | 0 <= i < |o.free| ensures InBounds(o.free[i], o.common, o.start) {
      assert all[|o.reachable| + i] == o.free[i];
    }
    forall i | 0 <= i < |o.retired| ensures InBounds(o.retired[i], o.common, o.start) && o.retired[i].gen < U64 {
      assert all[|o.reachable + o.free| + i] == o.retired[i];
      assert o.retired[i] in o.retired;
    }
    FreeOrder(o.free);
    forall i | 0 < i < |o.free| ensures Follows(o.free[i - 1], o.free[i]) {
      assert After(o.free[i - 1], o.free[i]) && InBounds(o.free[i - 1], o.common, o.start);
    }
    forall i | 0 < i < |o.retired| ensures Follows(o.retired[i - 1], o.retired[i]) {
      assert After(o.retired[i - 1], o.retired[i]) && InBounds(o.retired[i - 1], o.common, o.start);
    }
  }
}
