/** A commit of the ordered tree as a whole: pages are written into the blocks that the
    allocator hands out, clean ones are retained, the plan accounts for all of them, and
    the next opening loads both. */
module OrderedCommit {
  import opened ExtentRuns
  import opened Basics
  import opened SortedEntries
  import opened OrderedTree
  import opened TreeWriting
  import opened TreeCommit
  import opened CommitAllocation
  import opened MetadataReservation
  import opened CommitPlan
  import opened AllocatorLoading

  /** The old tree's extents are blocks of the old generation, each counted once. */
  ghost predicate TreeWithin(root: Node, disk: Disk, o: Loaded) {
    && NonEmptyRefs(disk)
    && (forall r, b: int :: r in disk && r.Has(b) ==> Mult(o.reachable, b) > 0)
    && (forall b :: UsesAt(root, b) <= Mult(o.reachable, b))
  }

  /** Nothing that is reachable is in the pool. */
  lemma {:induction false} ReachableNotPooled(o: Loaded, oldest: nat, staged: Staged, free: seq<Run>, next: nat, b: int)
    requires ValidLoaded(o) && Pooled(o, oldest, staged, free, next) && Mult(o.reachable, b) > 0
    ensures Pool(free, next, b) == 0
  {
    CoverOfLoaded(o, b);
    EligibleOrHeld(o.retired, oldest, b);
    LostIffStraddles(staged.discarded, o.start);
    assert Pool(free, next, b) + Mult(staged.pending, b) + Lost(staged.discarded, o.start, b)
        == Mult(o.free, b) + Mult(Eligible(o.retired, oldest), b) + One(b >= o.start);
  }

  lemma {:induction false} OldTreeHoused(root: Node, disk: Disk, o: Loaded, oldest: nat, staged: Staged, free: seq<Run>, next: nat)
    requires ValidLoaded(o) && Pooled(o, oldest, staged, free, next) && TreeWithin(root, disk, o)
    ensures Housed(disk, free, next)
  {
    forall r, b: int | r in disk && r.Has(b) ensures Pool(free, next, b) == 0 {
      ReachableNotPooled(o, oldest, staged, free, next, b);
    }
  }

  /** The tree that a plan commits: it is on disk with the new values, and its extents are
      the plan's and the retained ones, each once. */
  ghost predicate Carries(plan: Plan, retained: seq<Run>, at: Option<Run>, top: Node, disk: Disk, limits: TreeLimits, target: seq<KV>)
    requires plan.Planned?
  {
    && (at.None? <==> target == [])
    && (at.Some? ==> Committed(top, at.value, disk, limits, target))
    && forall b :: Mult(plan.extents, b) + Mult(retained, b) == if at.None? then 0 else UsesAt(top, b)
  }

  /** Everything reachable from the new generation is the new tree, the staged chunks that
      became versions, and the allocator's own pages. */
  lemma {:induction false} ReachableIsTree(plan: Plan, staged: Staged, retained: seq<Run>, at: Option<Run>, top: Node,
                                           disk: Disk, limits: TreeLimits, target: seq<KV>, b: int)
    requires plan.Planned? && Carries(plan, retained, at, top, disk, limits, target)
    ensures Mult(NewReachable(plan, staged.pending, retained), b)
         == (if at.None? then 0 else UsesAt(top, b)) + Mult(plan.metadata, b) + One(plan.allocatorRoot.Has(b)) + Mult(staged.pending, b)
  {
    NewReachableCover(plan, staged.pending, retained, b);
    assert Mult(plan.extents, b) + Mult(retained, b) == if at.None? then 0 else UsesAt(top, b);
  }

  /** What an ordered commit is called with. */
  ghost predicate OrderedReady(o: Loaded, oldest: nat, staged: Staged, stagedOldest: nat, disk: Disk, root: Node, old_: seq<KV>, target: seq<KV>,
                               layout: Layout, limits: TreeLimits)
  {
    && StagingReady(o, oldest, staged, stagedOldest) && Fits(layout, limits)
    && Origin(root, disk, limits) && Flatten(root) == old_ && TreeWithin(root, disk, o)
    && Sorted(target) && forall e :: e in target ==> Storable(e.key, e.value, limits)
  }

  /** Commit the ordered tree: erase and put the difference, write the dirty pages into the
      pool, and plan the blocks around them. */
  method CommitOrdered(o: Loaded, oldest: nat, staged: Staged, ghost stagedOldest: nat, disk: Disk, root: Node, old_: seq<KV>, target: seq<KV>,
                       layout: Layout, limits: TreeLimits, page: nat, sizes: PageSizes)
    returns (plan: Plan, at: Option<Run>, disk': Disk, retained: seq<Run>, ghost updated: Node, ghost top: Node,
             ghost rounds: seq<Attempt>)
    requires page > 0 && NoEmptyPages(sizes) && OrderedReady(o, oldest, staged, stagedOldest, disk, root, old_, target, layout, limits)
    ensures Extends(disk, disk') && NewUnitsFit(layout, disk, disk')
    ensures target != [] ==> Updated(root, old_, target, updated) && forall b :: Mult(retained, b) == CleanUses(updated, b)
    ensures target == old_ && root.ref.Some? && (root.level == 0 || |root.children| >= 2) ==>
            at == root.ref && (plan.Planned? ==> plan.extents == [])
    ensures plan.Planned? ==>
            && RetainedOnce(o, retained) && PlanSound(o, oldest, staged, retained, plan) && Indexed(plan, rounds, page, sizes)
            && Carries(plan, retained, at, top, disk', limits, target)
    ensures plan.PlanFailed? ==> Unplannable(o, oldest, staged, retained, rounds, page, sizes) && !NoPages(sizes)
  {
    var free, next, held := OpenPool(o, oldest, staged, stagedOldest);
    OldTreeHoused(root, disk, o, oldest, staged, free, next);
    var w := new PageWriter(layout, limits, disk, free, next);
    at, updated, top := CommitTree(w, root, old_, target);
    disk', retained := w.disk, w.retained;
    plan, rounds := ClosePlan(o, oldest, staged, retained, held, w.written, w.free, w.next, page, sizes, free, next);
  }

  /** Commit and reopen.  The allocator state is accepted if and only if no index page was
      cut from the rest of another and no discarded chunk straddles the boundary; the tree
      loads as exactly the new values, unless it has become deeper than the loader allows. */
  method CommitAndReopen(o: Loaded, oldest: nat, staged: Staged, ghost stagedOldest: nat, disk: Disk, root: Node, old_: seq<KV>, target: seq<KV>,
                         layout: Layout, limits: TreeLimits, page: nat, sizes: PageSizes)
    returns (plan: Plan, accepted: bool, at: Option<Run>, loaded: Option<Node>, ghost top: Node, ghost retained: seq<Run>,
             ghost rounds: seq<Attempt>)
    requires page > 0 && NoEmptyPages(sizes) && OrderedReady(o, oldest, staged, stagedOldest, disk, root, old_, target, layout, limits)
    ensures plan.Planned? ==> Indexed(plan, rounds, page, sizes)
    ensures plan.PlanFailed? ==> Unplannable(o, oldest, staged, retained, rounds, page, sizes) && !NoPages(sizes)
    ensures plan.Planned? ==>
            (accepted <==> AllClear(rounds, plan.retired, page, sizes) && NoneStraddles(staged.discarded, o.start))
    ensures plan.Planned? ==> (at.None? <==> target == [])
    ensures plan.Planned? && loaded.Some? ==> Flatten(loaded.value) == target
    ensures plan.Planned? && at.Some? ==> Flatten(top) == target && (loaded.None? <==> top.level > limits.maxLevel)
  {
    var disk', kept;
    ghost var updated;
    plan, at, disk', kept, updated, top, rounds :=
      CommitOrdered(o, oldest, staged, stagedOldest, disk, root, old_, target, layout, limits, page, sizes);
    accepted, loaded, retained := false, None, kept;
    if plan.Planned? {
      var stored := StoreCounters(plan, staged.pending, kept);
      NextLoadIff(o, oldest, staged, kept, plan);
      accepted := LoadAllocator(NextLoaded(o, staged, kept, plan), stored);
      if at.Some? {
        loaded := LoadRoot(disk', at.value, limits, top, target);
      }
    }
  }

  /** The first ordered commit of a new store is such a call. */
  lemma {:induction false} FirstReady(common: nat, target: seq<KV>, layout: Layout, limits: TreeLimits, oldest: nat)
    requires Fits(layout, limits) && Sorted(target) && forall e :: e in target ==> Storable(e.key, e.value, limits)
    ensures OrderedReady(Loaded(common, common, 1, [], [], []), oldest, Staged([], common, [], []), oldest, map[],
                         Node(None, [], 0, false, [], []), [], target, layout, limits)
  {
    var o := Loaded(common, common, 1, [], [], []);
    var none: seq<Run> := [];
    assert none + none + none == none && o.free + Eligible(o.retired, oldest) == none;
  }
}
