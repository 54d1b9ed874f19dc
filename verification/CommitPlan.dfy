/** The block plan of one commit, from the loaded allocator state to the partition
    that the next load will check. */
module CommitPlan {
  import opened ExtentRuns
  import opened Partition
  import opened Retirement
  import opened CommitAllocation
  import opened MetadataReservation

  /** The loaded state of the current generation. */
  datatype Loaded = Loaded(common: nat, start: nat, generation: nat,
                           reachable: seq<Run>, free: seq<Run>, retired: seq<Run>)

  /** The order of the retired index: by generation, and with gaps within one. */
  predicate After(x: Run, y: Run) {
    x.gen < y.gen || (x.gen == y.gen && x.End() < y.start)
  }

  ghost predicate RetiredOrder(runs: seq<Run>) {
    forall i, j :: 0 <= i < j < |runs| ==> After(runs[i], runs[j])
  }

  ghost predicate GensWithin(runs: seq<Run>, generation: nat) {
    forall r :: r in runs ==> 0 < r.gen <= generation
  }

  /** What loading the allocator state checks: both indexes are canonical, retirement
      generations are valid, and all ranges are non-empty and partition the committed range. */
  ghost predicate ValidLoaded(o: Loaded) {
    && o.common <= o.start
    && AllInBounds(o.reachable + o.free + o.retired, o.common, o.start)
    && Partitions(o.reachable + o.free + o.retired, o.common, o.start)
    && Separated(o.free) && AllGen(o.free, 0)
    && RetiredOrder(o.retired) && GensWithin(o.retired, o.generation)
  }

  lemma {:induction false} LoadedPositive(o: Loaded)
    requires ValidLoaded(o)
    ensures Positive(o.reachable) && Positive(o.retired)
  {
    var all := o.reachable + o.free + o.retired;
    forall i | 0 <= i < |o.reachable| ensures o.reachable[i].count > 0 {
      assert InBounds(all[i], o.common, o.start);
    }
    forall i | 0 <= i < |o.retired| ensures o.retired[i].count > 0 {
      assert InBounds(all[|o.reachable + o.free| + i], o.common, o.start);
    }
  }

  lemma {:induction false} OrderNoneTouch(runs: seq<Run>)
    requires Positive(runs) && RetiredOrder(runs)
    ensures NoneTouch(runs)
  {
    forall x, y | x in runs && y in runs && x.gen == y.gen ensures x.End() != y.start {
      var i :| 0 <= i < |runs| && runs[i] == x;
      var j :| 0 <= j < |runs| && runs[j] == y;
      assert i < j ==> After(runs[i], runs[j]);
      assert j < i ==> After(runs[j], runs[i]);
    }
  }

  lemma {:induction false} NoneTouchOrder(runs: seq<Run>)
    requires Positive(runs) && Disjoint(runs) && SortedRuns(true, runs) && NoneTouch(runs)
    ensures RetiredOrder(runs)
  {
    forall i, j | 0 <= i < j < |runs| ensures After(runs[i], runs[j]) {
      assert RunLe(true, runs[i], runs[j]);
      assert runs[i] in runs && runs[j] in runs;
      if runs[i].Has(runs[j].start) {
        MultOfTwo(runs, i, j, runs[j].start);
      }
    }
  }

  /** Non-empty ranges that partition the committed range lie in it. */
  lemma {:induction false} PartitionBounds(runs: seq<Run>, common: nat, highWater: nat)
    requires Positive(runs) && Partitions(runs, common, highWater)
    ensures AllInBounds(runs, common, highWater)
  {
    forall i | 0 <= i < |runs| ensures InBounds(runs[i], common, highWater) {
      MultOfMember(runs, i, runs[i].start);
      MultOfMember(runs, i, runs[i].End() - 1);
    }
  }

  datatype Plan =
    | Planned(free: seq<Run>, retired: seq<Run>, extents: seq<Run>, allocatorRoot: Run,
              metadata: seq<Run>, reserved: seq<Run>, next: nat)
    | PlanFailed

  /** Everything reachable from the new generation. */
  function NewReachable(plan: Plan, pending: seq<Run>, retained: seq<Run>): seq<Run>
    requires plan.Planned?
  {
    plan.extents + plan.metadata + [plan.allocatorRoot] + pending + retained
  }

  /** Blocks this commit writes besides the chunks that were staged before it. */
  function Written(plan: Plan): seq<Run>
    requires plan.Planned?
  {
    plan.extents + plan.metadata + [plan.allocatorRoot]
  }

  lemma {:induction false} CoverOfLoaded(o: Loaded, b: int)
    requires ValidLoaded(o)
    ensures Mult(o.reachable, b) + Mult(o.free, b) + Mult(o.retired, b) == One(o.common <= b < o.start)
  {
    MultConcat(o.reachable + o.free, o.retired, b);
    MultConcat(o.reachable, o.free, b);
  }

  /** Extents drawn from a pool, and what is left of it. */
  datatype Fitted = Fitted(extents: seq<Run>, free: seq<Run>, next: nat)

  /** One extent after another, each where it first fits in what the others have left. */
  function FirstFits(free: seq<Run>, next: nat, counts: seq<nat>): Fitted {
    if counts == [] then Fitted([], free, next)
    else
      var n := counts[|counts| - 1];
      var d := FirstFits(free, next, counts[..|counts| - 1]);
      Fitted(d.extents + [Run(FitStart(d.free, d.next, n), n, 0)], FitRest(d.free, n), FitNext(d.free, d.next, n))
  }

  lemma {:induction false} FitsOneMore(free: seq<Run>, next: nat, counts: seq<nat>, n: nat)
    requires n < |counts|
    ensures var d := FirstFits(free, next, counts[..n]);
            FirstFits(free, next, counts[..n + 1])
            == Fitted(d.extents + [Run(FitStart(d.free, d.next, counts[n]), counts[n], 0)],
                      FitRest(d.free, counts[n]), FitNext(d.free, d.next, counts[n]))
  {
    assert counts[..n + 1][..n] == counts[..n];
  }

  lemma {:induction false} FitTakes(free: seq<Run>, next: nat, extents: seq<Run>, free1: seq<Run>, next1: nat, n: nat)
    requires TakenFrom(free, next, extents, free1, next1)
    ensures TakenFrom(free, next, extents + [Run(FitStart(free1, next1, n), n, 0)], FitRest(free1, n), FitNext(free1, next1, n))
  {
    var at := Run(FitStart(free1, next1, n), n, 0);
    FitCover(free1, next1, n);
    MultPush(extents, at);
    forall b ensures Pool(free, next, b) == Pool(FitRest(free1, n), FitNext(free1, next1, n), b) + Mult(extents + [at], b) {
      assert Pool(free, next, b) == Pool(free1, next1, b) + Mult(extents, b);
    }
  }

  /** Extents placed where they first fit have the sizes asked for and come from the pool. */
  lemma {:induction false} FirstFitsTake(free: seq<Run>, next: nat, counts: seq<nat>)
    ensures var d := FirstFits(free, next, counts);
            && |d.extents| == |counts| && (forall i :: 0 <= i < |counts| ==> d.extents[i].count == counts[i])
            && TakenFrom(free, next, d.extents, d.free, d.next)
  {
    if counts != [] {
      var n := |counts| - 1;
      FirstFitsTake(free, next, counts[..n]);
      var d := FirstFits(free, next, counts[..n]);
      FitTakes(free, next, d.extents, d.free, d.next, counts[n]);
    }
  }

  /** Allocate one extent after another. */
  method AllocateExtents(free: seq<Run>, next: nat, counts: seq<nat>)
    returns (extents: seq<Run>, free': seq<Run>, next': nat)
    ensures Fitted(extents, free', next') == FirstFits(free, next, counts)
    ensures |extents| == |counts|
    ensures forall i :: 0 <= i < |counts| ==> extents[i].count == counts[i]
    ensures TakenFrom(free, next, extents, free', next')
  {
    extents, free', next' := [], free, next;
    assert counts[..0] == [];
    for n := 0 to |counts|
      invariant Fitted(extents, free', next') == FirstFits(free, next, counts[..n])
    {
      FitsOneMore(free, next, counts, n);
      var at;
      at, free', next' := AllocateBlocks(free', next', counts[n]);
      extents := extents + [Run(at, counts[n], 0)];
    }
    assert counts[..|counts|] == counts;
    FirstFitsTake(free, next, counts);
  }

  /** How often one block occurs in the lists a plan is made from and made of. */
  datatype Counts = Counts(free: nat, held: nat, reachable: nat, retained: nat, pending: nat, lost: int,
                           extents: nat, root: nat, metadata: nat, reserved: nat,
                           pool: nat, retired: nat, pastStart: nat)

  ghost function CountsAt(o: Loaded, oldest: nat, staged: Staged, retained: seq<Run>, plan: Plan, b: int): Counts
    requires plan.Planned?
  {
    Counts(Mult(o.free, b) + Mult(Eligible(o.retired, oldest), b), Mult(Held(o.retired, oldest), b),
           Mult(o.reachable, b), Mult(retained, b), Mult(staged.pending, b), Lost(staged.discarded, o.start, b),
           Mult(plan.extents, b), One(plan.allocatorRoot.Has(b)), Mult(plan.metadata, b), Mult(plan.reserved, b),
           Pool(plan.free, plan.next, b), Mult(plan.retired, b), One(b >= o.start))
  }

  /** New blocks come from the free ones and the tail; reservations that overlap
      count a block more than once and lost chunks not at all. */
  predicate Balances(c: Counts) {
    && c.retired == (if c.retained > 0 then 0 else c.held + c.reachable)
    && c.metadata <= c.reserved
    && c.extents + c.root + c.pending + One(c.reserved > 0) + c.lost <= c.free + c.pastStart
    && c.pool + c.metadata + c.extents + c.root + c.pending + c.lost
       == c.free + c.pastStart + (if c.reserved > 0 then c.reserved - 1 else 0)
  }

  ghost predicate Balance(o: Loaded, oldest: nat, staged: Staged, retained: seq<Run>, plan: Plan, b: int)
    requires plan.Planned?
  {
    Balances(CountsAt(o, oldest, staged, retained, plan, b))
  }

  ghost predicate Balanced(o: Loaded, oldest: nat, staged: Staged, retained: seq<Run>, plan: Plan)
    requires plan.Planned?
  {
    forall b :: Balance(o, oldest, staged, retained, plan, b)
  }

  /** Each retained extent is one of the old generation, once. */
  ghost predicate RetainedOnce(o: Loaded, retained: seq<Run>) {
    Positive(retained) && forall b :: Mult(retained, b) <= Mult(o.reachable, b)
  }

  ghost function Extra(plan: Plan, b: int): nat
    requires plan.Planned?
  {
    if Mult(plan.reserved, b) > 0 then Mult(plan.reserved, b) - 1 else 0
  }

  lemma {:induction false} NewReachableCover(plan: Plan, pending: seq<Run>, retained: seq<Run>, b: int)
    requires plan.Planned?
    ensures Mult(NewReachable(plan, pending, retained), b)
         == Mult(plan.extents, b) + Mult(plan.metadata, b) + One(plan.allocatorRoot.Has(b))
            + Mult(pending, b) + Mult(retained, b)
    ensures Mult(Written(plan), b)
         == Mult(plan.extents, b) + Mult(plan.metadata, b) + One(plan.allocatorRoot.Has(b))
  {
    var w := plan.extents + plan.metadata;
    MultConcat(plan.extents, plan.metadata, b);
    MultPush(w, plan.allocatorRoot);
    MultConcat(w + [plan.allocatorRoot], pending, b);
    MultConcat(w + [plan.allocatorRoot] + pending, retained, b);
  }

  /** How often the new lists cover one block. */
  lemma {:induction false} TotalCover(o: Loaded, oldest: nat, staged: Staged, retained: seq<Run>, plan: Plan, b: int)
    requires plan.Planned? && ValidLoaded(o) && RetainedOnce(o, retained)
    requires Balance(o, oldest, staged, retained, plan, b)
    ensures Mult(NewReachable(plan, staged.pending, retained) + plan.free + plan.retired, b)
            + One(b >= plan.next) + Lost(staged.discarded, o.start, b)
         == One(b >= o.common) + Extra(plan, b)
    ensures Extra(plan, b) > 0 ==> Lost(staged.discarded, o.start, b) <= 0
  {
    var reach := NewReachable(plan, staged.pending, retained);
    MultConcat(reach + plan.free, plan.retired, b);
    MultConcat(reach, plan.free, b);
    NewReachableCover(plan, staged.pending, retained, b);
    CoverOfLoaded(o, b);
    EligibleOrHeld(o.retired, oldest, b);
    assert Mult(retained, b) <= Mult(o.reachable, b);
  }

  /** Partition conservation.  The new extents, retained extents, staged chunks, free
      runs and retired runs partition the new committed range if and only if the
      metadata reservations are pairwise disjoint and no discarded staged chunk
      straddles the old committed boundary. */
  lemma {:induction false} PartitionIff(o: Loaded, oldest: nat, staged: Staged, retained: seq<Run>, plan: Plan)
    requires plan.Planned? && ValidLoaded(o) && RetainedOnce(o, retained) && o.start <= plan.next
    requires Balanced(o, oldest, staged, retained, plan)
    ensures Partitions(NewReachable(plan, staged.pending, retained) + plan.free + plan.retired, o.common, plan.next)
            <==> Disjoint(plan.reserved) && NoneStraddles(staged.discarded, o.start)
  {
    var all := NewReachable(plan, staged.pending, retained) + plan.free + plan.retired;
    LostIffStraddles(staged.discarded, o.start);
    forall b
      ensures Mult(all, b) == One(o.common <= b < plan.next)
              <==> Extra(plan, b) == 0 && Lost(staged.discarded, o.start, b) == 0
    {
      TotalCover(o, oldest, staged, retained, plan, b);
      assert Lost(staged.discarded, o.start, b) >= 0;
    }
    if Partitions(all, o.common, plan.next) {
      forall b ensures Mult(plan.reserved, b) <= 1 {
        assert Mult(all, b) == One(o.common <= b < plan.next);
      }
      forall b ensures Lost(staged.discarded, o.start, b) == 0 {
        assert Mult(all, b) == One(o.common <= b < plan.next);
      }
    }
    if Disjoint(plan.reserved) && NoneStraddles(staged.discarded, o.start) {
      forall b ensures Mult(all, b) == One(o.common <= b < plan.next) {
        assert Mult(plan.reserved, b) <= 1 && Lost(staged.discarded, o.start, b) == 0;
      }
    }
  }

  /** Whatever happens to the metadata, a commit writes only blocks that were free,
      eligible or beyond the committed range: never a block of the current
      generation, a held retired block or a pending chunk. */
  lemma {:induction false} WritesAreSafe(o: Loaded, oldest: nat, staged: Staged, retained: seq<Run>, plan: Plan, b: int)
    requires plan.Planned? && ValidLoaded(o)
    requires Balance(o, oldest, staged, retained, plan, b)
    requires Mult(Written(plan), b) > 0
    ensures Mult(o.reachable, b) == 0 && Mult(Held(o.retired, oldest), b) == 0
    ensures Mult(staged.pending, b) + Lost(staged.discarded, o.start, b) <= 0
    ensures o.common <= b
  {
    NewReachableCover(plan, staged.pending, retained, b);
    CoverOfLoaded(o, b);
    EligibleOrHeld(o.retired, oldest, b);
  }

  /** What the code assumes of a write transaction's staging when it commits. */
  ghost predicate StagingReady(o: Loaded, oldest: nat, staged: Staged, stagedOldest: nat) {
    && ValidLoaded(o)
    && stagedOldest <= oldest
    && StagingConserves(staged, o.free + Eligible(o.retired, stagedOldest), o.start)
    && Positive(staged.pending)
  }

  /** And of what it retains. */
  ghost predicate CommitReady(o: Loaded, oldest: nat, staged: Staged, stagedOldest: nat, retained: seq<Run>) {
    StagingReady(o, oldest, staged, stagedOldest) && RetainedOnce(o, retained)
  }

  /** The pool after staging has been absorbed. */
  lemma {:induction false} AbsorbedPool(o: Loaded, oldest: nat, staged: Staged, stagedOldest: nat,
                     free0: seq<Run>, free1: seq<Run>, b: int)
    requires StagingReady(o, oldest, staged, stagedOldest)
    requires SameCover(free0, o.free + Eligible(o.retired, oldest))
    requires Mult(free1, b) == AbsorbedFree(free0, o.start, staged, b)
    ensures Mult(free0, b) == Mult(o.free, b) + Mult(Eligible(o.retired, oldest), b)
    ensures Pool(free1, staged.next, b) + Mult(staged.pending, b) + Lost(staged.discarded, o.start, b)
         == Mult(free0, b) + One(b >= o.start)
    ensures Pool(free1, staged.next, b) <= 1
  {
    CoverOfLoaded(o, b);
    EligibleOrHeld(o.retired, oldest, b);
    MultConcat(o.free, Eligible(o.retired, oldest), b);
    MultConcat(o.free, Eligible(o.retired, stagedOldest), b);
    EligibleMonotone(o.retired, stagedOldest, oldest, b);
    AbsorbBalance(free0, o.start, staged, o.free + Eligible(o.retired, stagedOldest), b);
    LostIffStraddles(staged.discarded, o.start);
  }

  lemma {:induction false} HeldAreRetired(runs: seq<Run>, oldest: nat)
    ensures forall r :: r in Held(runs, oldest) ==> r in runs
    ensures Positive(runs) ==> Positive(Held(runs, oldest))
  {
    if runs != [] {
      HeldAreRetired(runs[..|runs| - 1], oldest);
    }
  }

  /** One block of the finished plan, from what each phase promises about it:
      `pool1` after staging, `pool2` after allocation. */
  lemma {:induction false} PhasesBalance(c: Counts, pool1: nat, pool2: nat)
    requires pool1 + c.pending + c.lost == c.free + c.pastStart
    requires pool1 == pool2 + c.extents + c.root
    requires c.pool + c.metadata == if c.reserved > 0 then c.reserved else pool2
    requires c.reserved > 0 ==> pool2 == 1
    requires c.metadata <= c.reserved
    requires c.retired == if c.retained > 0 then 0 else c.held + c.reachable
    ensures Balances(c)
  {
  }

  /** Block `b` is retired, by generation `g`. */
  ghost predicate RetiredAt(runs: seq<Run>, b: int, g: nat) { Mult(OfGen(runs, g), b) > 0 }

  /** Held blocks keep the generation that retired them; what the commit drops from
      the old generation is retired by the new one. */
  ghost predicate RetiresExactly(o: Loaded, oldest: nat, retained: seq<Run>, retired: seq<Run>) {
    forall b: int, g: nat :: RetiredAt(retired, b, g) <==>
      && Mult(retained, b) == 0
      && (RetiredAt(Held(o.retired, oldest), b, g) || (g == o.generation + 1 && Mult(o.reachable, b) > 0))
  }

  lemma {:induction false} GenOfCover(runs: seq<Run>, g: nat, b: int)
    requires Mult(OfGen(runs, g), b) > 0
    ensures exists r :: r in runs && r.gen == g
  {
    var n := |runs| - 1;
    if runs[n].gen == g {
      assert runs[n] in runs;
    } else {
      assert OfGen(runs, g) == OfGen(runs[..n], g);
      GenOfCover(runs[..n], g, b);
      var r :| r in runs[..n] && r.gen == g;
      assert r in runs;
    }
  }

  lemma {:induction false} RetiredGens(o: Loaded, oldest: nat, retained: seq<Run>, retired: seq<Run>)
    requires ValidLoaded(o) && RetiresExactly(o, oldest, retained, retired) && Positive(retired)
    ensures GensWithin(retired, o.generation + 1)
  {
    forall r | r in retired ensures 0 < r.gen <= o.generation + 1 {
      var i :| 0 <= i < |retired| && retired[i] == r;
      OfGenMember(retired, i, r.start);
      assert RetiredAt(retired, r.start, r.gen);
      if r.gen != o.generation + 1 {
        GenOfCover(Held(o.retired, oldest), r.gen, r.start);
        HeldAreRetired(o.retired, oldest);
      }
    }
  }

  /** What the next load will read back. */
  function NextLoaded(o: Loaded, staged: Staged, retained: seq<Run>, plan: Plan): Loaded
    requires plan.Planned?
  {
    Loaded(o.common, plan.next, o.generation + 1,
           NewReachable(plan, staged.pending, retained), plan.free, plan.retired)
  }

  /** The commit counts reachable blocks list by list. */
  lemma {:induction false} ReachableSum(plan: Plan, pending: seq<Run>, retained: seq<Run>)
    requires plan.Planned? && plan.allocatorRoot.count == 1
    ensures Blocks(NewReachable(plan, pending, retained))
         == 1 + Blocks(plan.extents) + Blocks(plan.metadata) + Blocks(pending) + Blocks(retained)
  {
    var w := plan.extents + plan.metadata;
    BlocksConcat(plan.extents, plan.metadata);
    BlocksConcat(w, [plan.allocatorRoot]);
    BlocksConcat(w + [plan.allocatorRoot], pending);
    BlocksConcat(w + [plan.allocatorRoot] + pending, retained);
    assert [plan.allocatorRoot][..0] == [];
  }

  /** The counters written to the allocator root add up to the new committed range. */
  lemma {:induction false} StoredCounters(o: Loaded, staged: Staged, retained: seq<Run>, plan: Plan)
    requires plan.Planned? && plan.allocatorRoot.count == 1 && ValidLoaded(NextLoaded(o, staged, retained, plan))
    ensures 1 + Blocks(plan.extents) + Blocks(plan.metadata) + Blocks(staged.pending) + Blocks(retained)
            + Blocks(plan.free) + Blocks(plan.retired) == plan.next - o.common
  {
    ReachableSum(plan, staged.pending, retained);
    CountersAddUp(o.common, plan.next, NewReachable(plan, staged.pending, retained), plan.free, plan.retired);
  }

  /** The pool a commit draws from: the free blocks and the tail, less what is staged. */
  ghost predicate Pooled(o: Loaded, oldest: nat, staged: Staged, free: seq<Run>, next: nat) {
    && o.start <= next && PoolOnce(free, next) && AllGen(free, 0)
    && forall b :: Pool(free, next, b) + Mult(staged.pending, b) + Lost(staged.discarded, o.start, b)
                   == Mult(o.free, b) + Mult(Eligible(o.retired, oldest), b) + One(b >= o.start)
  }

  /** New extents and the allocator root are drawn from the free blocks and the tail. */
  ghost predicate Drawn(o: Loaded, oldest: nat, staged: Staged, extents: seq<Run>, root: Run, free: seq<Run>, next: nat) {
    && o.start <= next && PoolOnce(free, next)
    && forall b :: Pool(free, next, b) + Mult(extents, b) + One(root.Has(b)) + Mult(staged.pending, b)
                   + Lost(staged.discarded, o.start, b)
                   == Mult(o.free, b) + Mult(Eligible(o.retired, oldest), b) + One(b >= o.start)
  }

  /** What the commit does not retain is retired, and nothing else. */
  ghost predicate Dropped(o: Loaded, oldest: nat, retained: seq<Run>, retired: seq<Run>) {
    && RetiresExactly(o, oldest, retained, retired) && Positive(retired) && RetiredOrder(retired)
    && forall b :: Mult(retired, b)
                   == if Mult(retained, b) > 0 then 0 else Mult(Held(o.retired, oldest), b) + Mult(o.reachable, b)
  }

  lemma {:induction false} PlanBalanced(o: Loaded, oldest: nat, staged: Staged, retained: seq<Run>,
                                        free: seq<Run>, next: nat, r: Reservation, plan: Plan)
    requires plan.Planned? && r.Converged?
    requires Drawn(o, oldest, staged, plan.extents, plan.allocatorRoot, free, next)
    requires Dropped(o, oldest, retained, plan.retired) && Accounted(free, next, r)
    requires plan.free == r.free && plan.metadata == r.metadata && plan.reserved == r.reserved && plan.next == r.next
    ensures Balanced(o, oldest, staged, retained, plan)
  {
    forall b ensures Balance(o, oldest, staged, retained, plan, b) {
      var c := CountsAt(o, oldest, staged, retained, plan, b);
      PhasesBalance(c, Pool(free, next, b) + c.extents + c.root, Pool(free, next, b));
    }
  }

  /** What a plan promises about every block. */
  ghost predicate PlanSound(o: Loaded, oldest: nat, staged: Staged, retained: seq<Run>, plan: Plan)
    requires plan.Planned?
  {
    && o.start <= plan.next
    && Balanced(o, oldest, staged, retained, plan)
    && RetiresExactly(o, oldest, retained, plan.retired)
    && Positive(plan.retired) && RetiredOrder(plan.retired)
    && Positive(plan.free) && AllGen(plan.free, 0) && (Disjoint(plan.reserved) ==> Separated(plan.free))
    && Positive(Written(plan))
  }

  /** Every index page takes at least one block. */
  ghost predicate NoEmptyPages(sizes: PageSizes) {
    forall retired, free, reserved, next, n :: n in sizes(retired, free, reserved, next) ==> n > 0
  }

  /** The stored indexes describe the very runs that remain beside them. */
  ghost predicate IndexFits(plan: Plan, sizes: PageSizes)
    requires plan.Planned?
  {
    && plan.allocatorRoot.count == 1
    && SelfDescribing(plan.retired, Converged(plan.free, plan.metadata, plan.reserved, plan.next), sizes)
  }

  lemma {:induction false} WrittenPositive(plan: Plan, sizes: PageSizes)
    requires plan.Planned? && IndexFits(plan, sizes) && NoEmptyPages(sizes) && Positive(plan.extents)
    ensures Positive(Written(plan))
  {
    var pages := sizes(plan.retired, plan.free, plan.reserved, plan.next);
    forall i | 0 <= i < |plan.metadata| ensures plan.metadata[i].count > 0 {
      assert plan.metadata[i].count == pages[i] && pages[i] in pages;
    }
  }

  lemma {:induction false} ReachableOnce(o: Loaded, oldest: nat)
    requires ValidLoaded(o)
    ensures Disjoint(o.reachable) && Disjoint(Held(o.retired, oldest) + o.reachable)
    ensures Positive(Held(o.retired, oldest)) && NoneTouch(Held(o.retired, oldest))
    ensures forall r :: r in Held(o.retired, oldest) ==> r.gen < o.generation + 1
  {
    LoadedPositive(o);
    OrderNoneTouch(o.retired);
    HeldAreRetired(o.retired, oldest);
    forall b
      ensures Mult(o.reachable, b) <= 1 && Mult(Held(o.retired, oldest) + o.reachable, b) <= 1
    {
      CoverOfLoaded(o, b);
      EligibleOrHeld(o.retired, oldest, b);
      MultConcat(Held(o.retired, oldest), o.reachable, b);
    }
  }

  lemma {:induction false} DrawnFrom(o: Loaded, oldest: nat, staged: Staged, free1: seq<Run>, next1: nat, extents: seq<Run>,
                                     free2: seq<Run>, next2: nat, root: Run, free3: seq<Run>, next3: nat)
    requires Pooled(o, oldest, staged, free1, next1) && TakenFrom(free1, next1, extents, free2, next2)
    requires TakenFrom(free2, next2, [root], free3, next3)
    ensures Drawn(o, oldest, staged, extents, root, free3, next3) && AllGen(free3, 0)
  {
    MultPush([], root);
    assert [] + [root] == [root];
    forall b
      ensures Pool(free3, next3, b) <= 1
      ensures Pool(free3, next3, b) + Mult(extents, b) + One(root.Has(b)) + Mult(staged.pending, b)
              + Lost(staged.discarded, o.start, b)
              == Mult(o.free, b) + Mult(Eligible(o.retired, oldest), b) + One(b >= o.start)
    {
      assert Pool(free1, next1, b) == Pool(free2, next2, b) + Mult(extents, b);
      assert Pool(free2, next2, b) == Pool(free3, next3, b) + Mult([root], b);
    }
  }

  /** The pool, and the retired runs that are still held: eligible runs become free and
      staging is taken over. */
  method OpenPool(o: Loaded, oldest: nat, staged: Staged, ghost stagedOldest: nat)
    returns (free: seq<Run>, next: nat, held: seq<Run>)
    requires StagingReady(o, oldest, staged, stagedOldest)
    ensures Pooled(o, oldest, staged, free, next) && held == Held(o.retired, oldest)
  {
    var free0;
    free0, held := ClassifyRetired(o.free, o.retired, oldest);
    free, next := AbsorbStaging(free0, o.start, staged);
    forall b
      ensures Pool(free, next, b) <= 1
      ensures Pool(free, next, b) + Mult(staged.pending, b) + Lost(staged.discarded, o.start, b)
              == Mult(o.free, b) + Mult(Eligible(o.retired, oldest), b) + One(b >= o.start)
    {
      AbsorbedPool(o, oldest, staged, stagedOldest, free0, free, b);
    }
  }

  /** The allocator root takes one block. */
  method TakeRoot(free: seq<Run>, next: nat) returns (root: Run, free': seq<Run>, next': nat)
    ensures root == Run(FitStart(free, next, 1), 1, 0) && TakenFrom(free, next, [root], free', next')
  {
    var at;
    at, free', next' := AllocateBlocks(free, next, 1);
    root := Run(at, 1, 0);
    MultPush([], root);
    assert [] + [root] == [root];
  }

  /** Retire the old generation's extents and take the retained ones back. */
  method DropReachable(o: Loaded, oldest: nat, held: seq<Run>, retained: seq<Run>) returns (retired: seq<Run>)
    requires ValidLoaded(o) && held == Held(o.retired, oldest) && Positive(retained)
    ensures Dropped(o, oldest, retained, retired)
  {
    ReachableOnce(o, oldest);
    var retired0 := RetireReachable(held, o.reachable, o.generation + 1);
    retired := SubtractRetained(retired0, retained);
    NoneTouchOrder(retired);
    RetiresExactlyFrom(o, oldest, retained, retired0, retired);
    forall b ensures Mult(retired0, b) == Mult(held, b) + Mult(o.reachable, b) {
      MultConcat(held, o.reachable, b);
    }
  }

  /** What the plan of a commit says about its own indexes: they describe the runs beside
      them, and their reservations are disjoint exactly if all rounds were clear. */
  ghost predicate Indexed(plan: Plan, rounds: seq<Attempt>, page: nat, sizes: PageSizes)
    requires plan.Planned?
  {
    && IndexFits(plan, sizes)
    && rounds != [] && rounds[0].pages.reserved == [] && rounds[|rounds| - 1].pages.reserved == plan.reserved
    && Follow(rounds, plan.retired, page, sizes)
    && (Disjoint(plan.reserved) <==> AllClear(rounds, plan.retired, page, sizes))
  }

  /** What the reservation loop starts from: the pool without extents and root, and what
      the commit retires. */
  datatype LoopStart = LoopStart(extents: seq<Run>, root: Run, free: seq<Run>, next: nat, retired: seq<Run>)

  ghost predicate GaveUpFrom(at: LoopStart, o: Loaded, oldest: nat, staged: Staged, retained: seq<Run>,
                             rounds: seq<Attempt>, page: nat, sizes: PageSizes)
  {
    && Drawn(o, oldest, staged, at.extents, at.root, at.free, at.next) && Dropped(o, oldest, retained, at.retired)
    && GaveUp(rounds, at.retired, at.free, at.next, page, sizes)
  }

  /** Why there is no plan: the reservation loop gave up. */
  ghost predicate Unplannable(o: Loaded, oldest: nat, staged: Staged, retained: seq<Run>, rounds: seq<Attempt>, page: nat, sizes: PageSizes) {
    exists at :: GaveUpFrom(at, o, oldest, staged, retained, rounds, page, sizes)
  }

  /** If the indexes need no page there is always a plan. */
  lemma {:induction false} AlwaysPlannable(o: Loaded, oldest: nat, staged: Staged, retained: seq<Run>, rounds: seq<Attempt>, page: nat, sizes: PageSizes)
    requires NoPages(sizes)
    ensures !Unplannable(o, oldest, staged, retained, rounds, page, sizes)
  {
    forall at: LoopStart ensures !GaveUp(rounds, at.retired, at.free, at.next, page, sizes) {
      NoPagesConverges(rounds, at.retired, at.free, at.next, page, sizes);
    }
  }

  /** From the extents a commit has taken from the pool to its plan. */
  method ClosePlan(o: Loaded, oldest: nat, staged: Staged, retained: seq<Run>, held: seq<Run>, extents: seq<Run>,
                   free: seq<Run>, next: nat, page: nat, sizes: PageSizes, ghost free1: seq<Run>, ghost next1: nat)
    returns (plan: Plan, ghost rounds: seq<Attempt>)
    requires page > 0 && ValidLoaded(o) && Positive(retained) && held == Held(o.retired, oldest)
    requires Pooled(o, oldest, staged, free1, next1) && TakenFrom(free1, next1, extents, free, next)
    requires NoEmptyPages(sizes) && Positive(extents)
    ensures plan.Planned? ==>
            PlanSound(o, oldest, staged, retained, plan) && plan.extents == extents && Indexed(plan, rounds, page, sizes)
    ensures plan.Planned? ==> plan.allocatorRoot == Run(FitStart(free, next, 1), 1, 0)
    ensures plan.PlanFailed? ==> Unplannable(o, oldest, staged, retained, rounds, page, sizes) && !NoPages(sizes)
  {
    var root, free3, next3 := TakeRoot(free, next);
    DrawnFrom(o, oldest, staged, free1, next1, extents, free, next, root, free3, next3);
    var retired := DropReachable(o, oldest, held, retained);
    var r;
    r, rounds := ReserveMetadata(retired, free3, next3, page, sizes);
    if r == ResourceLimit {
      assert GaveUpFrom(LoopStart(extents, root, free3, next3, retired), o, oldest, staged, retained, rounds, page, sizes);
      if NoPages(sizes) {
        AlwaysPlannable(o, oldest, staged, retained, rounds, page, sizes);
      }
      return PlanFailed, rounds;
    }
    plan := Planned(r.free, retired, extents, root, r.metadata, r.reserved, r.next);
    PlanBalanced(o, oldest, staged, retained, free3, next3, r, plan);
    WrittenPositive(plan, sizes);
    DisjointIffClear(rounds, retired, free3, next3, page, sizes);
  }

  /** The extents and then the root are where they first fit in the pool the commit opens. */
  ghost predicate PlacedFirst(o: Loaded, oldest: nat, staged: Staged, counts: seq<nat>, plan: Plan)
    requires plan.Planned?
  {
    exists free, next ::
      && Pooled(o, oldest, staged, free, next)
      && var d := FirstFits(free, next, counts);
         plan.extents == d.extents && plan.allocatorRoot == Run(FitStart(d.free, d.next, 1), 1, 0)
  }

  /** The block plan of a commit: `counts` are the extents of the new trees and
      manifests, `retained` the clean extents that stay reachable. */
  method PlanCommit(o: Loaded, oldest: nat, staged: Staged, ghost stagedOldest: nat, retained: seq<Run>,
                    counts: seq<nat>, page: nat, sizes: PageSizes)
    returns (plan: Plan, ghost rounds: seq<Attempt>)
    requires page > 0 && CommitReady(o, oldest, staged, stagedOldest, retained)
    requires NoEmptyPages(sizes) && forall i :: 0 <= i < |counts| ==> counts[i] > 0
    ensures plan.Planned? ==> PlanSound(o, oldest, staged, retained, plan)
    ensures plan.Planned? ==> PlacedFirst(o, oldest, staged, counts, plan)
    ensures plan.Planned? ==> |plan.extents| == |counts| && forall i :: 0 <= i < |counts| ==> plan.extents[i].count == counts[i]
    ensures plan.Planned? ==> Indexed(plan, rounds, page, sizes)
    ensures plan.PlanFailed? ==> Unplannable(o, oldest, staged, retained, rounds, page, sizes) && !NoPages(sizes)
  {
    var free1, next1, held := OpenPool(o, oldest, staged, stagedOldest);
    var extents, free, next := AllocateExtents(free1, next1, counts);
    plan, rounds := ClosePlan(o, oldest, staged, retained, held, extents, free, next, page, sizes, free1, next1);
  }

  /** Partition conservation, as the next load sees it: it accepts the new state if and
      only if the reservations are disjoint and no discarded chunk straddles. */
  lemma {:induction false} NextLoadIff(o: Loaded, oldest: nat, staged: Staged, retained: seq<Run>, plan: Plan)
    requires plan.Planned? && ValidLoaded(o) && RetainedOnce(o, retained) && Positive(staged.pending)
    requires PlanSound(o, oldest, staged, retained, plan)
    ensures ValidLoaded(NextLoaded(o, staged, retained, plan))
            <==> Disjoint(plan.reserved) && NoneStraddles(staged.discarded, o.start)
  {
    PartitionIff(o, oldest, staged, retained, plan);
    LoadedPositive(o);
    RetiredGens(o, oldest, retained, plan.retired);
    var all := NewReachable(plan, staged.pending, retained) + plan.free + plan.retired;
    assert Positive(all);
    if Partitions(all, o.common, plan.next) {
      PartitionBounds(all, o.common, plan.next);
    }
  }

  lemma {:induction false} RetiresExactlyFrom(o: Loaded, oldest: nat, retained: seq<Run>, retired0: seq<Run>, retired: seq<Run>)
    requires Subtracted(retired, retired0, retained)
    requires RetiredOver(retired0, Held(o.retired, oldest), o.reachable, o.generation + 1)
    ensures RetiresExactly(o, oldest, retained, retired)
  {
    forall b: int, g: nat
      ensures RetiredAt(retired, b, g) <==>
              && Mult(retained, b) == 0
              && (RetiredAt(Held(o.retired, oldest), b, g) || (g == o.generation + 1 && Mult(o.reachable, b) > 0))
    {
      assert Mult(OfGen(retired, g), b) == if Mult(retained, b) > 0 then 0 else Mult(OfGen(retired0, g), b);
      assert Mult(OfGen(retired0, g), b) == OverAt(Held(o.retired, oldest), o.reachable, o.generation + 1, b, g);
    }
  }
}
