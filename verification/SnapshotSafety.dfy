/** Why the blocks a reader needs are never written: they are reachable, or retired by
    a generation later than the reader's. */
module SnapshotSafety {
  import opened ExtentRuns
  import opened Retirement
  import opened CommitAllocation
  import opened MetadataReservation
  import opened CommitPlan

  /** Retired by a generation later than `g`. */
  ghost predicate RetiredAfter(runs: seq<Run>, b: int, g: nat) {
    exists h: nat :: h > g && RetiredAt(runs, b, h)
  }

  /** Every block of a snapshot of generation `g` is still kept for it. */
  ghost predicate Protected(reach: seq<Run>, g: nat, o: Loaded) {
    && g <= o.generation
    && forall b :: Mult(reach, b) > 0 ==> Mult(o.reachable, b) > 0 || RetiredAfter(o.retired, b, g)
  }

  /** Blocks that a transaction which began staging at `oldest` may write. */
  ghost predicate MayStage(o: Loaded, oldest: nat, b: int) {
    Mult(o.free + Eligible(o.retired, oldest), b) > 0 || b >= o.start
  }

  lemma {:induction false} HeldByGen(runs: seq<Run>, oldest: nat, b: int, g: nat)
    requires g > oldest && RetiredAt(runs, b, g)
    ensures Mult(Held(runs, oldest), b) > 0 && RetiredAt(Held(runs, oldest), b, g)
  {
    var n := |runs| - 1;
    var last := if runs[n].gen <= oldest then [] else [runs[n]];
    MultConcat(Held(runs[..n], oldest), last, b);
    OfGenConcat(Held(runs[..n], oldest), last, g);
    MultConcat(OfGen(Held(runs[..n], oldest), g), OfGen(last, g), b);
    var own := if runs[n].gen == g then [runs[n]] else [];
    MultConcat(OfGen(runs[..n], g), own, b);
    if RetiredAt(runs[..n], b, g) {
      HeldByGen(runs[..n], oldest, b, g);
    } else {
      assert last == [runs[n]] && OfGen(last[..0], g) == [] && OfGen(last, g) == last;
    }
  }

  /** Every block of a snapshot is inside the committed range. */
  lemma {:induction false} ProtectedBound(reach: seq<Run>, g: nat, o: Loaded, b: int)
    requires ValidLoaded(o) && Protected(reach, g, o) && Mult(reach, b) > 0
    ensures o.common <= b < o.start
  {
    CoverOfLoaded(o, b);
    if Mult(o.reachable, b) == 0 {
      var h: nat :| h > g && RetiredAt(o.retired, b, h);
      OfGenBelow(o.retired, h, b);
    }
  }

  /** Staging, begun when `oldest` was no later than any reader's generation, never
      writes a block of the current generation or of a reader. */
  lemma {:induction false} StagingSpares(reach: seq<Run>, g: nat, o: Loaded, oldest: nat, b: int)
    requires ValidLoaded(o) && Protected(reach, g, o) && oldest <= g && MayStage(o, oldest, b)
    ensures Mult(reach, b) == 0
  {
    CoverOfLoaded(o, b);
    EligibleOrHeld(o.retired, oldest, b);
    MultConcat(o.free, Eligible(o.retired, oldest), b);
    if Mult(reach, b) > 0 {
      ProtectedBound(reach, g, o, b);
      if Mult(o.reachable, b) == 0 {
        var h: nat :| h > g && RetiredAt(o.retired, b, h);
        HeldByGen(o.retired, oldest, b, h);
      }
    }
  }

  lemma {:induction false} CurrentProtected(o: Loaded)
    ensures Protected(o.reachable, o.generation, o)
  {
  }

  /** A commit never writes a block of a reader it respects. */
  lemma {:induction false} CommitSpares(reach: seq<Run>, g: nat, o: Loaded, oldest: nat, staged: Staged, retained: seq<Run>, plan: Plan, b: int)
    requires plan.Planned? && ValidLoaded(o) && Protected(reach, g, o) && oldest <= g
    requires Balance(o, oldest, staged, retained, plan, b)
    requires Mult(Written(plan), b) > 0
    ensures Mult(reach, b) == 0
  {
    WritesAreSafe(o, oldest, staged, retained, plan, b);
    if Mult(reach, b) > 0 && Mult(o.reachable, b) == 0 {
      var h: nat :| h > g && RetiredAt(o.retired, b, h);
      HeldByGen(o.retired, oldest, b, h);
    }
  }

  /** After the commit the reader's blocks are still kept: retained, still held, or
      retired by the new generation. */
  lemma {:induction false} CommitProtects(reach: seq<Run>, g: nat, o: Loaded, oldest: nat, staged: Staged, retained: seq<Run>, plan: Plan)
    requires plan.Planned? && Protected(reach, g, o) && oldest <= g
    requires RetiresExactly(o, oldest, retained, plan.retired)
    ensures Protected(reach, g, NextLoaded(o, staged, retained, plan))
  {
    var next := NextLoaded(o, staged, retained, plan);
    forall b | Mult(reach, b) > 0 ensures Mult(next.reachable, b) > 0 || RetiredAfter(next.retired, b, g) {
      NewReachableCover(plan, staged.pending, retained, b);
      if Mult(retained, b) == 0 {
        if Mult(o.reachable, b) > 0 {
          assert RetiredAt(plan.retired, b, o.generation + 1);
        } else {
          var h: nat :| h > g && RetiredAt(o.retired, b, h);
          HeldByGen(o.retired, oldest, b, h);
          assert RetiredAt(plan.retired, b, h);
        }
      }
    }
  }

  /** With no reader older than the current generation, every retired run is eligible;
      so it makes no difference whether there was no reader or one that just began. */
  lemma {:induction false} EligibleAll(runs: seq<Run>, g: nat, h: nat)
    requires g <= h && forall r :: r in runs ==> r.gen <= g
    ensures Eligible(runs, h) == Eligible(runs, g) == runs
    ensures Held(runs, h) == Held(runs, g) == []
  {
    if runs != [] {
      var n := |runs| - 1;
      forall r | r in runs[..n] ensures r.gen <= g { assert r in runs; }
      EligibleAll(runs[..n], g, h);
      assert runs[n] in runs && runs == runs[..n] + [runs[n]];
    }
  }

  /** The generation a commit must respect: an oldest reader that begins after planning
      has the current generation, which changes nothing. */
  function Respected(o: Loaded, oldest: nat): nat {
    if oldest <= o.generation then oldest else o.generation
  }

  lemma {:induction false} UnplannableRespects(o: Loaded, oldest: nat, staged: Staged, retained: seq<Run>, rounds: seq<Attempt>, page: nat, sizes: PageSizes)
    requires ValidLoaded(o) && Unplannable(o, oldest, staged, retained, rounds, page, sizes)
    ensures Unplannable(o, Respected(o, oldest), staged, retained, rounds, page, sizes)
  {
    if oldest > o.generation {
      EligibleAll(o.retired, o.generation, oldest);
      var at :| GaveUpFrom(at, o, oldest, staged, retained, rounds, page, sizes);
      assert GaveUpFrom(at, o, o.generation, staged, retained, rounds, page, sizes);
    }
  }

  lemma {:induction false} PlanRespects(o: Loaded, oldest: nat, staged: Staged, retained: seq<Run>, plan: Plan)
    requires plan.Planned? && ValidLoaded(o) && PlanSound(o, oldest, staged, retained, plan)
    ensures PlanSound(o, Respected(o, oldest), staged, retained, plan)
  {
    if oldest > o.generation {
      EligibleAll(o.retired, o.generation, oldest);
      forall b ensures Balance(o, o.generation, staged, retained, plan, b) {
        assert Balance(o, oldest, staged, retained, plan, b);
      }
    }
  }

  lemma {:induction false} PlacedRespects(o: Loaded, oldest: nat, staged: Staged, counts: seq<nat>, plan: Plan)
    requires plan.Planned? && ValidLoaded(o) && PlacedFirst(o, oldest, staged, counts, plan)
    ensures PlacedFirst(o, Respected(o, oldest), staged, counts, plan)
  {
    if oldest > o.generation {
      EligibleAll(o.retired, o.generation, oldest);
      var free, next :| Pooled(o, oldest, staged, free, next)
                        && var d := FirstFits(free, next, counts);
                           plan.extents == d.extents && plan.allocatorRoot == Run(FitStart(d.free, d.next, 1), 1, 0);
      assert Pooled(o, o.generation, staged, free, next);
    }
  }

  /** What planning a commit comes to: a plan that is sound, with its extents where they
      first fit and indexes that describe it, or a reason why there is none. */
  ghost predicate PlanFor(o: Loaded, oldest: nat, staged: Staged, retained: seq<Run>, counts: seq<nat>, page: nat, sizes: PageSizes,
                          plan: Plan, rounds: seq<Attempt>)
  {
    if plan.Planned? then
      && PlanSound(o, oldest, staged, retained, plan) && PlacedFirst(o, oldest, staged, counts, plan)
      && Indexed(plan, rounds, page, sizes)
    else
      Unplannable(o, oldest, staged, retained, rounds, page, sizes) && !NoPages(sizes)
  }

  /** Plan a commit so that the plan stays sound for readers that begin later. */
  method PlanRespecting(o: Loaded, oldest: nat, staged: Staged, ghost stagedOldest: nat, retained: seq<Run>,
                        counts: seq<nat>, page: nat, sizes: PageSizes)
    returns (plan: Plan, ghost rounds: seq<Attempt>)
    requires page > 0 && CommitReady(o, oldest, staged, stagedOldest, retained)
    requires NoEmptyPages(sizes) && forall i :: 0 <= i < |counts| ==> counts[i] > 0
    ensures PlanFor(o, Respected(o, oldest), staged, retained, counts, page, sizes, plan, rounds)
  {
    plan, rounds := PlanCommit(o, oldest, staged, stagedOldest, retained, counts, page, sizes);
    if plan.Planned? {
      PlanRespects(o, oldest, staged, retained, plan);
      PlacedRespects(o, oldest, staged, counts, plan);
    } else {
      UnplannableRespects(o, oldest, staged, retained, rounds, page, sizes);
    }
  }
}
