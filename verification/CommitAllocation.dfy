/** How a commit re-partitions the blocks of the file: eligible retired runs become
    free, staged Blob chunks are taken out, the old generation's extents are
    retired, new extents are allocated first-fit, retained extents are taken back,
    and the two allocator indexes reserve the blocks they are themselves stored in. */
module CommitAllocation {
  import opened ExtentRuns
  import opened Retirement

  // ---------------------------------------------------------------- eligibility

  /** Retired runs no active reader can need. */
  function Eligible(runs: seq<Run>, oldestReader: nat): seq<Run> {
    if runs == [] then []
    else
      var n := |runs| - 1;
      Eligible(runs[..n], oldestReader) + if runs[n].gen <= oldestReader then [runs[n]] else []
  }

  /** Retired runs that are still held for some active reader. */
  function Held(runs: seq<Run>, oldestReader: nat): seq<Run> {
    if runs == [] then []
    else
      var n := |runs| - 1;
      Held(runs[..n], oldestReader) + if runs[n].gen <= oldestReader then [] else [runs[n]]
  }

  /** Run by run: those of a generation no later than the oldest reader's, and the others. */
  lemma {:induction false} EligibleMembers(runs: seq<Run>, oldestReader: nat, r: Run)
    ensures r in Eligible(runs, oldestReader) <==> r in runs && r.gen <= oldestReader
    ensures r in Held(runs, oldestReader) <==> r in runs && r.gen > oldestReader
  {
    if runs != [] {
      EligibleMembers(runs[..|runs| - 1], oldestReader, r);
      assert runs == runs[..|runs| - 1] + [runs[|runs| - 1]];
    }
  }

  lemma {:induction false} EligibleOrHeld(runs: seq<Run>, oldestReader: nat, b: int)
    ensures Mult(Eligible(runs, oldestReader), b) + Mult(Held(runs, oldestReader), b) == Mult(runs, b)
  {
    if runs != [] {
      var n := |runs| - 1;
      EligibleOrHeld(runs[..n], oldestReader, b);
      var e := if runs[n].gen <= oldestReader then [runs[n]] else [];
      var h := if runs[n].gen <= oldestReader then [] else [runs[n]];
      MultConcat(Eligible(runs[..n], oldestReader), e, b);
      MultConcat(Held(runs[..n], oldestReader), h, b);
      assert [runs[n]][..0] == [];
    }
  }

  /** Raising the oldest reader's generation only makes more runs eligible. */
  lemma {:induction false} EligibleMonotone(runs: seq<Run>, older: nat, newer: nat, b: int)
    requires older <= newer
    ensures Mult(Eligible(runs, older), b) <= Mult(Eligible(runs, newer), b)
  {
    if runs != [] {
      var n := |runs| - 1;
      EligibleMonotone(runs[..n], older, newer, b);
      MultConcat(Eligible(runs[..n], older), if runs[n].gen <= older then [runs[n]] else [], b);
      MultConcat(Eligible(runs[..n], newer), if runs[n].gen <= newer then [runs[n]] else [], b);
    }
  }

  /** The start of a commit: persisted free runs and eligible retired runs together. */
  method ClassifyRetired(persistedFree: seq<Run>, persistedRetired: seq<Run>, oldestReader: nat)
    returns (free: seq<Run>, held: seq<Run>)
    ensures SameCover(free, persistedFree + Eligible(persistedRetired, oldestReader))
    ensures AllGen(persistedFree, 0) ==> AllGen(free, 0)
    ensures held == Held(persistedRetired, oldestReader)
  {
    free, held := persistedFree, [];
    ghost var eligible: seq<Run> := [];
    assert persistedFree + eligible == persistedFree;
    for n := 0 to |persistedRetired|
      invariant held == Held(persistedRetired[..n], oldestReader)
      invariant eligible == Eligible(persistedRetired[..n], oldestReader)
      invariant SameCover(free, persistedFree + eligible)
      invariant AllGen(persistedFree, 0) ==> AllGen(free, 0)
    {
      var run := persistedRetired[n];
      assert persistedRetired[..n + 1][..n] == persistedRetired[..n];
      if oldestReader < run.gen {
        held := held + [run];
      } else {
        MultPush(free, Run(run.start, run.count, 0));
        MultPush(persistedFree + eligible, run);
        assert persistedFree + (eligible + [run]) == persistedFree + eligible + [run];
        free := free + [Run(run.start, run.count, 0)];
        eligible := eligible + [run];
      }
    }
    assert persistedRetired[..|persistedRetired|] == persistedRetired;
    free := Coalesce(free);
  }

  // ---------------------------------------------------------------- staged Blob chunks

  /** What a write transaction's Blob staging allocator hands to its commit. */
  datatype Staged = Staged(free: seq<Run>, next: nat, discarded: seq<Run>, pending: seq<Run>)

  function WholeBeyond(runs: seq<Run>, start: nat): seq<Run> {
    if runs == [] then []
    else
      var n := |runs| - 1;
      WholeBeyond(runs[..n], start) + if runs[n].start >= start then [Run(runs[n].start, runs[n].count, 0)] else []
  }

  /** Staging splits the initial free runs and the appended tail without overlap
      among its free runs, pending chunks and discarded chunks. */
  ghost predicate StagingConserves(s: Staged, initialFree: seq<Run>, start: nat) {
    && start <= s.next
    && forall b :: Mult(s.free, b) + Mult(s.pending, b) + Mult(s.discarded, b)
                   == Mult(initialFree, b) + One(start <= b < s.next)
  }

  /** A discarded chunk that begins below the committed boundary and ends above it. */
  ghost predicate Straddles(r: Run, start: nat) { r.start < start < r.End() }

  ghost predicate NoneStraddles(runs: seq<Run>, start: nat) {
    forall i :: 0 <= i < |runs| ==> !Straddles(runs[i], start)
  }

  /** Blocks above the boundary that belong to straddling runs. */
  ghost function Lost(runs: seq<Run>, start: nat, b: int): int {
    if b >= start then Mult(runs, b) - Mult(WholeBeyond(runs, start), b) else 0
  }

  lemma {:induction false} WholeBeyondBelow(runs: seq<Run>, start: nat, b: int)
    ensures Mult(WholeBeyond(runs, start), b) <= Mult(runs, b)
    ensures b < start ==> Mult(WholeBeyond(runs, start), b) == 0
  {
    if runs != [] {
      var n := |runs| - 1;
      WholeBeyondBelow(runs[..n], start, b);
      MultConcat(WholeBeyond(runs[..n], start),
                 if runs[n].start >= start then [Run(runs[n].start, runs[n].count, 0)] else [], b);
    }
  }

  /** Nothing is lost exactly when no discarded chunk straddles the boundary. */
  lemma {:induction false} LostIffStraddles(runs: seq<Run>, start: nat)
    ensures (forall b :: Lost(runs, start, b) == 0) <==> NoneStraddles(runs, start)
    ensures forall b :: Lost(runs, start, b) >= 0
  {
    forall b ensures Lost(runs, start, b) >= 0 { WholeBeyondBelow(runs, start, b); }
    if runs != [] {
      var n := |runs| - 1;
      var last := if runs[n].start >= start then [Run(runs[n].start, runs[n].count, 0)] else [];
      LostIffStraddles(runs[..n], start);
      forall b
        ensures Lost(runs, start, b)
             == Lost(runs[..n], start, b) + One(b >= start && runs[n].Has(b) && runs[n].start < start)
      {
        MultConcat(WholeBeyond(runs[..n], start), last, b);
        assert last != [] ==> last[..0] == [];
      }
      assert forall i :: 0 <= i < n ==> runs[..n][i] == runs[i];
      if NoneStraddles(runs, start) {
        assert NoneStraddles(runs[..n], start);
      } else if NoneStraddles(runs[..n], start) {
        assert Straddles(runs[n], start);
        assert Lost(runs, start, start) >= 1;
      } else {
        var b :| Lost(runs[..n], start, b) != 0;
        assert Lost(runs, start, b) != 0;
      }
    }
  }

  /** The parts of the staging free runs that lie beyond the committed boundary. */
  method TailParts(runs: seq<Run>, start: nat) returns (tail: seq<Run>)
    ensures forall b :: Mult(tail, b) == if b >= start then Mult(runs, b) else 0
    ensures AllGen(tail, 0)
  {
    tail := [];
    for n := 0 to |runs|
      invariant forall b :: Mult(tail, b) == if b >= start then Mult(runs[..n], b) else 0
      invariant AllGen(tail, 0)
    {
      MultStep(runs, n);
      var r := runs[n];
      if r.End() > start {
        var from := Max(r.start, start);
        MultPush(tail, Run(from, r.End() - from, 0));
        tail := tail + [Run(from, r.End() - from, 0)];
      }
    }
    assert runs[..|runs|] == runs;
  }

  method DiscardedBeyond(runs: seq<Run>, start: nat) returns (tail: seq<Run>)
    ensures tail == WholeBeyond(runs, start) && AllGen(tail, 0)
  {
    tail := [];
    for n := 0 to |runs|
      invariant tail == WholeBeyond(runs[..n], start) && AllGen(tail, 0)
    {
      assert runs[..n + 1][..n] == runs[..n];
      if runs[n].start >= start {
        tail := tail + [Run(runs[n].start, runs[n].count, 0)];
      }
    }
    assert runs[..|runs|] == runs;
  }

  /** Free blocks once staging has been taken into account, exactly as the code
      computes them: a discarded chunk below the boundary is not given back. */
  ghost function AbsorbedFree(free: seq<Run>, start: nat, s: Staged, b: int): nat {
    if Mult(s.pending, b) > 0 then 0
    else Mult(free, b) + (if b >= start then Mult(s.free, b) else 0) + Mult(WholeBeyond(s.discarded, start), b)
  }

  method AbsorbStaging(free: seq<Run>, start: nat, s: Staged) returns (free': seq<Run>, next: nat)
    ensures forall b :: Mult(free', b) == AbsorbedFree(free, start, s, b)
    ensures next == Max(start, s.next)
    ensures AllGen(free, 0) ==> AllGen(free', 0)
  {
    next := Max(start, s.next);
    var tail := TailParts(s.free, start);
    var discarded := DiscardedBeyond(s.discarded, start);
    forall b ensures Mult(free + tail + discarded, b) == Mult(free, b) + Mult(tail, b) + Mult(discarded, b) {
      MultConcat(free + tail, discarded, b);
      MultConcat(free, tail, b);
    }
    var pool := RemoveAll(free + tail + discarded, s.pending);
    if AllGen(free, 0) {
      WithoutGen(free + tail + discarded, s.pending);
    }
    free' := Coalesce(pool);
  }

  /** Staging loses nothing but the upper parts of straddling discarded chunks. */
  lemma {:induction false} AbsorbBalance(free: seq<Run>, start: nat, s: Staged, initialFree: seq<Run>, b: int)
    requires StagingConserves(s, initialFree, start)
    requires Mult(initialFree, b) <= Mult(free, b) <= 1
    requires b >= start ==> Mult(free, b) == 0
    ensures AbsorbedFree(free, start, s, b) + Mult(s.pending, b) + One(b >= s.next) + Lost(s.discarded, start, b)
         == Mult(free, b) + One(b >= start)
    ensures Mult(s.pending, b) <= Mult(free, b) + One(b >= start)
  {
    WholeBeyondBelow(s.discarded, start, b);
  }

  // ---------------------------------------------------------------- retirement

  function Relabelled(runs: seq<Run>, g: nat): (out: seq<Run>)
    ensures |out| == |runs|
    ensures forall i :: 0 <= i < |runs| ==> out[i] == Run(runs[i].start, runs[i].count, g)
  {
    seq(|runs|, i requires 0 <= i < |runs| => Run(runs[i].start, runs[i].count, g))
  }

  lemma {:induction false} RelabelledCover(runs: seq<Run>, g: nat, b: int)
    ensures Mult(Relabelled(runs, g), b) == Mult(runs, b)
  {
    if runs != [] {
      var n := |runs| - 1;
      RelabelledCover(runs[..n], g, b);
      assert Relabelled(runs, g)[..n] == Relabelled(runs[..n], g);
    }
  }

  /** Generation by generation: the held runs, and the old extents under the new one. */
  ghost predicate RetiredOver(retired: seq<Run>, held: seq<Run>, reachable: seq<Run>, generation: nat) {
    forall b: int, g: nat :: Mult(OfGen(retired, g), b) == OverAt(held, reachable, generation, b, g)
  }

  ghost function OverAt(held: seq<Run>, reachable: seq<Run>, generation: nat, b: int, g: nat): nat {
    Mult(OfGen(held, g), b) + if g == generation then Mult(reachable, b) else 0
  }

  lemma {:induction false} RetiredOverBy(retired: seq<Run>, held: seq<Run>, newly: seq<Run>, reachable: seq<Run>, generation: nat)
    requires AllGen(newly, generation) && SameCover(newly, reachable) && retired == held + newly
    ensures RetiredOver(retired, held, reachable, generation)
  {
    forall b: int, g: nat ensures Mult(OfGen(retired, g), b) == OverAt(held, reachable, generation, b, g) {
      OfGenConcat(held, newly, g);
      OfGenUniform(newly, g, generation);
      MultConcat(OfGen(held, g), OfGen(newly, g), b);
    }
  }

  /** The old generation's extents retire at `generation`, merged where they touch. */
  method RetireReachable(held: seq<Run>, reachable: seq<Run>, generation: nat) returns (retired: seq<Run>)
    requires Positive(held) && Disjoint(reachable)
    requires forall r :: r in held ==> r.gen < generation
    ensures SameCover(retired, held + reachable)
    ensures Positive(retired)
    ensures NoneTouch(held) ==> NoneTouch(retired)
    ensures forall r :: r in retired ==> r in held || r.gen == generation
    ensures RetiredOver(retired, held, reachable, generation)
  {
    var relabelled := Relabelled(reachable, generation);
    forall b ensures Mult(relabelled, b) == Mult(reachable, b) {
      RelabelledCover(reachable, generation, b);
    }
    var newly := Coalesce(relabelled);
    assert AllGen(relabelled, generation);
    retired := held + newly;
    forall b ensures Mult(retired, b) == Mult(held + reachable, b) {
      MultConcat(held, newly, b);
      MultConcat(held, reachable, b);
    }
    RetiredOverBy(retired, held, newly, reachable, generation);
    if NoneTouch(held) {
      SeparatedNoneTouch(newly);
    }
  }

  lemma {:induction false} SeparatedNoneTouch(runs: seq<Run>)
    requires Separated(runs)
    ensures NoneTouch(runs)
  {
    forall x, y | x in runs && y in runs ensures x.End() != y.start {
      var i :| 0 <= i < |runs| && runs[i] == x;
      var j :| 0 <= j < |runs| && runs[j] == y;
      assert i < j ==> runs[i].End() < runs[j].start;
      assert j < i ==> runs[j].End() < runs[i].start;
    }
  }
}
