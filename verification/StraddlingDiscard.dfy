/** A discarded chunk can straddle the committed boundary, and its upper blocks are
    then in no list of the next generation. */
module StraddlingDiscard {
  import opened ExtentRuns
  import opened CommitAllocation
  import opened StagingRuns

  lemma {:induction false} OneRun(r: Run)
    ensures forall b :: Mult([r], b) == One(r.Has(b))
  {
    MultPush([], r);
    assert [] + [r] == [r];
  }

  /** Two free blocks end at the committed boundary 100.  A four-block chunk does not
      fit and is appended; given back, it joins the free run in front of it.  The
      next four-block chunk is cut from the joined run, across the boundary, and
      then discarded: blocks 100 and 101 are lost. */
  method LostBlocks() returns (staged: Staged, free: seq<Run>, next: nat)
    ensures StagingConserves(staged, [Run(98, 2, 0)], 100)
    ensures !NoneStraddles(staged.discarded, 100)
    ensures next == 104
    ensures forall b :: Mult(free, b) + Mult(staged.pending, b) == One(98 <= b < 100 || 102 <= b < 104)
  {
    var initial := [Run(98, 2, 0)];
    OneRun(Run(98, 2, 0));
    assert FitIndex(initial, 4) == 1;
    var at, free1, next1 := AllocateBlocks(initial, 100, 4);
    assert at == 100 && free1 == initial && next1 == 104;
    var joined := InsertFreeRun(initial, Run(100, 4, 0));
    forall b ensures Mult(joined, b) == One(98 <= b < 104) {
      GappedOnce(joined, b);
      assert Covers(joined, b) <==> Covers(initial, b) || Run(100, 4, 0).Has(b);
    }
    CoverIsOneRun(joined, 98, 104);
    FitIndexIs(joined, 4, 0);
    var second, free2, next2 := AllocateBlocks(joined, next1, 4);
    staged := Staged(free2, next2, [Run(second, 4, 0)], []);
    OneRun(Run(second, 4, 0));
    OneRun(free2[0]);
    assert Straddles(staged.discarded[0], 100);
    free, next := AbsorbStaging(initial, 100, staged);
    assert WholeBeyond(staged.discarded[..0], 100) == [];
    assert WholeBeyond(staged.discarded, 100) == [];
  }
}
