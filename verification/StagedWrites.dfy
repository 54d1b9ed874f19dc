/** Blob staging inside a session: the blocks a transaction's staging allocator owns are
    blocks that the session allows to be written. */
module StagedWrites {
  import opened ExtentRuns
  import opened CommitAllocation
  import opened CommitPlan
  import opened SnapshotSafety
  import opened BlobStaging
  import opened BlobTransaction

  /** The staging allocator was set up from this generation's free runs and the retired
      runs eligible at `oldest`. */
  ghost predicate StagesOver(c: Setting, o: Loaded, oldest: nat) {
    c.start == o.start && SameCover(c.initial, o.free + Eligible(o.retired, oldest))
  }

  /** Whatever staging owns, in whatever state, it may write. */
  lemma {:induction false} OwnedMayStage(s: State, c: Setting, o: Loaded, oldest: nat, b: int)
    requires Ok(s, c) && StagesOver(c, o, oldest) && s.owners(b) != Nobody
    ensures MayStage(o, oldest, b)
  {
    assert Mult(c.initial, b) > 0 || c.start <= b < s.lists.next;
    assert Mult(c.initial, b) == Mult(o.free + Eligible(o.retired, oldest), b);
  }

  /** So no chunk, prepared, of an open writer, pending, discarded or free again, ever
      touches a block that a reader no older than `oldest` can reach. */
  lemma {:induction false} StagingSparesReaders(s: State, c: Setting, o: Loaded, oldest: nat, reach: seq<Run>, g: nat, b: int)
    requires Ok(s, c) && StagesOver(c, o, oldest) && ValidLoaded(o) && Protected(reach, g, o) && oldest <= g
    requires Mult(reach, b) > 0
    ensures s.owners(b) == Nobody
  {
    if s.owners(b) != Nobody {
      OwnedMayStage(s, c, o, oldest, b);
      StagingSpares(reach, g, o, oldest, b);
    }
  }

  /** A checkpoint stages nothing; its commit starts from the whole pool. */
  lemma {:induction false} NothingStaged(o: Loaded, oldest: nat)
    ensures StagingConserves(Staged(o.free + Eligible(o.retired, oldest), o.start, [], []), o.free + Eligible(o.retired, oldest), o.start)
    ensures NoneStraddles([], o.start)
  {
  }
}
