/** A new store, and its first commit. */
module Creation {
  import opened Basics
  import opened ExtentRuns
  import opened CommitAllocation
  import opened CommitPlan
  import opened BlobContent
  import opened DurableFile
  import opened LittleEndian
  import opened Publication
  import opened CommitProtocol
  import opened CommitWriting
  import opened Store
  import SlotCode

  /** Generation 1: no roots, and no block beyond the common region. */
  function FirstPub(index: nat, profile: Profile): Pub {
    Pub(index, 1, 0, [0, 0, 0], profile.common)
  }

  function FirstLoaded(profile: Profile): Loaded {
    Loaded(profile.common, profile.common, 1, [], [], [])
  }

  ghost predicate Creatable(profile: Profile, open: Opener, seal: Pub -> Bytes, bootstrap: Bytes) {
    ProfileOk(profile) && profile.common <= profile.maxBlocks && Sealing(open, seal) && |bootstrap| == BOOTSTRAP_BYTES
  }

  function CommonRegion(profile: Profile, seal: Pub -> Bytes, bootstrap: Bytes): Bytes {
    var start := bootstrap + seal(FirstPub(0, profile)) + seal(FirstPub(1, profile));
    Resized(start, Span(profile.common, profile.quantum))
  }

  lemma {:induction false} FirstSlots(profile: Profile, open: Opener, seal: Pub -> Bytes, bootstrap: Bytes)
    requires Creatable(profile, open, seal, bootstrap)
    ensures var bytes := CommonRegion(profile, seal, bootstrap);
            && |bytes| == Span(profile.common, profile.quantum) >= SlotStart(2)
            && SlotAt(bytes, 0) == seal(FirstPub(0, profile)) && SlotAt(bytes, 1) == seal(FirstPub(1, profile))
  {
    assert Sealable(FirstPub(0, profile)) && Sealable(FirstPub(1, profile));
    var slot0, slot1 := seal(FirstPub(0, profile)), seal(FirstPub(1, profile));
    var start := bootstrap + slot0 + slot1;
    var bytes := CommonRegion(profile, seal, bootstrap);
    assert start[..|start|] == start;
    assert bytes[..SlotStart(2)] == start;
    assert SlotAt(bytes, 0) == start[SlotStart(0)..SlotStart(0) + SLOT_BYTES] == slot0;
    assert SlotAt(bytes, 1) == start[SlotStart(1)..SlotStart(1) + SLOT_BYTES] == slot1;
  }

  lemma {:induction false} FirstSettled(profile: Profile, open: Opener, seal: Pub -> Bytes, bootstrap: Bytes)
    requires Creatable(profile, open, seal, bootstrap)
    ensures var bytes := CommonRegion(profile, seal, bootstrap);
            Settled(bytes, [], open, profile, Gen(FirstPub(1, profile), [], bytes))
  {
    FirstSlots(profile, open, seal, bootstrap);
    assert Sealable(FirstPub(0, profile)) && Sealable(FirstPub(1, profile));
  }

  lemma {:induction false} FirstValid(profile: Profile)
    ensures ValidLoaded(FirstLoaded(profile))
  {
    var none: seq<Run> := [];
    assert none + none + none == none;
  }

  /** Create a store: both slots name generation 1. */
  method Create(profile: Profile, open: Opener, seal: Pub -> Bytes, bootstrap: Bytes) returns (s: Session)
    requires Creatable(profile, open, seal, bootstrap)
    ensures fresh(s) && fresh(s.file) && s.Valid() && s.state == Open && s.readers == map[]
    ensures s.profile == profile && s.open == open && s.seal == seal && s.loaded == FirstLoaded(profile)
    ensures s.file.stable == CommonRegion(profile, seal, bootstrap)
  {
    FirstSettled(profile, open, seal, bootstrap);
    FirstValid(profile);
    var file := new MemoryDurableFile(CommonRegion(profile, seal, bootstrap));
    s := new Session(file, profile, open, seal, FirstLoaded(profile), Gen(FirstPub(1, profile), [], file.bytes));
  }

  // ---------------------------------------------------------------- the first commit

  /** Nothing but an allocator root. */
  function FirstPlan(common: nat): Plan {
    Planned([], [], [], Run(common, 1, 0), [], [], common + 1)
  }

  ghost predicate AlwaysPublishable(o: Loaded, staged: Staged, plan: Plan) {
    plan.Planned? && forall oldest :: Publishable(o, oldest, staged, [], plan)
  }

  lemma {:induction false} FirstSound(profile: Profile, o: Loaded, staged: Staged, plan: Plan)
    requires o == FirstLoaded(profile) && staged == Staged([], profile.common, [], []) && plan == FirstPlan(profile.common)
    ensures AlwaysPublishable(o, staged, plan)
  {
    var common := profile.common;
    assert Written(plan) == [Run(common, 1, 0)];
    forall oldest ensures Publishable(o, oldest, staged, [], plan) {
      assert forall b :: Balance(o, oldest, staged, [], plan, b);
    }
  }

  lemma {:induction false} RejectsTears(profile: Profile, open: Opener, seal: Pub -> Bytes, bootstrap: Bytes, stable: Bytes, q: Pub)
    requires Creatable(profile, open, seal, bootstrap) && SlotCode.NoForgery(open, seal) && Sealable(q) && q.index == 0
    requires stable == CommonRegion(profile, seal, bootstrap)
    ensures TearsRejected(stable, open, seal, q)
  {
    FirstSlots(profile, open, seal, bootstrap);
    assert SlotCode.NeverThird(open, seal, FirstPub(0, profile), q);
  }

  /** Commit a plan without faults. */
  method CommitStaged(s: Session, plan: Plan, staged: Staged, content: Content, roots: seq<nat>)
    requires s.Valid() && s.state == Open && s.staging.Some? && 0 < s.loaded.generation && s.loaded.generation + 1 < U64
    requires plan.Planned? && plan.next <= s.profile.maxBlocks && Publishable(s.loaded, s.staging.value, staged, [], plan)
    requires ContentFits(content, s.profile.quantum) && RootsFit(roots)
    requires TearsRejected(s.file.stable, s.open, s.seal, NextPub(s.loaded, roots, plan.next))
    modifies s, s.file
    ensures s.Valid() && s.state == Open && s.loaded == NextLoaded(old(s.loaded), staged, [], plan)
  {
    NothingFails(WriteLengths(plan, s.profile.quantum));
    var result;
    ghost var next;
    result, next := s.Commit(plan, staged, [], content, roots, 4096, []);
    assert result == Finished(Committed);
  }

  method CommitPlanned(s: Session, plan: Plan, staged: Staged, content: Content, roots: seq<nat>)
    requires s.Valid() && s.state == Open && 0 < s.loaded.generation && s.loaded.generation + 1 < U64
    requires plan.Planned? && plan.next <= s.profile.maxBlocks && AlwaysPublishable(s.loaded, staged, plan)
    requires ContentFits(content, s.profile.quantum) && RootsFit(roots)
    requires TearsRejected(s.file.stable, s.open, s.seal, NextPub(s.loaded, roots, plan.next))
    modifies s, s.file
    ensures s.Valid() && s.state == Open && s.loaded == NextLoaded(old(s.loaded), staged, [], plan)
  {
    var free := s.BeginStaging();
    CommitStaged(s, plan, staged, content, roots);
  }

  method CommitEmpty(s: Session, content: Content, roots: seq<nat>)
    requires s.Valid() && s.state == Open && s.loaded == FirstLoaded(s.profile) && s.profile.common < s.profile.maxBlocks
    requires ContentFits(content, s.profile.quantum) && RootsFit(roots)
    requires TearsRejected(s.file.stable, s.open, s.seal, NextPub(s.loaded, roots, s.profile.common + 1))
    modifies s, s.file
    ensures s.Valid() && s.state == Open && s.loaded.generation == 2
  {
    var plan, staged := FirstPlan(s.profile.common), Staged([], s.profile.common, [], []);
    FirstSound(s.profile, s.loaded, staged, plan);
    CommitPlanned(s, plan, staged, content, roots);
  }

  /** A store can be created and can commit: the hypotheses of the protocol can be met. */
  method FirstCommit(profile: Profile, bootstrap: Bytes, roots: seq<nat>, content: Content) returns (s: Session)
    requires ProfileOk(profile) && profile.common < profile.maxBlocks && |bootstrap| == BOOTSTRAP_BYTES && RootsFit(roots)
    requires ContentFits(content, profile.quantum)
    ensures fresh(s) && s.Valid() && s.state == Open && s.loaded.generation == 2
  {
    var open, seal := SlotCode.SlotFunctions();
    s := Create(profile, open, seal, bootstrap);
    RejectsTears(s.profile, s.open, s.seal, bootstrap, s.file.stable, NextPub(s.loaded, roots, s.profile.common + 1));
    CommitEmpty(s, content, roots);
  }
}
