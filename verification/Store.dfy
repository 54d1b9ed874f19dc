/** The whole store over whole runs: readers come and go, chunks are staged, commits
    and checkpoints succeed or fail at any operation, and the machine may crash at any
    moment.  `Valid` is what every step keeps. */
module Store {
  import opened ExtentRuns
  import opened CommitAllocation
  import opened MetadataReservation
  import opened CommitPlan
  import opened SnapshotSafety
  import opened Basics
  import opened BlobContent
  import opened DurableFile
  import opened LittleEndian
  import opened Publication
  import opened CommitProtocol
  import opened CommitWriting

  const NO_READER: nat := 0xFFFF_FFFF_FFFF_FFFF

  // ---------------------------------------------------------------- runs and extents

  type Content = Run -> Bytes

  function ExtentsOf(runs: seq<Run>, content: Content): (out: seq<Extent>)
    ensures |out| == |runs|
    ensures forall i :: 0 <= i < |runs| ==> out[i] == Extent(runs[i].start, runs[i].count, content(runs[i]))
  {
    seq(|runs|, i requires 0 <= i < |runs| => Extent(runs[i].start, runs[i].count, content(runs[i])))
  }

  lemma {:induction false} InExtentsOf(runs: seq<Run>, content: Content, b: nat)
    ensures InExtents(ExtentsOf(runs, content), b) <==> Mult(runs, b) > 0
  {
    var extents := ExtentsOf(runs, content);
    if InExtents(extents, b) {
      var i :| 0 <= i < |extents| && InExtent(extents[i], b);
      MultOfMember(runs, i, b);
    }
    if Mult(runs, b) > 0 {
      var i := MultWitness(runs, b);
      assert InExtent(extents[i], b);
    }
  }

  lemma {:induction false} ExtentsApart(runs: seq<Run>, content: Content)
    requires Disjoint(runs)
    ensures Apart(ExtentsOf(runs, content))
  {
    var extents := ExtentsOf(runs, content);
    forall i, j, b: nat | 0 <= i < j < |extents| && InExtent(extents[i], b) ensures !InExtent(extents[j], b) {
      if InExtent(extents[j], b) {
        MultOfTwo(runs, i, j, b);
      }
    }
  }

  // ---------------------------------------------------------------- invariants

  /** The loaded allocator state is the one of this generation. */
  ghost predicate Matches(o: Loaded, g: Gen, profile: Profile) {
    && ValidLoaded(o)
    && o.common == profile.common && o.start == g.pub.highWater && o.generation < U64
    && o.generation == g.pub.generation && o.reachable == g.reach
  }

  /** A reader's snapshot is protected and the file still has its content. */
  ghost predicate SnapOk(s: Gen, o: Loaded, bytes: Bytes, quantum: nat) {
    && Protected(s.reach, s.pub.generation, o)
    && Intact(s, bytes, quantum)
  }

  ghost predicate Intact(s: Gen, bytes: Bytes, quantum: nat) {
    forall b: nat :: Mult(s.reach, b) > 0 ==> SameBlock(bytes, s.image, b, quantum)
  }

  lemma {:induction false} MatchesOk(o: Loaded, g: Gen, profile: Profile)
    requires Matches(o, g, profile)
    ensures GenOk(g, profile)
  {
    forall b | Mult(g.reach, b) > 0 ensures profile.common <= b < g.pub.highWater {
      CoverOfLoaded(o, b);
    }
  }

  lemma {:induction false} SnapKept(s: Gen, o: Loaded, was: Bytes, now: Bytes, extents: seq<Extent>, profile: Profile)
    requires ValidLoaded(o) && o.common == profile.common && SnapOk(s, o, was, profile.quantum)
    requires KeepsCommitted(was, now, extents, profile, o.start)
    requires forall b: nat :: Mult(s.reach, b) > 0 ==> !InExtents(extents, b)
    ensures Intact(s, now, profile.quantum)
  {
    forall b: nat | Mult(s.reach, b) > 0 ensures SameBlock(now, s.image, b, profile.quantum) {
      ProtectedBound(s.reach, s.pub.generation, o, b);
      assert SameBlock(was, s.image, b, profile.quantum);
      assert SameBlock(now, was, b, profile.quantum);
    }
  }

  /** The current generation is itself a snapshot a reader could take. */
  lemma {:induction false} CurrentSnap(stable: Bytes, muts: seq<Mutation>, open: Opener, profile: Profile, g: Gen, o: Loaded)
    requires Settled(stable, muts, open, profile, g) && Matches(o, g, profile)
    ensures SnapOk(g, o, Performed(stable, muts), profile.quantum)
  {
    SettledBarrier(stable, muts, open, profile, g);
    CurrentProtected(o);
  }

  lemma {:induction false} CommitAvoids(o: Loaded, g: Gen, profile: Profile, oldest: nat, staged: Staged, retained: seq<Run>, plan: Plan,
                     content: Content)
    requires plan.Planned? && Matches(o, g, profile) && Balanced(o, oldest, staged, retained, plan)
    requires Positive(Written(plan)) && forall r :: |content(r)| == Span(r.count, profile.quantum)
    ensures AvoidsReach(ExtentsOf(Written(plan), content), g)
    ensures ExtentsOk(ExtentsOf(Written(plan), content), profile)
  {
    var extents := ExtentsOf(Written(plan), content);
    forall i, b: nat | 0 <= i < |extents| && InExtent(extents[i], b) ensures Mult(g.reach, b) == 0 {
      WrittenSafe(o, oldest, staged, retained, plan, i, b);
    }
    forall i | 0 <= i < |extents| ensures ExtentOk(extents[i], profile) {
      WrittenSafe(o, oldest, staged, retained, plan, i, extents[i].start);
    }
  }

  lemma {:induction false} WrittenSafe(o: Loaded, oldest: nat, staged: Staged, retained: seq<Run>, plan: Plan, i: nat, b: nat)
    requires plan.Planned? && ValidLoaded(o) && Balanced(o, oldest, staged, retained, plan)
    requires i < |Written(plan)| && Written(plan)[i].Has(b)
    ensures Mult(o.reachable, b) == 0 && o.common <= b
  {
    MultOfMember(Written(plan), i, b);
    assert Balance(o, oldest, staged, retained, plan, b);
    WritesAreSafe(o, oldest, staged, retained, plan, b);
  }

  lemma {:induction false} SnapCommitted(s: Gen, o: Loaded, was: Bytes, now: Bytes, profile: Profile, oldest: nat, staged: Staged,
                      retained: seq<Run>, plan: Plan, content: Content)
    requires plan.Planned? && ValidLoaded(o) && o.common == profile.common && SnapOk(s, o, was, profile.quantum)
    requires oldest <= s.pub.generation && PlanSound(o, oldest, staged, retained, plan)
    requires KeepsCommitted(was, now, ExtentsOf(Written(plan), content), profile, o.start)
    ensures SnapOk(s, o, now, profile.quantum)
    ensures SnapOk(s, NextLoaded(o, staged, retained, plan), now, profile.quantum)
  {
    forall b: nat | Mult(s.reach, b) > 0 ensures !InExtents(ExtentsOf(Written(plan), content), b) {
      InExtentsOf(Written(plan), content, b);
      assert Balance(o, oldest, staged, retained, plan, b);
      if Mult(Written(plan), b) > 0 {
        CommitSpares(s.reach, s.pub.generation, o, oldest, staged, retained, plan, b);
      }
    }
    SnapKept(s, o, was, now, ExtentsOf(Written(plan), content), profile);
    CommitProtects(s.reach, s.pub.generation, o, oldest, staged, retained, plan);
  }

  // ---------------------------------------------------------------- staging

  /** The extent lies in blocks that staging may write. */
  ghost predicate Stageable(e: Extent, o: Loaded, oldest: nat, quantum: nat) {
    && e.count > 0 && |e.data| == Span(e.count, quantum)
    && forall b: nat :: InExtent(e, b) ==> MayStage(o, oldest, b)
  }

  lemma {:induction false} StageableOk(e: Extent, o: Loaded, oldest: nat, g: Gen, profile: Profile)
    requires Matches(o, g, profile) && Stageable(e, o, oldest, profile.quantum) && oldest <= o.generation
    ensures ExtentOk(e, profile) && forall b: nat :: InExtent(e, b) ==> Mult(g.reach, b) == 0
  {
    assert InExtent(e, e.start);
    CoverOfLoaded(o, e.start);
    EligibleOrHeld(o.retired, oldest, e.start);
    MultConcat(o.free, Eligible(o.retired, oldest), e.start);
    CurrentProtected(o);
    forall b: nat | InExtent(e, b) ensures Mult(g.reach, b) == 0 {
      StagingSpares(o.reachable, o.generation, o, oldest, b);
    }
  }

  lemma {:induction false} SnapStaged(s: Gen, o: Loaded, was: Bytes, now: Bytes, e: Extent, oldest: nat, profile: Profile)
    requires ValidLoaded(o) && SnapOk(s, o, was, profile.quantum) && o.common == profile.common
    requires Stageable(e, o, oldest, profile.quantum) && oldest <= s.pub.generation
    requires KeepsOutside(was, now, [e], o.start, profile.quantum)
    ensures SnapOk(s, o, now, profile.quantum)
  {
    forall b: nat | Mult(s.reach, b) > 0 ensures !InExtents([e], b) {
      if InExtent(e, b) {
        StagingSpares(s.reach, s.pub.generation, o, oldest, b);
      }
    }
    SnapKept(s, o, was, now, [e], profile);
  }

  lemma {:induction false} GrowKeeps(was: Bytes, length: nat, extents: seq<Extent>, n: nat, quantum: nat)
    requires |was| <= length
    ensures KeepsOutside(was, Resized(was, length), extents, n, quantum)
  {
    forall b: nat | b < n && Span(b, quantum) + quantum <= |was| ensures SameBlock(Resized(was, length), was, b, quantum) {
      ApplySpares(was, Resize(length), Span(b, quantum), Span(b, quantum) + quantum);
    }
  }

  // ---------------------------------------------------------------- publication

  /** The publication a commit makes. */
  function NextPub(o: Loaded, roots: seq<nat>, highWater: nat): Pub {
    Pub((o.generation + 1) % 2, o.generation + 1, o.generation, roots, highWater)
  }

  /** A sound plan whose partition is conserved. */
  ghost predicate Publishable(o: Loaded, oldest: nat, staged: Staged, retained: seq<Run>, plan: Plan)
    requires plan.Planned?
  {
    && PlanSound(o, oldest, staged, retained, plan) && RetainedOnce(o, retained) && Positive(staged.pending)
    && Disjoint(plan.reserved) && NoneStraddles(staged.discarded, o.start)
  }

  /** How many bytes each extent of a plan takes. */
  function WriteLengths(plan: Plan, quantum: nat): (lengths: seq<nat>)
    requires plan.Planned?
    ensures |lengths| == |Written(plan)| && forall i :: 0 <= i < |lengths| ==> lengths[i] == Span(Written(plan)[i].count, quantum)
  {
    var runs := Written(plan);
    seq(|runs|, i requires 0 <= i < |runs| => Span(runs[i].count, quantum))
  }

  lemma {:induction false} LengthsWritten(plan: Plan, content: Content, quantum: nat)
    requires plan.Planned? && ContentFits(content, quantum)
    ensures LengthsOf(ExtentsOf(Written(plan), content)) == WriteLengths(plan, quantum)
  {
  }

  ghost predicate ContentFits(content: Content, quantum: nat) {
    forall r :: |content(r)| == Span(r.count, quantum)
  }

  predicate RootsFit(roots: seq<nat>) {
    |roots| == 3 && roots[0] < U64 && roots[1] < U64 && roots[2] < U64
  }

  /** Whatever is in its slot now, a torn overwrite by this publication opens as that, as
      the publication, or not at all. */
  ghost predicate TearsRejected(stable: Bytes, open: Opener, seal: Pub -> Bytes, p: Pub) {
    p.index < 2 && SlotStart(2) <= |stable| && TearResistant(open, p.index, SlotAt(stable, p.index), seal(p))
  }

  /** A new generation's content: every written extent in its place, every staged chunk
      and every retained extent as it was in the file before. */
  ghost predicate Composed(image: Bytes, was: Bytes, staged: Staged, retained: seq<Run>, plan: Plan, content: Content, quantum: nat)
    requires plan.Planned?
  {
    && (forall i :: 0 <= i < |Written(plan)| ==> HoldsExtent(image, ExtentsOf(Written(plan), content)[i], quantum))
    && (forall b: nat :: Mult(staged.pending, b) + Mult(retained, b) > 0 && Span(b, quantum) + quantum <= |was|
          ==> SameBlock(image, was, b, quantum))
  }

  lemma {:induction false} WriteKeepsBlock(bytes: Bytes, e: Extent, b: nat, quantum: nat)
    requires |e.data| == Span(e.count, quantum) && !InExtent(e, b) && Span(b, quantum) + quantum <= |bytes|
    ensures SameBlock(Transferred(bytes, Span(e.start, quantum), e.data, |e.data|), bytes, b, quantum)
  {
    BlockApart(e, b, quantum);
    assert e.data[..|e.data|] == e.data;
    ApplySpares(bytes, Write(Span(e.start, quantum), e.data), Span(b, quantum), Span(b, quantum) + quantum);
  }

  lemma {:induction false} LaidKeeps(bytes: Bytes, extents: seq<Extent>, profile: Profile, b: nat)
    requires ExtentsOk(extents, profile) && !InExtents(extents, b) && Span(b, profile.quantum) + profile.quantum <= |bytes|
    ensures SameBlock(Laid(bytes, extents, profile.quantum), bytes, b, profile.quantum)
  {
    if extents != [] {
      var n := |extents| - 1;
      assert forall i :: 0 <= i < n ==> extents[..n][i] == extents[i];
      assert ExtentOk(extents[n], profile) && !InExtent(extents[n], b);
      LaidKeeps(bytes, extents[..n], profile, b);
      WriteKeepsBlock(Laid(bytes, extents[..n], profile.quantum), extents[n], b, profile.quantum);
    }
  }

  lemma {:induction false} CommitComposes(was: Bytes, o: Loaded, g: Gen, oldest: nat, staged: Staged, retained: seq<Run>, plan: Plan,
                       content: Content, profile: Profile)
    requires plan.Planned? && Matches(o, g, profile) && profile.quantum > 0 && ContentFits(content, profile.quantum)
    requires Publishable(o, oldest, staged, retained, plan) && ValidLoaded(NextLoaded(o, staged, retained, plan))
    ensures Composed(Laid(Resized(was, Span(plan.next, profile.quantum)), ExtentsOf(Written(plan), content), profile.quantum),
                     was, staged, retained, plan, content, profile.quantum)
  {
    CommitAvoids(o, g, profile, oldest, staged, retained, plan, content);
    forall b ensures Mult(Written(plan), b) + Mult(staged.pending, b) + Mult(retained, b) <= One(b < plan.next) {
      CoverOfLoaded(NextLoaded(o, staged, retained, plan), b);
      NewReachableCover(plan, staged.pending, retained, b);
    }
    ExtentsApart(Written(plan), content);
    LaidComposes(was, Written(plan), staged.pending, retained, plan.next, content, profile);
  }

  lemma {:induction false} LaidComposes(was: Bytes, runs: seq<Run>, pending: seq<Run>, retained: seq<Run>, next: nat, content: Content, profile: Profile)
    requires profile.quantum > 0 && ExtentsOk(ExtentsOf(runs, content), profile) && Apart(ExtentsOf(runs, content))
    requires forall b :: Mult(runs, b) + Mult(pending, b) + Mult(retained, b) <= One(b < next)
    ensures var q, extents := profile.quantum, ExtentsOf(runs, content);
            var image := Laid(Resized(was, Span(next, q)), extents, q);
            && (forall i :: 0 <= i < |runs| ==> HoldsExtent(image, extents[i], q))
            && (forall b: nat :: Mult(pending, b) + Mult(retained, b) > 0 && Span(b, q) + q <= |was| ==> SameBlock(image, was, b, q))
  {
    var q, extents := profile.quantum, ExtentsOf(runs, content);
    var long := Resized(was, Span(next, q));
    forall i | 0 <= i < |runs| ensures HoldsExtent(Laid(long, extents, q), extents[i], q) {
      LaidHolds(long, extents, profile, i);
    }
    forall b: nat | Mult(pending, b) + Mult(retained, b) > 0 && Span(b, q) + q <= |was|
      ensures SameBlock(Laid(long, extents, q), was, b, q)
    {
      InExtentsOf(runs, content, b);
      SpanMonotone(b, next, q);
      ResizeKeepsBlock(was, Span(next, q), b, q);
      LaidKeeps(long, extents, profile, b);
    }
  }

  lemma {:induction false} ResizeKeepsBlock(was: Bytes, length: nat, b: nat, quantum: nat)
    requires Span(b, quantum) + quantum <= |was| && Span(b, quantum) + quantum <= length
    ensures SameBlock(Resized(was, length), was, b, quantum)
  {
    ApplySpares(was, Resize(length), Span(b, quantum), Span(b, quantum) + quantum);
  }

  lemma {:induction false} CommitInputOk(stable: Bytes, open: Opener, profile: Profile, g: Gen, o: Loaded, oldest: nat, staged: Staged,
                      retained: seq<Run>, plan: Plan, content: Content, seal: Pub -> Bytes, roots: seq<nat>)
    requires ProfileOk(profile) && Sealing(open, seal) && Matches(o, g, profile) && SlotStart(2) <= |stable|
    requires plan.Planned? && Publishable(o, oldest, staged, retained, plan) && plan.next <= profile.maxBlocks
    requires RootsFit(roots) && o.generation + 1 < U64 && o.generation > 0
    requires ContentFits(content, profile.quantum) && TearsRejected(stable, open, seal, NextPub(o, roots, plan.next))
    requires ValidLoaded(NextLoaded(o, staged, retained, plan))
    ensures var p := NextPub(o, roots, plan.next);
            CommitInput(stable, open, profile, g, ExtentsOf(Written(plan), content), p,
                        NewReachable(plan, staged.pending, retained), seal(p))
  {
    var p := NextPub(o, roots, plan.next);
    assert Sealable(p);
    CommitAvoids(o, g, profile, oldest, staged, retained, plan, content);
    MatchesOk(NextLoaded(o, staged, retained, plan),
              Gen(NextPub(o, roots, plan.next), NewReachable(plan, staged.pending, retained), []), profile);
  }

  // ---------------------------------------------------------------- the session

  datatype State = Open | RecoveryRequired

  datatype CommitResult = Refused | Finished(outcome: Outcome)

  /** A publication whose fate is unknown: the generation it would make current. */
  datatype Doubt = Doubt(next: Gen, loaded: Loaded)

  ghost predicate DiskOk(stable: Bytes, muts: seq<Mutation>, open: Opener, profile: Profile, cur: Gen, doubt: Option<Doubt>) {
    match doubt
    case None => Settled(stable, muts, open, profile, cur)
    case Some(d) =>
      Matches(d.loaded, d.next, profile)
      && exists slot :: Publishing(stable, muts, open, profile, cur, d.next, slot)
  }

  ghost predicate SnapsOk(readers: map<nat, nat>, snaps: map<nat, Gen>, o: Loaded, bytes: Bytes, quantum: nat) {
    && readers.Keys == snaps.Keys
    && forall id :: id in readers ==> readers[id] == snaps[id].pub.generation && SnapOk(snaps[id], o, bytes, quantum)
  }

  lemma {:induction false} SnapsAdd(readers: map<nat, nat>, snaps: map<nat, Gen>, o: Loaded, bytes: Bytes, quantum: nat, id: nat, g: Gen)
    requires SnapsOk(readers, snaps, o, bytes, quantum) && SnapOk(g, o, bytes, quantum)
    ensures SnapsOk(readers[id := g.pub.generation], snaps[id := g], o, bytes, quantum)
  {
  }

  lemma {:induction false} SnapsMove(readers: map<nat, nat>, snaps: map<nat, Gen>, o: Loaded, bytes: Bytes, o': Loaded, bytes': Bytes, quantum: nat)
    requires SnapsOk(readers, snaps, o, bytes, quantum)
    requires forall id :: id in snaps ==> SnapOk(snaps[id], o', bytes', quantum)
    ensures SnapsOk(readers, snaps, o', bytes', quantum)
  {
  }

  ghost predicate StagingOk(staging: Option<nat>, readers: map<nat, nat>, o: Loaded) {
    staging.Some? ==>
      && staging.value <= o.generation && staging.value <= NO_READER
      && forall id :: id in readers ==> staging.value <= readers[id]
  }

  lemma {:induction false} StagingKept(staging: Option<nat>, readers: map<nat, nat>, o: Loaded, id: nat)
    requires StagingOk(staging, readers, o)
    ensures StagingOk(staging, readers[id := o.generation], o)
  {
  }

  /** The loader reads nothing but the blocks reachable from the publication. */
  ghost predicate Loads(load: (Bytes, Pub) -> Loaded, g: Gen, o: Loaded, quantum: nat) {
    forall bytes, p :: HoldsGen(bytes, g, quantum) && SamePub(p, g.pub) ==> load(bytes, p) == o
  }

  method OldestReader(readers: map<nat, nat>) returns (oldest: nat)
    ensures oldest <= NO_READER && forall id :: id in readers ==> oldest <= readers[id]
    ensures oldest == NO_READER || exists id :: id in readers && readers[id] == oldest
  {
    oldest := NO_READER;
    var left := readers.Keys;
    while left != {}
      invariant left <= readers.Keys && oldest <= NO_READER
      invariant forall id :: id in readers && id !in left ==> oldest <= readers[id]
      invariant oldest == NO_READER || exists id :: id in readers && readers[id] == oldest
      decreases left
    {
      var id :| id in left;
      if readers[id] < oldest {
        oldest := readers[id];
      }
      left := left - {id};
    }
  }

  /** The oldest generation that somebody reads, or else the current one. */
  ghost predicate OldestInUse(v: nat, generation: nat, readers: map<nat, nat>) {
    && v <= generation && (forall id :: id in readers ==> v <= readers[id])
    && (v == generation || exists id :: id in readers && readers[id] == v)
  }

  // ---------------------------------------------------------------- what every step keeps

  /** The file, and how it is read. */
  datatype Medium = Medium(profile: Profile, open: Opener, stable: Bytes, muts: seq<Mutation>, bytes: Bytes)

  /** A running session: `staging` is the oldest reader generation when its staging
      allocator was set up. */
  datatype Running = Running(state: State, loaded: Loaded, readers: map<nat, nat>, staging: Option<nat>,
                             cur: Gen, snaps: map<nat, Gen>, doubt: Option<Doubt>)

  ghost predicate Sound(m: Medium, r: Running) {
    && ProfileOk(m.profile) && m.bytes == Performed(m.stable, m.muts)
    && Matches(r.loaded, r.cur, m.profile)
    && DiskOk(m.stable, m.muts, m.open, m.profile, r.cur, r.doubt)
    && (r.doubt.Some? ==> r.state == RecoveryRequired)
    && SnapsOk(r.readers, r.snaps, r.loaded, m.bytes, m.profile.quantum)
    && StagingOk(r.staging, r.readers, r.loaded)
  }

  lemma {:induction false} ReadBegun(m: Medium, r: Running, id: nat)
    requires Sound(m, r) && r.state == Open
    ensures Sound(m, r.(readers := r.readers[id := r.loaded.generation], snaps := r.snaps[id := r.cur]))
  {
    CurrentSnap(m.stable, m.muts, m.open, m.profile, r.cur, r.loaded);
    SnapsAdd(r.readers, r.snaps, r.loaded, m.bytes, m.profile.quantum, id, r.cur);
    StagingKept(r.staging, r.readers, r.loaded, id);
  }

  lemma {:induction false} ReadEnded(m: Medium, r: Running, id: nat)
    requires Sound(m, r) && id in r.readers
    ensures Sound(m, r.(readers := r.readers - {id}, snaps := r.snaps - {id}))
  {
  }

  lemma {:induction false} Restaged(m: Medium, r: Running, staging: Option<nat>)
    requires Sound(m, r) && StagingOk(staging, r.readers, r.loaded)
    ensures Sound(m, r.(staging := staging))
  {
  }

  /** The file moved on under the current generation, sparing every reader. */
  lemma {:induction false} ChunkWritten(m: Medium, m': Medium, r: Running, e: Extent)
    requires Sound(m, r) && r.doubt.None? && r.staging.Some? && Stageable(e, r.loaded, r.staging.value, m.profile.quantum)
    requires m'.profile == m.profile && m'.open == m.open && m'.bytes == Performed(m'.stable, m'.muts)
    requires Settled(m'.stable, m'.muts, m'.open, m'.profile, r.cur)
    requires KeepsOutside(m.bytes, m'.bytes, [e], r.loaded.start, m.profile.quantum)
    ensures Sound(m', r)
  {
    forall id | id in r.snaps ensures SnapOk(r.snaps[id], r.loaded, m'.bytes, m.profile.quantum) {
      SnapStaged(r.snaps[id], r.loaded, m.bytes, m'.bytes, e, r.staging.value, m.profile);
    }
    SnapsMove(r.readers, r.snaps, r.loaded, m.bytes, r.loaded, m'.bytes, m.profile.quantum);
  }

  /** The session once a commit has ended. */
  function Ended(r: Running, outcome: Outcome, next: Gen, o: Loaded): Running {
    match outcome
    case Committed => r.(loaded := o, cur := next, staging := None)
    case CommitFailed => r.(state := RecoveryRequired, staging := None)
    case OutcomeUnknown => r.(state := RecoveryRequired, staging := None, doubt := Some(Doubt(next, o)))
  }

  /** What a commit is called with. */
  ghost predicate Committing(m: Medium, r: Running, plan: Plan, staged: Staged, retained: seq<Run>) {
    && Sound(m, r) && r.state == Open && r.staging.Some? && r.loaded.generation > 0
    && plan.Planned? && Publishable(r.loaded, r.staging.value, staged, retained, plan)
  }

  lemma {:induction false} SnapsCommitted(m: Medium, r: Running, plan: Plan, staged: Staged, retained: seq<Run>, content: Content, now: Bytes)
    requires Committing(m, r, plan, staged, retained)
    requires KeepsCommitted(m.bytes, now, ExtentsOf(Written(plan), content), m.profile, r.loaded.start)
    ensures SnapsOk(r.readers, r.snaps, r.loaded, now, m.profile.quantum)
    ensures SnapsOk(r.readers, r.snaps, NextLoaded(r.loaded, staged, retained, plan), now, m.profile.quantum)
  {
    var o := NextLoaded(r.loaded, staged, retained, plan);
    forall id | id in r.snaps
      ensures SnapOk(r.snaps[id], r.loaded, now, m.profile.quantum) && SnapOk(r.snaps[id], o, now, m.profile.quantum)
    {
      SnapCommitted(r.snaps[id], r.loaded, m.bytes, now, m.profile, r.staging.value, staged, retained, plan, content);
    }
    SnapsMove(r.readers, r.snaps, r.loaded, m.bytes, r.loaded, now, m.profile.quantum);
    SnapsMove(r.readers, r.snaps, r.loaded, m.bytes, o, now, m.profile.quantum);
  }

  lemma {:induction false} CommitEnded(m: Medium, m': Medium, r: Running, outcome: Outcome, next: Gen, o: Loaded, slot: Bytes)
    requires Sound(m, r) && r.doubt.None? && Matches(o, next, m.profile)
    requires m'.profile == m.profile && m'.open == m.open && m'.bytes == Performed(m'.stable, m'.muts)
    requires SnapsOk(r.readers, r.snaps, r.loaded, m'.bytes, m.profile.quantum)
    requires SnapsOk(r.readers, r.snaps, o, m'.bytes, m.profile.quantum)
    requires outcome == CommitFailed ==> Settled(m'.stable, m'.muts, m.open, m.profile, r.cur)
    requires outcome == Committed ==> Settled(m'.stable, m'.muts, m.open, m.profile, next)
    requires outcome == OutcomeUnknown ==> Publishing(m'.stable, m'.muts, m.open, m.profile, r.cur, next, slot)
    ensures Sound(m', Ended(r, outcome, next, o))
  {
  }

  lemma {:induction false} Recovered(m: Medium, r: Running)
    requires Sound(m, r) && r.doubt.None?
    ensures Sound(m, r.(state := Open, staging := None))
    ensures Opens(m.bytes, m.open, m.profile, r.cur)
  {
    SettledBarrier(m.stable, m.muts, m.open, m.profile, r.cur);
  }

  lemma {:induction false} Restarted(m: Medium, g: Doubt)
    requires ProfileOk(m.profile) && m.stable == m.bytes && m.muts == []
    requires Matches(g.loaded, g.next, m.profile) && Opens(m.bytes, m.open, m.profile, g.next) && SlotStart(2) <= |m.bytes|
    ensures Sound(m, Running(Open, g.loaded, map[], None, g.next, map[], None))
  {
    MatchesOk(g.loaded, g.next, m.profile);
  }

  // ---------------------------------------------------------------- the session

  class Session {
    const profile: Profile
    const open: Opener
    const seal: Pub -> Bytes
    const file: MemoryDurableFile
    var state: State
    var loaded: Loaded
    var readers: map<nat, nat>
    var staging: Option<nat>
    ghost var cur: Gen
    ghost var snaps: map<nat, Gen>
    ghost var doubt: Option<Doubt>

    ghost function Now(): Running
      reads this
    {
      Running(state, loaded, readers, staging, cur, snaps, doubt)
    }

    ghost function Disk(): Medium
      reads this, file
    {
      Medium(profile, open, file.stable, file.unbarriered, file.bytes)
    }

    ghost predicate Valid()
      reads this, file
    {
      file.Valid() && Sealing(open, seal) && Sound(Disk(), Now())
    }

    constructor (file: MemoryDurableFile, profile: Profile, open: Opener, seal: Pub -> Bytes, loaded: Loaded, ghost cur: Gen)
      requires file.Valid() && ProfileOk(profile) && Sealing(open, seal) && Matches(loaded, cur, profile)
      requires Settled(file.stable, file.unbarriered, open, profile, cur)
      ensures Valid() && Now() == Running(Open, loaded, map[], None, cur, map[], None)
      ensures this.file == file && this.profile == profile && this.open == open && this.seal == seal
    {
      this.file, this.profile, this.open, this.seal := file, profile, open, seal;
      this.loaded, this.cur, state := loaded, cur, Open;
      readers, snaps, staging, doubt := map[], map[], None, None;
    }

    /** A reader takes the current generation. */
    method BeginRead(id: nat)
      requires Valid() && state == Open && id !in readers
      modifies this`readers, this`snaps
      ensures Valid()
      ensures readers == old(readers)[id := loaded.generation] && snaps == old(snaps)[id := cur]
    {
      ReadBegun(Disk(), Now(), id);
      ghost var r := Now().(readers := readers[id := loaded.generation], snaps := snaps[id := cur]);
      readers := readers[id := loaded.generation];
      snaps := snaps[id := cur];
      assert Now() == r;
    }

    method EndRead(id: nat)
      requires Valid() && id in readers
      modifies this`readers, this`snaps
      ensures Valid()
      ensures readers == old(readers) - {id} && snaps == old(snaps) - {id}
    {
      ReadEnded(Disk(), Now(), id);
      readers := readers - {id};
      snaps := snaps - {id};
    }

    /** Set up the staging allocator: what is eligible now stays eligible, because
        readers that begin later take the current generation. */
    method BeginStaging() returns (free: seq<Run>)
      requires Valid() && state == Open
      modifies this`staging
      ensures Valid() && staging.Some? && OldestInUse(staging.value, loaded.generation, readers)
      ensures SameCover(free, loaded.free + Eligible(loaded.retired, staging.value))
    {
      var oldest := OldestReader(readers);
      var held;
      free, held := ClassifyRetired(loaded.free, loaded.retired, oldest);
      if oldest > loaded.generation {
        EligibleAll(loaded.retired, loaded.generation, oldest);
      }
      Restaged(Disk(), Now(), Some(Respected(loaded, oldest)));
      staging := Some(Respected(loaded, oldest));
    }

    method EndStaging()
      requires Valid()
      modifies this`staging
      ensures Valid() && staging == None
    {
      Restaged(Disk(), Now(), None);
      staging := None;
    }

    /** Write a chunk into staged blocks, growing the file if it must. */
    method StageExtent(e: Extent, limit: nat, resizeFails: bool, fault: Option<nat>) returns (ok: bool)
      requires Valid() && state == Open && staging.Some? && limit > 0
      requires Stageable(e, loaded, staging.value, profile.quantum)
      modifies file
      ensures Valid()
      ensures forall n: nat :: KeepsOutside(old(file.bytes), file.bytes, [e], n, profile.quantum)
      ensures ok ==> HoldsExtent(file.bytes, e, profile.quantum)
      ensures ok <==> !WriteFails(fault, |e.data|) && !(resizeFails && Span(e.start + e.count, profile.quantum) > |old(file.bytes)|)
    {
      ghost var m := Disk();
      StageableOk(e, loaded, staging.value, cur, profile);
      ok := GrowAndWrite(file, e, profile, limit, resizeFails, fault, open, cur);
      ChunkWritten(m, Disk(), Now(), e);
    }

    /** Plan the blocks of a commit.  The plan stays sound for readers that begin later. */
    method PlanBlocks(staged: Staged, retained: seq<Run>, counts: seq<nat>, page: nat, sizes: PageSizes)
      returns (plan: Plan, ghost rounds: seq<Attempt>)
      requires Valid() && state == Open && staging.Some? && page > 0
      requires NoEmptyPages(sizes) && forall i :: 0 <= i < |counts| ==> counts[i] > 0
      requires StagingConserves(staged, loaded.free + Eligible(loaded.retired, staging.value), loaded.start)
      requires RetainedOnce(loaded, retained) && Positive(staged.pending)
      modifies this`staging
      ensures Valid() && staging.Some? && OldestInUse(staging.value, loaded.generation, readers)
      ensures PlanFor(loaded, staging.value, staged, retained, counts, page, sizes, plan, rounds)
    {
      var oldest := OldestReader(readers);
      plan, rounds := PlanRespecting(loaded, oldest, staged, staging.value, retained, counts, page, sizes);
      Restaged(Disk(), Now(), Some(Respected(loaded, oldest)));
      staging := Some(Respected(loaded, oldest));
    }

    /** Write and publish a planned commit whose partition is conserved. */
    method Commit(plan: Plan, staged: Staged, retained: seq<Run>, content: Content, roots: seq<nat>, limit: nat, faults: Faults)
      returns (result: CommitResult, ghost next: Gen)
      requires Valid() && state == Open && staging.Some? && limit > 0 && loaded.generation > 0
      requires plan.Planned? && Publishable(loaded, staging.value, staged, retained, plan)
      requires ContentFits(content, profile.quantum) && RootsFit(roots)
      requires TearsRejected(file.stable, open, seal, NextPub(loaded, roots, plan.next))
      modifies this`state, this`loaded, this`staging, this`cur, this`doubt, file
      ensures Valid()
      ensures result.Refused? <==> old(loaded).generation + 1 >= U64 || plan.next > profile.maxBlocks
      ensures result.Refused? ==> Now() == old(Now()) && file.bytes == old(file.bytes)
      ensures result.Finished? ==>
              && next.pub == NextPub(old(loaded), roots, plan.next)
              && Composed(next.image, old(file.bytes), staged, retained, plan, content, profile.quantum)
      ensures result.Finished? ==>
              && (result.outcome == CommitFailed <==> FailsBefore(faults, WriteLengths(plan, profile.quantum)))
              && (result.outcome == OutcomeUnknown <==>
                    !FailsBefore(faults, WriteLengths(plan, profile.quantum)) && FailsAfter(faults, |Written(plan)|))
      ensures result.Finished? ==>
              && (state == Open <==> result.outcome == Committed) && staging == None
              && (doubt.Some? <==> result.outcome == OutcomeUnknown)
              && (doubt.Some? ==> doubt.value == Doubt(next, NextLoaded(old(loaded), staged, retained, plan)))
              && (result.outcome == Committed ==> loaded == NextLoaded(old(loaded), staged, retained, plan) && cur == next)
              && (result.outcome != Committed ==> loaded == old(loaded) && cur == old(cur))
    {
      if loaded.generation + 1 >= U64 || plan.next > profile.maxBlocks {
        result, next := Refused, cur;
        return;
      }
      var outcome;
      outcome, next := WritePlanned(file, profile, open, seal, loaded, plan, staged, retained, content, roots, limit, faults, Now());
      result := Finished(outcome);
      Conclude(outcome, next, NextLoaded(loaded, staged, retained, plan));
    }

    method Conclude(outcome: Outcome, ghost next: Gen, o: Loaded)
      requires file.Valid() && Sealing(open, seal) && Sound(Disk(), Ended(Now(), outcome, next, o))
      modifies this`state, this`loaded, this`staging, this`cur, this`doubt
      ensures Valid() && Now() == Ended(old(Now()), outcome, next, o)
    {
      ghost var r := Ended(Now(), outcome, next, o);
      staging := None;
      match outcome {
        case Committed =>
          loaded, cur := o, next;
        case CommitFailed =>
          state := RecoveryRequired;
        case OutcomeUnknown =>
          state, doubt := RecoveryRequired, Some(Doubt(next, o));
      }
      assert Now() == r;
    }

    /** Closing a session that requires recovery reads its publication again, without a
        barrier.  Unless the publication was in doubt it finds the current generation, and
        the commit that closing may make can follow. */
    method Reselect(load: (Bytes, Pub) -> Loaded) returns (selection: Selection)
      requires Valid() && state == RecoveryRequired && doubt == None
      requires Loads(load, cur, loaded, profile.quantum)
      modifies this`state, this`loaded, this`staging
      ensures Valid() && Now() == old(Now()).(state := Open, staging := None)
      ensures selection.Selected? && SamePub(selection.pub, cur.pub)
    {
      Recovered(Disk(), Now());
      selection := SelectPublication(file.bytes, open, profile);
      OpensSelected(file.bytes, open, profile, cur);
      OpensSelects(file.bytes, open, profile, cur, selection.pub);
      loaded := load(file.bytes, selection.pub);
      state, staging := Open, None;
    }

    /** Crash, keeping any of the unbarriered mutations in any order, and reopen.  The
        file opens to the current generation or, if its publication was in doubt, to
        the next one; never to anything else, and never to nothing. */
    method CrashAndReopen(order: seq<nat>, load: (Bytes, Pub) -> Loaded) returns (selection: Selection)
      requires Valid() && Indexes(order, |file.unbarriered|)
      requires Loads(load, cur, loaded, profile.quantum)
      requires doubt.Some? ==> Loads(load, doubt.value.next, doubt.value.loaded, profile.quantum)
      modifies this, file
      ensures Valid() && Now() == Running(Open, loaded, map[], None, cur, map[], None)
      ensures file.bytes == Replay(old(file.stable), old(file.unbarriered), order)
      ensures selection.Selected? && SamePub(selection.pub, cur.pub) && Opens(file.bytes, open, profile, cur)
      ensures Doubt(cur, loaded) == old(Doubt(cur, loaded)) || Some(Doubt(cur, loaded)) == old(doubt)
    {
      ghost var g := Reopened(file.stable, file.unbarriered, open, profile, cur, loaded, doubt, order);
      file.SimulateCrash(order);
      selection := SelectPublication(file.bytes, open, profile);
      OpensSelected(file.bytes, open, profile, g.next);
      OpensSelects(file.bytes, open, profile, g.next, selection.pub);
      Restarted(Disk(), g);
      loaded := load(file.bytes, selection.pub);
      cur, state, doubt := g.next, Open, None;
      readers, snaps, staging := map[], map[], None;
      assert Now() == Running(Open, g.loaded, map[], None, g.next, map[], None);
    }
  }

  /** The generation that a crash leaves current. */
  lemma {:induction false} Reopened(stable: Bytes, muts: seq<Mutation>, open: Opener, profile: Profile, cur: Gen, o: Loaded,
                 doubt: Option<Doubt>, order: seq<nat>) returns (g: Doubt)
    requires ProfileOk(profile) && DiskOk(stable, muts, open, profile, cur, doubt) && Matches(o, cur, profile)
    requires Indexes(order, |muts|)
    ensures Opens(Replay(stable, muts, order), open, profile, g.next) && SlotStart(2) <= |Replay(stable, muts, order)|
    ensures Matches(g.loaded, g.next, profile)
    ensures g == Doubt(cur, o) || doubt == Some(g)
  {
    if doubt.None? {
      SettledSurvives(stable, muts, open, profile, cur, order);
      ReplaySpares(stable, muts, order, 0, SlotStart(2));
      g := Doubt(cur, o);
    } else {
      var next := doubt.value.next;
      var slot :| Publishing(stable, muts, open, profile, cur, next, slot);
      PublishingSurvives(stable, muts, open, profile, cur, next, slot, order);
      SlotsAfterCrash(stable, muts, order, next.pub.index, slot);
      g := if Opens(Replay(stable, muts, order), open, profile, next) then doubt.value else Doubt(cur, o);
    }
  }

  lemma {:induction false} OpensSelected(bytes: Bytes, open: Opener, profile: Profile, g: Gen)
    requires Opens(bytes, open, profile, g)
    ensures exists p :: NewestOf(p, OpenSlot(bytes, open, 0), OpenSlot(bytes, open, 1))
                        && Span(p.highWater, profile.quantum) <= |bytes|
  {
  }

  method WritePlanned(file: MemoryDurableFile, profile: Profile, open: Opener, seal: Pub -> Bytes, o: Loaded, plan: Plan,
                      staged: Staged, retained: seq<Run>, content: Content, roots: seq<nat>, limit: nat, faults: Faults,
                      ghost r: Running)
    returns (outcome: Outcome, ghost next: Gen)
    requires file.Valid() && limit > 0 && Sealing(open, seal) && o == r.loaded
    requires Committing(Medium(profile, open, file.stable, file.unbarriered, file.bytes), r, plan, staged, retained)
    requires plan.next <= profile.maxBlocks && RootsFit(roots) && o.generation + 1 < U64
    requires ContentFits(content, profile.quantum) && TearsRejected(file.stable, open, seal, NextPub(o, roots, plan.next))
    modifies file
    ensures file.Valid() && next.pub == NextPub(o, roots, plan.next)
    ensures Sound(Medium(profile, open, file.stable, file.unbarriered, file.bytes),
                  Ended(r, outcome, next, NextLoaded(o, staged, retained, plan)))
    ensures Composed(next.image, old(file.bytes), staged, retained, plan, content, profile.quantum)
    ensures outcome == CommitFailed <==> FailsBefore(faults, WriteLengths(plan, profile.quantum))
    ensures outcome == OutcomeUnknown <==>
            !FailsBefore(faults, WriteLengths(plan, profile.quantum)) && FailsAfter(faults, |Written(plan)|)
  {
    ghost var m := Medium(profile, open, file.stable, file.unbarriered, file.bytes);
    var pub := NextPub(o, roots, plan.next);
    ghost var o' := NextLoaded(o, staged, retained, plan);
    NextLoadIff(o, r.staging.value, staged, retained, plan);
    CommitInputOk(file.stable, open, profile, r.cur, o, r.staging.value, staged, retained, plan, content, seal, roots);
    CommitComposes(file.bytes, o, r.cur, r.staging.value, staged, retained, plan, content, profile);
    outcome, next := CommitWrites(file, profile, ExtentsOf(Written(plan), content), pub, seal(pub), limit, faults,
                                  open, r.cur, NewReachable(plan, staged.pending, retained));
    LengthsWritten(plan, content, profile.quantum);
    SnapsCommitted(m, r, plan, staged, retained, content, file.bytes);
    CommitEnded(m, Medium(profile, open, file.stable, file.unbarriered, file.bytes), r, outcome, next, o', seal(pub));
  }

  method GrowAndWrite(file: MemoryDurableFile, e: Extent, profile: Profile, limit: nat, resizeFails: bool, fault: Option<nat>,
                      ghost open: Opener, ghost g: Gen) returns (ok: bool)
    requires file.Valid() && limit > 0 && ProfileOk(profile) && ExtentOk(e, profile) && profile.common <= g.pub.highWater
    requires Settled(file.stable, file.unbarriered, open, profile, g)
    requires forall b: nat :: InExtent(e, b) ==> Mult(g.reach, b) == 0
    modifies file
    ensures file.Valid() && Settled(file.stable, file.unbarriered, open, profile, g)
    ensures forall n: nat :: KeepsOutside(old(file.bytes), file.bytes, [e], n, profile.quantum)
    ensures ok ==> HoldsExtent(file.bytes, e, profile.quantum)
    ensures ok <==> !WriteFails(fault, |e.data|) && !(resizeFails && Span(e.start + e.count, profile.quantum) > |old(file.bytes)|)
  {
    ghost var was := file.bytes;
    var required := Span(e.start + e.count, profile.quantum);
    SettledBarrier(file.stable, file.unbarriered, open, profile, g);
    assert forall n: nat :: KeepsOutside(was, was, [e], n, profile.quantum);
    if required > |file.bytes| {
      SettledResize(file.stable, file.unbarriered, open, profile, g, required);
      forall n: nat ensures KeepsOutside(was, Resized(was, required), [e], n, profile.quantum) {
        GrowKeeps(was, required, [e], n, profile.quantum);
      }
      ok := file.SetLength(required, resizeFails);
      if !ok {
        return;
      }
    }
    ghost var muts, before := file.unbarriered, file.bytes;
    ghost var pieces, done;
    ok, pieces, done := file.WriteExactAt(Span(e.start, profile.quantum), e.data, limit, fault);
    SettledExtent(file.stable, muts, open, profile, g, pieces, e);
    forall n: nat ensures KeepsOutside(was, file.bytes, [e], n, profile.quantum) {
      TransferKeeps(was, before, [e], n, profile.quantum, 0, done);
    }
    WroteExtent(before, e, profile);
  }
}
