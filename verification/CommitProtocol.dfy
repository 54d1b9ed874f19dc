/** The order in which a commit reaches stable storage, and what a crash at any point
    leaves for the next opening. */
module CommitProtocol {
  import opened ExtentRuns
  import opened Basics
  import opened BlobContent
  import opened DurableFile
  import opened LittleEndian
  import opened Publication

  /** A generation: its publication, its reachable blocks and, in `image`, the content
      those blocks have. */
  datatype Gen = Gen(pub: Pub, reach: seq<Run>, image: Bytes)

  datatype Extent = Extent(start: nat, count: nat, data: Bytes)

  ghost predicate ExtentOk(e: Extent, profile: Profile) {
    e.count > 0 && |e.data| == Span(e.count, profile.quantum) && profile.common <= e.start
  }

  ghost predicate SameBlock(a: Bytes, c: Bytes, b: nat, quantum: nat) {
    && Span(b, quantum) + quantum <= |a| && Span(b, quantum) + quantum <= |c|
    && a[Span(b, quantum)..Span(b, quantum) + quantum] == c[Span(b, quantum)..Span(b, quantum) + quantum]
  }

  /** The reachable blocks have their content and lie in the file. */
  ghost predicate HoldsGen(bytes: Bytes, g: Gen, quantum: nat) {
    && Span(g.pub.highWater, quantum) <= |bytes|
    && forall b: nat :: Mult(g.reach, b) > 0 ==> SameBlock(bytes, g.image, b, quantum)
  }

  ghost predicate ProfileOk(profile: Profile) {
    profile.quantum > 0 && Span(profile.common, profile.quantum) >= SlotStart(2) && profile.maxBlocks < U64
  }

  /** What opening the file finds: the generation's publication, in the slot that its
      successor will not overwrite, and its content. */
  ghost predicate Opens(bytes: Bytes, open: Opener, profile: Profile, g: Gen) {
    && Consistent(OpenSlot(bytes, open, 0), OpenSlot(bytes, open, 1), profile)
    && NewestOf(g.pub, OpenSlot(bytes, open, 0), OpenSlot(bytes, open, 1))
    && g.pub.index == g.pub.generation % 2
    && HoldsGen(bytes, g, profile.quantum)
  }

  /** Selection returns that publication, up to the slot it is read from. */
  lemma {:induction false} OpensSelects(bytes: Bytes, open: Opener, profile: Profile, g: Gen, q: Pub)
    requires Opens(bytes, open, profile, g)
    requires NewestOf(q, OpenSlot(bytes, open, 0), OpenSlot(bytes, open, 1))
    ensures SamePub(q, g.pub)
  {
  }

  /** A generation whose every block is known to lie above the common region and below
      the high-water mark. */
  ghost predicate GenOk(g: Gen, profile: Profile) {
    forall b :: Mult(g.reach, b) > 0 ==> profile.common <= b < g.pub.highWater
  }

  // ---------------------------------------------------------------- before publication

  /** The generation is stable and nothing written since can hurt it. */
  ghost predicate Settled(stable: Bytes, muts: seq<Mutation>, open: Opener, profile: Profile, g: Gen) {
    && GenOk(g, profile)
    && Opens(stable, open, profile, g)
    && SlotStart(2) <= |stable| && AllSpare(muts, 0, SlotStart(2))
    && Roomy(muts, Span(g.pub.highWater, profile.quantum))
    && forall b: nat :: Mult(g.reach, b) > 0 ==> SparesBlock(muts, b, profile.quantum)
  }

  ghost predicate SparesBlock(muts: seq<Mutation>, b: nat, quantum: nat) {
    AllSpare(muts, Span(b, quantum), Span(b, quantum) + quantum)
  }

  /** No resize cuts below `length`. */
  ghost predicate Roomy(muts: seq<Mutation>, length: nat) {
    forall i :: 0 <= i < |muts| && muts[i].Resize? ==> length <= muts[i].length
  }

  /** If the slots and the reachable blocks agree, opening finds the same. */
  lemma {:induction false} OpensAlike(was: Bytes, now: Bytes, open: Opener, profile: Profile, g: Gen)
    requires Opens(was, open, profile, g)
    requires SlotStart(2) <= |was| && SlotStart(2) <= |now| && was[0..SlotStart(2)] == now[0..SlotStart(2)]
    requires Span(g.pub.highWater, profile.quantum) <= |now|
    requires forall b: nat :: Mult(g.reach, b) > 0 ==> SameBlock(now, was, b, profile.quantum)
    ensures Opens(now, open, profile, g)
  {
    SameSlot(was, now, 0);
    SameSlot(was, now, 1);
    forall b: nat | Mult(g.reach, b) > 0 ensures SameBlock(now, g.image, b, profile.quantum) {
      assert SameBlock(now, was, b, profile.quantum) && SameBlock(was, g.image, b, profile.quantum);
    }
  }

  lemma {:induction false} SameSlot(was: Bytes, now: Bytes, i: nat)
    requires i < 2 && SlotStart(2) <= |was| && SlotStart(2) <= |now|
    requires was[0..SlotStart(2)] == now[0..SlotStart(2)]
    ensures SlotAt(was, i) == SlotAt(now, i)
  {
    assert SlotAt(was, i) == was[0..SlotStart(2)][SlotStart(i)..SlotStart(i) + SLOT_BYTES];
    assert SlotAt(now, i) == now[0..SlotStart(2)][SlotStart(i)..SlotStart(i) + SLOT_BYTES];
  }

  /** Crash before publication: whatever survives, in whatever order, opening finds
      the old generation. */
  lemma {:induction false} SettledSurvives(stable: Bytes, muts: seq<Mutation>, open: Opener, profile: Profile, g: Gen, order: seq<nat>)
    requires Settled(stable, muts, open, profile, g) && Indexes(order, |muts|)
    ensures Opens(Replay(stable, muts, order), open, profile, g)
  {
    var image := Replay(stable, muts, order);
    ReplaySpares(stable, muts, order, 0, SlotStart(2));
    ReplayLength(stable, muts, order, Span(g.pub.highWater, profile.quantum));
    forall b: nat | Mult(g.reach, b) > 0 ensures SameBlock(image, stable, b, profile.quantum) {
      assert SameBlock(stable, g.image, b, profile.quantum) && SparesBlock(muts, b, profile.quantum);
      ReplaySpares(stable, muts, order, Span(b, profile.quantum), Span(b, profile.quantum) + profile.quantum);
    }
    OpensAlike(stable, image, open, profile, g);
  }

  // ---------------------------------------------------------------- during publication

  /** A slot that is a mixture of two contents opens as one of them or not at all. */
  ghost predicate TearResistant(open: Opener, i: nat, was: Bytes, slot: Bytes) {
    forall image :: Mixes(image, was, slot) ==> open(i, image) in {None, open(i, was), open(i, slot)}
  }

  /** The new generation's extents are stable; only its slot is in flight. */
  ghost predicate Publishing(stable: Bytes, muts: seq<Mutation>, open: Opener, profile: Profile,
                             g: Gen, next: Gen, slot: Bytes)
  {
    && GenOk(g, profile) && GenOk(next, profile)
    && Opens(stable, open, profile, g)
    && HoldsGen(stable, next, profile.quantum)
    && next.pub.generation == g.pub.generation + 1 && ValidPub(next.pub, next.pub.index, profile)
    && SlotStart(2) <= |stable| && |slot| == SLOT_BYTES
    && open(next.pub.index, slot) == Some(next.pub)
    && TearResistant(open, next.pub.index, SlotAt(stable, next.pub.index), slot)
    && PiecesOf(muts, SlotStart(next.pub.index), slot)
  }

  /** The spared slot still names the old generation, so opening finds the new one if
      its slot opens as such and the old one otherwise. */
  lemma {:induction false} ReplacedSlot(was: Bytes, now: Bytes, open: Opener, profile: Profile, g: Gen, next: Gen)
    requires Opens(was, open, profile, g) && SlotStart(2) <= |was| && SlotStart(2) <= |now|
    requires next.pub.generation == g.pub.generation + 1 && ValidPub(next.pub, next.pub.index, profile)
    requires SlotAt(now, 1 - next.pub.index) == SlotAt(was, 1 - next.pub.index)
    requires open(next.pub.index, SlotAt(now, next.pub.index))
             in {None, open(next.pub.index, SlotAt(was, next.pub.index)), Some(next.pub)}
    requires HoldsGen(now, g, profile.quantum) && HoldsGen(now, next, profile.quantum)
    ensures OpenSlot(now, open, next.pub.index) == Some(next.pub) ==> Opens(now, open, profile, next)
    ensures OpenSlot(now, open, next.pub.index) != Some(next.pub) ==> Opens(now, open, profile, g)
  {
    var i := next.pub.index;
    assert OpenSlot(now, open, 1 - i) == OpenSlot(was, open, 1 - i);
  }

  /** Blocks of the generations are never inside the slot being written. */
  lemma {:induction false} SlotSparesBlock(profile: Profile, g: Gen, muts: seq<Mutation>, i: nat, slot: Bytes, b: nat)
    requires ProfileOk(profile) && GenOk(g, profile) && Mult(g.reach, b) > 0
    requires i < 2 && |slot| == SLOT_BYTES && PiecesOf(muts, SlotStart(i), slot)
    ensures SparesBlock(muts, b, profile.quantum)
  {
    SpanMonotone(profile.common, b, profile.quantum);
    PiecesSpare(muts, SlotStart(i), slot, Span(b, profile.quantum), Span(b, profile.quantum) + profile.quantum);
  }

  lemma {:induction false} SlotKeepsGen(stable: Bytes, muts: seq<Mutation>, order: seq<nat>, profile: Profile, g: Gen, i: nat, slot: Bytes)
    requires ProfileOk(profile) && GenOk(g, profile) && HoldsGen(stable, g, profile.quantum) && Indexes(order, |muts|)
    requires i < 2 && |slot| == SLOT_BYTES && PiecesOf(muts, SlotStart(i), slot)
    ensures HoldsGen(Replay(stable, muts, order), g, profile.quantum)
  {
    var image := Replay(stable, muts, order);
    ReplayLength(stable, muts, order, Span(g.pub.highWater, profile.quantum));
    forall b: nat | Mult(g.reach, b) > 0 ensures SameBlock(image, g.image, b, profile.quantum) {
      assert SameBlock(stable, g.image, b, profile.quantum);
      SlotSparesBlock(profile, g, muts, i, slot, b);
      SparedBlock(stable, muts, order, g.image, b, profile.quantum);
    }
  }

  lemma {:induction false} SparedBlock(stable: Bytes, muts: seq<Mutation>, order: seq<nat>, image: Bytes, b: nat, quantum: nat)
    requires Indexes(order, |muts|) && SparesBlock(muts, b, quantum) && SameBlock(stable, image, b, quantum)
    ensures SameBlock(Replay(stable, muts, order), image, b, quantum)
  {
    ReplaySpares(stable, muts, order, Span(b, quantum), Span(b, quantum) + quantum);
  }

  lemma {:induction false} SlotsAfterCrash(stable: Bytes, muts: seq<Mutation>, order: seq<nat>, i: nat, slot: Bytes)
    requires Indexes(order, |muts|) && SlotStart(2) <= |stable|
    requires i < 2 && |slot| == SLOT_BYTES && PiecesOf(muts, SlotStart(i), slot)
    ensures SlotStart(2) <= |Replay(stable, muts, order)|
    ensures SlotAt(Replay(stable, muts, order), 1 - i) == SlotAt(stable, 1 - i)
    ensures Mixes(SlotAt(Replay(stable, muts, order), i), SlotAt(stable, i), slot)
  {
    PiecesWriteOnly(muts, SlotStart(i), slot);
    ReplayMixes(stable, muts, order, SlotStart(i), slot);
    PiecesSpare(muts, SlotStart(i), slot, SlotStart(1 - i), SlotStart(1 - i) + SLOT_BYTES);
    ReplaySpares(stable, muts, order, SlotStart(1 - i), SlotStart(1 - i) + SLOT_BYTES);
    ReplayLength(stable, muts, order, SlotStart(2));
  }

  /** Crash during publication: whatever part of the slot survives, opening finds the
      whole old or the whole new generation. */
  lemma {:induction false} PublishingSurvives(stable: Bytes, muts: seq<Mutation>, open: Opener, profile: Profile,
                           g: Gen, next: Gen, slot: Bytes, order: seq<nat>)
    requires ProfileOk(profile) && Publishing(stable, muts, open, profile, g, next, slot) && Indexes(order, |muts|)
    ensures var image := Replay(stable, muts, order);
            Opens(image, open, profile, g) || Opens(image, open, profile, next)
  {
    var image := Replay(stable, muts, order);
    var i := next.pub.index;
    SlotKeepsGen(stable, muts, order, profile, g, i, slot);
    SlotKeepsGen(stable, muts, order, profile, next, i, slot);
    SlotsAfterCrash(stable, muts, order, i, slot);
    ReplacedSlot(stable, image, open, profile, g, next);
  }
}
