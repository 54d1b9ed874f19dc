/** Writing a commit: extents, barrier, slot, barrier, with a fault possible at any
    operation and after any number of bytes. */
module CommitWriting {
  import opened ExtentRuns
  import opened Basics
  import opened BlobContent
  import opened DurableFile
  import opened Publication
  import opened CommitProtocol

  lemma {:induction false} SpanAdd(a: nat, c: nat, size: nat)
    ensures Span(a, size) + Span(c, size) == Span(a + c, size)
  {
    if c > 0 {
      SpanAdd(a, c - 1, size);
    }
  }

  predicate InExtent(e: Extent, b: nat) { e.start <= b < e.start + e.count }

  ghost predicate InExtents(extents: seq<Extent>, b: nat) {
    exists i :: 0 <= i < |extents| && InExtent(extents[i], b)
  }

  function ExtentBytes(e: Extent, quantum: nat): (nat, nat) {
    (Span(e.start, quantum), Span(e.start, quantum) + Span(e.count, quantum))
  }

  /** A block outside the extent lies outside its bytes. */
  lemma {:induction false} BlockApart(e: Extent, b: nat, quantum: nat)
    requires !InExtent(e, b)
    ensures var (lo, hi) := ExtentBytes(e, quantum);
            Span(b, quantum) + quantum <= lo || hi <= Span(b, quantum)
  {
    SpanAdd(e.start, e.count, quantum);
    if b < e.start {
      SpanMonotone(b, e.start, quantum);
    } else {
      SpanMonotone(e.start + e.count, b, quantum);
    }
  }

  // ---------------------------------------------------------------- what stays

  /** Committed blocks outside `extents` have kept their content. */
  ghost predicate KeepsOutside(was: Bytes, now: Bytes, extents: seq<Extent>, highWater: nat, quantum: nat) {
    forall b: nat :: b < highWater && !InExtents(extents, b) && Span(b, quantum) + quantum <= |was|
      ==> SameBlock(now, was, b, quantum)
  }

  /** A transfer that ends before a block or begins after it leaves the block alone. */
  lemma {:induction false} TransferSpares(was: Bytes, now: Bytes, offset: nat, data: Bytes, done: nat, b: nat, quantum: nat)
    requires SameBlock(now, was, b, quantum) && done <= |data|
    requires offset + |data| <= Span(b, quantum) || Span(b, quantum) + quantum <= offset
    ensures SameBlock(Transferred(now, offset, data, done), was, b, quantum)
  {
    if done > 0 {
      var lo, later := Span(b, quantum), Transferred(now, offset, data, done);
      ApplySpares(now, Write(offset, data[..done]), lo, lo + quantum);
      assert later == Apply(now, Write(offset, data[..done]));
      assert later[lo..lo + quantum] == now[lo..lo + quantum];
    }
  }

  lemma {:induction false} TransferKeeps(was: Bytes, now: Bytes, extents: seq<Extent>, highWater: nat, quantum: nat, k: nat, done: nat)
    requires k < |extents| && |extents[k].data| == Span(extents[k].count, quantum) && done <= |extents[k].data|
    requires KeepsOutside(was, now, extents, highWater, quantum)
    ensures KeepsOutside(was, Transferred(now, Span(extents[k].start, quantum), extents[k].data, done),
                         extents, highWater, quantum)
  {
    var e := extents[k];
    var later := Transferred(now, Span(e.start, quantum), e.data, done);
    forall b: nat | b < highWater && !InExtents(extents, b) && Span(b, quantum) + quantum <= |was|
      ensures SameBlock(later, was, b, quantum)
    {
      assert SameBlock(now, was, b, quantum);
      assert !InExtent(e, b);
      BlockApart(e, b, quantum);
      TransferSpares(was, now, Span(e.start, quantum), e.data, done, b, quantum);
    }
  }

  lemma {:induction false} ResizeKeeps(was: Bytes, length: nat, extents: seq<Extent>, highWater: nat, quantum: nat)
    requires Span(highWater, quantum) <= length
    ensures KeepsOutside(was, Resized(was, length), extents, highWater, quantum)
  {
    forall b: nat | b < highWater && Span(b, quantum) + quantum <= |was|
      ensures SameBlock(Resized(was, length), was, b, quantum)
    {
      SpanMonotone(b, highWater, quantum);
      ApplySpares(was, Resize(length), Span(b, quantum), Span(b, quantum) + quantum);
    }
  }

  // ---------------------------------------------------------------- settled throughout

  lemma {:induction false} SpareMore(muts: seq<Mutation>, more: seq<Mutation>, lo: nat, hi: nat)
    requires AllSpare(muts, lo, hi) && AllSpare(more, lo, hi)
    ensures AllSpare(muts + more, lo, hi)
  {
  }

  lemma {:induction false} SettledExtent(stable: Bytes, muts: seq<Mutation>, open: Opener, profile: Profile, g: Gen,
                      pieces: seq<Mutation>, e: Extent)
    requires ProfileOk(profile) && Settled(stable, muts, open, profile, g) && ExtentOk(e, profile)
    requires PiecesOf(pieces, Span(e.start, profile.quantum), e.data)
    requires forall b: nat :: InExtent(e, b) ==> Mult(g.reach, b) == 0
    ensures Settled(stable, muts + pieces, open, profile, g)
  {
    SpanMonotone(profile.common, e.start, profile.quantum);
    PiecesSpare(pieces, Span(e.start, profile.quantum), e.data, 0, SlotStart(2));
    SpareMore(muts, pieces, 0, SlotStart(2));
    forall b: nat | Mult(g.reach, b) > 0 ensures SparesBlock(muts + pieces, b, profile.quantum) {
      assert SparesBlock(muts, b, profile.quantum) && !InExtent(e, b);
      BlockApart(e, b, profile.quantum);
      var lo := Span(b, profile.quantum);
      PiecesSpare(pieces, Span(e.start, profile.quantum), e.data, lo, lo + profile.quantum);
      SpareMore(muts, pieces, lo, lo + profile.quantum);
    }
  }

  lemma {:induction false} SettledResize(stable: Bytes, muts: seq<Mutation>, open: Opener, profile: Profile, g: Gen, length: nat)
    requires ProfileOk(profile) && Settled(stable, muts, open, profile, g)
    requires profile.common <= g.pub.highWater && Span(g.pub.highWater, profile.quantum) <= length
    ensures Settled(stable, muts + [Resize(length)], open, profile, g)
  {
    SpanMonotone(profile.common, g.pub.highWater, profile.quantum);
    forall b: nat | Mult(g.reach, b) > 0 ensures SparesBlock(muts + [Resize(length)], b, profile.quantum) {
      assert SparesBlock(muts, b, profile.quantum);
      SpanMonotone(b, g.pub.highWater, profile.quantum);
    }
  }

  // ---------------------------------------------------------------- what is written

  /** The file once all extents are written. */
  function Laid(bytes: Bytes, extents: seq<Extent>, quantum: nat): (out: Bytes)
    ensures |bytes| <= |out|
  {
    if extents == [] then bytes
    else
      var n := |extents| - 1;
      var e := extents[n];
      Transferred(Laid(bytes, extents[..n], quantum), Span(e.start, quantum), e.data, |e.data|)
  }

  ghost predicate Apart(extents: seq<Extent>) {
    forall i, j, b: nat :: 0 <= i < j < |extents| && InExtent(extents[i], b) ==> !InExtent(extents[j], b)
  }

  lemma {:induction false} RangesApart(d: Extent, e: Extent, quantum: nat)
    requires d.count > 0 && e.count > 0 && forall b: nat :: InExtent(d, b) ==> !InExtent(e, b)
    ensures ExtentBytes(d, quantum).1 <= ExtentBytes(e, quantum).0 || ExtentBytes(e, quantum).1 <= ExtentBytes(d, quantum).0
  {
    SpanAdd(d.start, d.count, quantum);
    SpanAdd(e.start, e.count, quantum);
    assert InExtent(d, d.start) && InExtent(e, e.start);
    if d.start < e.start {
      assert !InExtent(d, e.start);
      SpanMonotone(d.start + d.count, e.start, quantum);
    } else {
      SpanMonotone(e.start + e.count, d.start, quantum);
    }
  }

  ghost predicate HoldsExtent(bytes: Bytes, e: Extent, quantum: nat) {
    var (lo, hi) := ExtentBytes(e, quantum);
    hi <= |bytes| && bytes[lo..hi] == e.data
  }

  lemma {:induction false} WroteExtent(bytes: Bytes, e: Extent, profile: Profile)
    requires profile.quantum > 0 && ExtentOk(e, profile)
    ensures HoldsExtent(Transferred(bytes, Span(e.start, profile.quantum), e.data, |e.data|), e, profile.quantum)
  {
    SpanMonotone(1, e.count, profile.quantum);
    assert e.data[..|e.data|] == e.data;
  }

  lemma {:induction false} KeptExtent(bytes: Bytes, d: Extent, e: Extent, profile: Profile)
    requires ExtentOk(d, profile) && ExtentOk(e, profile) && HoldsExtent(bytes, d, profile.quantum)
    requires forall b: nat :: InExtent(d, b) ==> !InExtent(e, b)
    ensures HoldsExtent(Transferred(bytes, Span(e.start, profile.quantum), e.data, |e.data|), d, profile.quantum)
  {
    RangesApart(d, e, profile.quantum);
    var (lo, hi) := ExtentBytes(d, profile.quantum);
    assert e.data[..|e.data|] == e.data;
    ApplySpares(bytes, Write(Span(e.start, profile.quantum), e.data), lo, hi);
  }

  /** Extents that do not overlap are all in place at the end. */
  lemma {:induction false} LaidHolds(bytes: Bytes, extents: seq<Extent>, profile: Profile, k: nat)
    requires profile.quantum > 0 && k < |extents| && Apart(extents)
    requires forall i :: 0 <= i < |extents| ==> ExtentOk(extents[i], profile)
    ensures HoldsExtent(Laid(bytes, extents, profile.quantum), extents[k], profile.quantum)
  {
    var n := |extents| - 1;
    var before := Laid(bytes, extents[..n], profile.quantum);
    assert ExtentOk(extents[n], profile);
    if k == n {
      WroteExtent(before, extents[n], profile);
    } else {
      LaidHolds(bytes, extents[..n], profile, k);
      assert extents[..n][k] == extents[k] && ExtentOk(extents[k], profile);
      KeptExtent(before, extents[k], extents[n], profile);
    }
  }

  // ---------------------------------------------------------------- the commit

  ghost predicate AvoidsReach(extents: seq<Extent>, g: Gen) {
    forall i, b: nat :: 0 <= i < |extents| && InExtent(extents[i], b) ==> Mult(g.reach, b) == 0
  }

  ghost predicate ExtentsOk(extents: seq<Extent>, profile: Profile) {
    forall i :: 0 <= i < |extents| ==> ExtentOk(extents[i], profile)
  }

  /** What each operation does: `None` succeeds, as does any past the end, `Some(n)` fails after `n` bytes. */
  type Faults = seq<Option<nat>>

  function FaultAt(faults: Faults, n: nat): Option<nat> { if n < |faults| then faults[n] else None }

  /** A write of this many bytes stops before its last one. */
  predicate WriteFails(fault: Option<nat>, length: nat) { fault.Some? && fault.value < length }

  function LengthsOf(extents: seq<Extent>): (lengths: seq<nat>)
    ensures |lengths| == |extents| && forall i :: 0 <= i < |extents| ==> lengths[i] == |extents[i].data|
  {
    seq(|extents|, i requires 0 <= i < |extents| => |extents[i].data|)
  }

  /** The first `n` of these writes succeed; operation 0 is the resize before them. */
  predicate AllWritten(faults: Faults, lengths: seq<nat>, n: nat)
    requires n <= |lengths|
  {
    n == 0 || (AllWritten(faults, lengths, n - 1) && !WriteFails(FaultAt(faults, n), lengths[n - 1]))
  }

  lemma {:induction false} StaysFailed(faults: Faults, lengths: seq<nat>, n: nat, m: nat)
    requires n <= m <= |lengths| && !AllWritten(faults, lengths, n)
    ensures !AllWritten(faults, lengths, m)
  {
    if n < m {
      StaysFailed(faults, lengths, n, m - 1);
    }
  }

  /** Something fails before the slot is touched: the resize, an extent or the first barrier. */
  predicate FailsBefore(faults: Faults, lengths: seq<nat>) {
    FaultAt(faults, 0).Some? || !AllWritten(faults, lengths, |lengths|) || FaultAt(faults, |lengths| + 1).Some?
  }

  /** The slot or the second barrier fails. */
  predicate FailsAfter(faults: Faults, writes: nat) {
    WriteFails(FaultAt(faults, writes + 2), SLOT_BYTES) || FaultAt(faults, writes + 3).Some?
  }

  /** Without faults nothing fails. */
  lemma {:induction false} NothingFails(lengths: seq<nat>)
    ensures !FailsBefore([], lengths) && !FailsAfter([], |lengths|)
  {
    NoneFails(lengths, |lengths|);
  }

  lemma {:induction false} NoneFails(lengths: seq<nat>, n: nat)
    requires n <= |lengths|
    ensures AllWritten([], lengths, n)
  {
    if n > 0 {
      NoneFails(lengths, n - 1);
    }
  }

  /** The first `n` extents are laid over `start`, and the old generation is settled. */
  ghost predicate Laying(stable: Bytes, muts: seq<Mutation>, bytes: Bytes, open: Opener, profile: Profile, g: Gen,
                         extents: seq<Extent>, was: Bytes, start: Bytes, n: nat)
  {
    && n <= |extents| && bytes == Laid(start, extents[..n], profile.quantum)
    && LayingSafe(stable, muts, bytes, open, profile, g, extents, was)
  }

  ghost predicate LayingSafe(stable: Bytes, muts: seq<Mutation>, bytes: Bytes, open: Opener, profile: Profile, g: Gen,
                             extents: seq<Extent>, was: Bytes)
  {
    Settled(stable, muts, open, profile, g) && KeepsOutside(was, bytes, extents, g.pub.highWater, profile.quantum)
  }

  method WriteExtent(file: MemoryDurableFile, extents: seq<Extent>, n: nat, profile: Profile, limit: nat, fault: Option<nat>,
                     ghost open: Opener, ghost g: Gen, ghost was: Bytes, ghost start: Bytes)
    returns (ok: bool)
    requires file.Valid() && limit > 0 && ProfileOk(profile) && ExtentsOk(extents, profile) && AvoidsReach(extents, g)
    requires n < |extents| && Laying(file.stable, file.unbarriered, file.bytes, open, profile, g, extents, was, start, n)
    modifies file
    ensures file.Valid() && file.stable == old(file.stable)
    ensures LayingSafe(file.stable, file.unbarriered, file.bytes, open, profile, g, extents, was)
    ensures ok <==> !WriteFails(fault, |extents[n].data|)
    ensures ok ==> Laying(file.stable, file.unbarriered, file.bytes, open, profile, g, extents, was, start, n + 1)
  {
    assert ExtentOk(extents[n], profile) && extents[..n + 1][..n] == extents[..n];
    ghost var pieces, done;
    ok, pieces, done := file.WriteExactAt(Span(extents[n].start, profile.quantum), extents[n].data, limit, fault);
    SettledExtent(file.stable, old(file.unbarriered), open, profile, g, pieces, extents[n]);
    TransferKeeps(was, old(file.bytes), extents, g.pub.highWater, profile.quantum, n, done);
  }

  /** The first `n` extents are written, as the faults allow. */
  ghost predicate WrittenTo(faults: Faults, extents: seq<Extent>, n: nat) {
    n <= |extents| && AllWritten(faults, LengthsOf(extents), n)
  }

  method WriteNext(file: MemoryDurableFile, extents: seq<Extent>, n: nat, profile: Profile, limit: nat, faults: Faults,
                   ghost open: Opener, ghost g: Gen, ghost was: Bytes, ghost start: Bytes)
    returns (ok: bool)
    requires file.Valid() && limit > 0 && ProfileOk(profile) && ExtentsOk(extents, profile) && AvoidsReach(extents, g)
    requires n < |extents| && Laying(file.stable, file.unbarriered, file.bytes, open, profile, g, extents, was, start, n)
    requires WrittenTo(faults, extents, n)
    modifies file
    ensures file.Valid() && file.stable == old(file.stable)
    ensures LayingSafe(file.stable, file.unbarriered, file.bytes, open, profile, g, extents, was)
    ensures ok ==> Laying(file.stable, file.unbarriered, file.bytes, open, profile, g, extents, was, start, n + 1)
    ensures ok ==> WrittenTo(faults, extents, n + 1)
    ensures !ok ==> !WrittenTo(faults, extents, |extents|)
  {
    ok := WriteExtent(file, extents, n, profile, limit, FaultAt(faults, n + 1), open, g, was, start);
    if !ok {
      StaysFailed(faults, LengthsOf(extents), n + 1, |extents|);
    }
  }

  method WriteExtents(file: MemoryDurableFile, extents: seq<Extent>, profile: Profile, limit: nat, faults: Faults,
                      ghost open: Opener, ghost g: Gen, ghost was: Bytes)
    returns (ok: bool)
    requires file.Valid() && limit > 0 && ProfileOk(profile) && ExtentsOk(extents, profile) && AvoidsReach(extents, g)
    requires LayingSafe(file.stable, file.unbarriered, file.bytes, open, profile, g, extents, was)
    modifies file
    ensures file.Valid() && file.stable == old(file.stable)
    ensures LayingSafe(file.stable, file.unbarriered, file.bytes, open, profile, g, extents, was)
    ensures ok ==> file.bytes == Laid(old(file.bytes), extents, profile.quantum)
    ensures ok <==> WrittenTo(faults, extents, |extents|)
  {
    assert extents[..0] == [];
    for n := 0 to |extents|
      invariant file.Valid() && file.stable == old(file.stable) && WrittenTo(faults, extents, n)
      invariant Laying(file.stable, file.unbarriered, file.bytes, open, profile, g, extents, was, old(file.bytes), n)
    {
      ok := WriteNext(file, extents, n, profile, limit, faults, open, g, was, old(file.bytes));
      if !ok {
        return;
      }
    }
    assert extents[..|extents|] == extents;
    ok := true;
  }

  datatype Outcome = Committed | CommitFailed | OutcomeUnknown

  /** What a commit is handed: extents that avoid the current generation, and the
      sealed slot of a publication that succeeds it. */
  ghost predicate CommitInput(stable: Bytes, open: Opener, profile: Profile, g: Gen,
                              extents: seq<Extent>, pub: Pub, reach: seq<Run>, slot: Bytes)
  {
    && ProfileOk(profile) && ExtentsOk(extents, profile) && AvoidsReach(extents, g)
    && profile.common <= g.pub.highWater <= pub.highWater
    && pub.generation == g.pub.generation + 1 && pub.index == pub.generation % 2 && ValidPub(pub, pub.index, profile)
    && GenOk(Gen(pub, reach, []), profile)
    && |slot| == SLOT_BYTES && open(pub.index, slot) == Some(pub)
    && SlotStart(2) <= |stable| && TearResistant(open, pub.index, SlotAt(stable, pub.index), slot)
  }

  /** After the first barrier the old generation still opens, from unchanged slots. */
  lemma {:induction false} SettledBarrier(stable: Bytes, muts: seq<Mutation>, open: Opener, profile: Profile, g: Gen)
    requires Settled(stable, muts, open, profile, g)
    ensures Opens(Performed(stable, muts), open, profile, g)
    ensures SlotStart(2) <= |Performed(stable, muts)|
    ensures forall i :: 0 <= i < 2 ==> SlotAt(Performed(stable, muts), i) == SlotAt(stable, i)
  {
    PerformedIsReplay(stable, muts);
    SettledSurvives(stable, muts, open, profile, g, InOrder(|muts|));
    SparedSlots(stable, muts);
  }

  lemma {:induction false} SparedSlots(stable: Bytes, muts: seq<Mutation>)
    requires SlotStart(2) <= |stable| && AllSpare(muts, 0, SlotStart(2))
    ensures SlotStart(2) <= |Performed(stable, muts)|
    ensures forall i :: 0 <= i < 2 ==> SlotAt(Performed(stable, muts), i) == SlotAt(stable, i)
  {
    PerformedIsReplay(stable, muts);
    ReplaySpares(stable, muts, InOrder(|muts|), 0, SlotStart(2));
    forall i | 0 <= i < 2 ensures SlotAt(Performed(stable, muts), i) == SlotAt(stable, i) {
      SameSlot(stable, Performed(stable, muts), i);
    }
  }

  /** Everything written so far is the content of the new generation. */
  lemma {:induction false} NewContent(bytes: Bytes, profile: Profile, next: Gen)
    requires ProfileOk(profile) && GenOk(next, profile) && next.image == bytes
    requires Span(next.pub.highWater, profile.quantum) <= |bytes|
    ensures HoldsGen(bytes, next, profile.quantum)
  {
    forall b: nat | Mult(next.reach, b) > 0 ensures SameBlock(bytes, next.image, b, profile.quantum) {
      SpanMonotone(b, next.pub.highWater, profile.quantum);
    }
  }

  /** The slot is completely written and stable: the new generation is settled. */
  lemma {:induction false} Published(stable: Bytes, open: Opener, profile: Profile, g: Gen, next: Gen, slot: Bytes)
    requires ProfileOk(profile) && Publishing(stable, [], open, profile, g, next, slot)
    ensures Settled(Overlay(stable, SlotStart(next.pub.index), slot), [], open, profile, next)
  {
    var i := next.pub.index;
    var muts := [Write(SlotStart(i), slot)];
    var now := Overlay(stable, SlotStart(i), slot);
    assert slot == slot[0..|slot|];
    assert Replay(stable, muts, [0][..0]) == stable && Replay(stable, muts, [0]) == now;
    SlotKeepsGen(stable, muts, [0], profile, g, i, slot);
    SlotKeepsGen(stable, muts, [0], profile, next, i, slot);
    SlotsAfterCrash(stable, muts, [0], i, slot);
    assert SlotAt(now, i) == slot;
    ReplacedSlot(stable, now, open, profile, g, next);
  }

  /** The slot write leaves every block alone. */
  lemma {:induction false} SlotKeepsOutside(was: Bytes, now: Bytes, extents: seq<Extent>, profile: Profile, highWater: nat,
                         i: nat, slot: Bytes, done: nat)
    requires ProfileOk(profile) && i < 2 && |slot| == SLOT_BYTES && done <= |slot|
    requires KeepsCommitted(was, now, extents, profile, highWater)
    ensures KeepsCommitted(was, Transferred(now, SlotStart(i), slot, done), extents, profile, highWater)
  {
    var later := Transferred(now, SlotStart(i), slot, done);
    var q := profile.quantum;
    forall b: nat | profile.common <= b < highWater && !InExtents(extents, b) && Span(b, q) + q <= |was|
      ensures SameBlock(later, was, b, q)
    {
      assert SameBlock(now, was, b, q);
      SpanMonotone(profile.common, b, q);
      TransferSpares(was, now, SlotStart(i), slot, done, b, q);
    }
  }

  /** As `KeepsOutside`, for the blocks above the common region. */
  ghost predicate KeepsCommitted(was: Bytes, now: Bytes, extents: seq<Extent>, profile: Profile, highWater: nat) {
    forall b: nat :: profile.common <= b < highWater && !InExtents(extents, b)
                     && Span(b, profile.quantum) + profile.quantum <= |was|
      ==> SameBlock(now, was, b, profile.quantum)
  }

  /** Extents and the first barrier. */
  method StabilizeExtents(file: MemoryDurableFile, extents: seq<Extent>, profile: Profile, limit: nat, faults: Faults,
                          highWater: nat, ghost open: Opener, ghost g: Gen)
    returns (ok: bool)
    requires file.Valid() && limit > 0 && ProfileOk(profile) && ExtentsOk(extents, profile) && AvoidsReach(extents, g)
    requires profile.common <= g.pub.highWater <= highWater
    requires Settled(file.stable, file.unbarriered, open, profile, g)
    modifies file
    ensures file.Valid()
    ensures KeepsCommitted(old(file.bytes), file.bytes, extents, profile, g.pub.highWater)
    ensures !ok ==> Settled(file.stable, file.unbarriered, open, profile, g)
    ensures ok <==> !FailsBefore(faults, LengthsOf(extents))
    ensures ok ==> file.stable == file.bytes && file.unbarriered == []
                   && file.bytes == Laid(Resized(old(file.bytes), Span(highWater, profile.quantum)), extents, profile.quantum)
                   && Opens(file.bytes, open, profile, g) && SlotStart(2) <= |file.bytes| && SlotStart(2) <= |old(file.stable)|
                   && forall i :: 0 <= i < 2 ==> SlotAt(file.bytes, i) == SlotAt(old(file.stable), i)
  {
    ghost var was := file.bytes;
    SpanMonotone(g.pub.highWater, highWater, profile.quantum);
    SettledResize(file.stable, file.unbarriered, open, profile, g, Span(highWater, profile.quantum));
    ResizeKeeps(was, Span(highWater, profile.quantum), extents, g.pub.highWater, profile.quantum);
    KeepsItself(was, extents, g.pub.highWater, profile.quantum);
    ok := file.SetLength(Span(highWater, profile.quantum), FaultAt(faults, 0).Some?);
    if !ok {
      return;
    }
    ok := WriteExtents(file, extents, profile, limit, faults, open, g, was);
    if !ok {
      return;
    }
    SettledBarrier(file.stable, file.unbarriered, open, profile, g);
    ok := file.Barrier(FaultAt(faults, |extents| + 1).Some?);
  }

  lemma {:induction false} KeepsItself(was: Bytes, extents: seq<Extent>, highWater: nat, quantum: nat)
    ensures KeepsOutside(was, was, extents, highWater, quantum)
  {
  }

  /** The slot and the second barrier. */
  method PublishSlot(file: MemoryDurableFile, pub: Pub, slot: Bytes, profile: Profile, limit: nat,
                     slotFault: Option<nat>, barrierFails: bool,
                     ghost open: Opener, ghost g: Gen, ghost next: Gen, ghost extents: seq<Extent>, ghost was: Bytes)
    returns (ok: bool)
    requires file.Valid() && limit > 0 && ProfileOk(profile) && file.unbarriered == [] && next.pub == pub
    requires Publishing(file.stable, [], open, profile, g, next, slot)
    requires KeepsCommitted(was, file.bytes, extents, profile, g.pub.highWater)
    modifies file
    ensures file.Valid()
    ensures KeepsCommitted(was, file.bytes, extents, profile, g.pub.highWater)
    ensures ok ==> file.unbarriered == [] && Settled(file.stable, [], open, profile, next)
    ensures !ok ==> Publishing(file.stable, file.unbarriered, open, profile, g, next, slot)
    ensures ok <==> !WriteFails(slotFault, SLOT_BYTES) && !barrierFails
  {
    ghost var before := file.bytes;
    assert before == file.stable;
    ghost var pieces, done;
    ok, pieces, done := file.WriteExactAt(SlotStart(pub.index), slot, limit, slotFault);
    SlotKeepsOutside(was, before, extents, profile, g.pub.highWater, pub.index, slot, done);
    assert [] + pieces == pieces;
    if !ok {
      return;
    }
    assert slot[..|slot|] == slot;
    Published(before, open, profile, g, next, slot);
    ok := file.Barrier(barrierFails);
  }

  /** A whole commit.  A failure before the slot is touched leaves the old generation
      settled; a failure later leaves it undecided; success settles the new one. */
  method CommitWrites(file: MemoryDurableFile, profile: Profile, extents: seq<Extent>, pub: Pub, slot: Bytes,
                      limit: nat, faults: Faults, ghost open: Opener, ghost g: Gen, ghost reach: seq<Run>)
    returns (outcome: Outcome, ghost next: Gen)
    requires file.Valid() && limit > 0 && Settled(file.stable, file.unbarriered, open, profile, g)
    requires CommitInput(file.stable, open, profile, g, extents, pub, reach, slot)
    modifies file
    ensures file.Valid()
    ensures KeepsCommitted(old(file.bytes), file.bytes, extents, profile, g.pub.highWater)
    ensures next.pub == pub && next.reach == reach
    ensures next.image == Laid(Resized(old(file.bytes), Span(pub.highWater, profile.quantum)), extents, profile.quantum)
    ensures outcome == CommitFailed ==> Settled(file.stable, file.unbarriered, open, profile, g)
    ensures outcome == OutcomeUnknown ==> Publishing(file.stable, file.unbarriered, open, profile, g, next, slot)
    ensures outcome == Committed ==> file.unbarriered == [] && Settled(file.stable, [], open, profile, next)
    ensures outcome == CommitFailed <==> FailsBefore(faults, LengthsOf(extents))
    ensures outcome == OutcomeUnknown <==> !FailsBefore(faults, LengthsOf(extents)) && FailsAfter(faults, |extents|)
  {
    next := Gen(pub, reach, Laid(Resized(file.bytes, Span(pub.highWater, profile.quantum)), extents, profile.quantum));
    ghost var was := file.bytes;
    assert GenOk(next, profile);
    var ok := StabilizeExtents(file, extents, profile, limit, faults, pub.highWater, open, g);
    if !ok {
      outcome := CommitFailed;
      return;
    }
    NewContent(file.bytes, profile, next);
    assert Publishing(file.stable, [], open, profile, g, next, slot);
    ok := PublishSlot(file, pub, slot, profile, limit, FaultAt(faults, |extents| + 2), FaultAt(faults, |extents| + 3).Some?,
                      open, g, next, extents, was);
    outcome := if ok then Committed else OutcomeUnknown;
  }
}
