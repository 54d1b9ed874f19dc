/** A write transaction's Blob state: chunks are staged as writers fill them, and every
    operation, failing or not, keeps the block split and the streams. */
module BlobTransaction {
  import opened ExtentRuns
  import opened Retirement
  import opened StagingRuns
  import opened Basics
  import opened BlobContent
  import opened CommitAllocation
  import opened BlobStaging
  import opened MapSums

  /** A finished version together with the bytes it was written from. */
  datatype Snapshot = Snapshot(version: Version, stream: seq<byte>)

  /** Finished chunks stay where they are, pending or discarded. */
  ghost predicate Settled(owners: Owners, chunks: seq<Run>) {
    forall b :: Mult(chunks, b) > 0 ==> owners(b).Pending? || owners(b) == Discarded
  }

  ghost predicate Carried(file: File, w: Writer, stream: seq<byte>, size: nat) {
    && Streaming(file, w.chunks, w.buffer, stream, size)
    && |w.buffer| < size
    && w.position == |stream|
  }

  ghost predicate Kept(file: File, s: Snapshot, owners: Owners, size: nat)
    requires size > 0
  {
    && Stored(file, s.version.chunks, s.stream, size)
    && s.version.size == |s.stream|
    && Settled(owners, s.version.chunks)
  }

  ghost predicate Content(file: File, writers: map<BlobId, Writer>, streams: map<BlobId, seq<byte>>,
                          finished: set<Snapshot>, owners: Owners, size: nat)
    requires size > 0
  {
    && streams.Keys == writers.Keys
    && (forall id {:trigger Carried(file, writers[id], streams[id], size)} ::
          id in writers ==> Carried(file, writers[id], streams[id], size))
    && (forall s {:trigger Kept(file, s, owners, size)} :: s in finished ==> Kept(file, s, owners, size))
  }

  // ---------------------------------------------------------------- writes keep content

  ghost predicate Avoids(chunks: seq<Run>, r: Run) {
    forall i, b :: 0 <= i < |chunks| && chunks[i].Has(b) ==> !r.Has(b)
  }

  lemma {:induction false} ChunksAvoid(chunks: seq<Run>, r: Run)
    requires forall b :: r.Has(b) ==> Mult(chunks, b) == 0
    ensures Avoids(chunks, r)
  {
    forall i, b | 0 <= i < |chunks| && chunks[i].Has(b) ensures !r.Has(b) {
      MultOfMember(chunks, i, b);
    }
  }

  lemma {:induction false} ChunkKept(file: File, r: Run, sealed: Sealed, k: nat, chunks: seq<Run>, stream: seq<byte>, size: nat, i: nat)
    requires k <= r.count && i < |chunks| && Avoids(chunks, r) && HoldsChunk(file, chunks, stream, size, i)
    ensures HoldsChunk(WriteBlocks(file, r.start, sealed, k), chunks, stream, size, i)
  {
    WriteKeeps(file, r, sealed, k, chunks[i], Sealed(i, ChunkOf(stream, size, i)));
  }

  lemma {:induction false} StreamingKept(file: File, r: Run, sealed: Sealed, k: nat, chunks: seq<Run>, buffer: seq<byte>,
                      stream: seq<byte>, size: nat)
    requires k <= r.count && Avoids(chunks, r) && Streaming(file, chunks, buffer, stream, size)
    ensures Streaming(WriteBlocks(file, r.start, sealed, k), chunks, buffer, stream, size)
  {
    forall i | 0 <= i < |chunks|
      ensures HoldsChunk(WriteBlocks(file, r.start, sealed, k), chunks, stream, size, i)
    {
      ChunkKept(file, r, sealed, k, chunks, stream, size, i);
    }
  }

  lemma {:induction false} StoredKept(file: File, r: Run, sealed: Sealed, k: nat, chunks: seq<Run>, stream: seq<byte>, size: nat)
    requires size > 0 && k <= r.count && Avoids(chunks, r) && Stored(file, chunks, stream, size)
    ensures Stored(WriteBlocks(file, r.start, sealed, k), chunks, stream, size)
  {
    forall i | 0 <= i < |chunks|
      ensures HoldsChunk(WriteBlocks(file, r.start, sealed, k), chunks, stream, size, i)
    {
      ChunkKept(file, r, sealed, k, chunks, stream, size, i);
    }
  }

  /** Writing into blocks nobody holds leaves every stream and version as it was. */
  lemma {:induction false} ContentWrite(file: File, r: Run, sealed: Sealed, k: nat, writers: map<BlobId, Writer>,
                     streams: map<BlobId, seq<byte>>, pending: map<BlobId, Version>, finished: set<Snapshot>,
                     owners: Owners, size: nat)
    requires size > 0 && k <= r.count && Content(file, writers, streams, finished, owners, size)
    requires OwnedPerBlob(writers, pending, owners)
    requires forall b :: r.Has(b) ==> owners(b) == Free || owners(b) == Nobody
    ensures Content(WriteBlocks(file, r.start, sealed, k), writers, streams, finished, Given(owners, r, Prepared), size)
  {
    var file' := WriteBlocks(file, r.start, sealed, k);
    var owners' := Given(owners, r, Prepared);
    forall id | id in writers ensures Carried(file', writers[id], streams[id], size) {
      assert OwnedBy(writers[id].chunks, owners, Writing(id));
      assert Carried(file, writers[id], streams[id], size);
      ChunksAvoid(writers[id].chunks, r);
      StreamingKept(file, r, sealed, k, writers[id].chunks, writers[id].buffer, streams[id], size);
    }
    forall s | s in finished ensures Kept(file', s, owners', size) {
      assert Kept(file, s, owners, size);
      ChunksAvoid(s.version.chunks, r);
      StoredKept(file, r, sealed, k, s.version.chunks, s.stream, size);
    }
  }

  /** Owners may change as long as finished chunks stay settled. */
  lemma {:induction false} ContentOwners(file: File, writers: map<BlobId, Writer>, streams: map<BlobId, seq<byte>>,
                      finished: set<Snapshot>, owners: Owners, owners': Owners, size: nat)
    requires size > 0 && Content(file, writers, streams, finished, owners, size)
    requires forall b :: owners(b).Pending? || owners(b) == Discarded ==> owners'(b).Pending? || owners'(b) == Discarded
    ensures Content(file, writers, streams, finished, owners', size)
  {
    forall s | s in finished ensures Kept(file, s, owners', size) {
      assert Kept(file, s, owners, size);
    }
  }

  // ---------------------------------------------------------------- counting chunks

  function ChunkTotal(w: Writer): nat { |w.chunks| }

  /** Chunks staged by open writers, all of which an abort would have to give back. */
  ghost function StagedChunks(writers: map<BlobId, Writer>): nat { SumOf(writers, ChunkTotal) }

  // ---------------------------------------------------------------- states

  /** Everything a transaction's Blob state consists of; `committed` are the versions of
      earlier generations that it still sees. */
  datatype State = State(file: File, lists: Lists, capacity: nat, abortable: nat,
                         owners: Owners, streams: map<BlobId, seq<byte>>, finished: set<Snapshot>,
                         committed: map<BlobId, Version>)

  /** What stays fixed during the transaction. */
  datatype Setting = Setting(initial: seq<Run>, start: nat, chunkSize: nat)

  /** The block split, the streams, and enough spare capacity for every abort. */
  ghost predicate Ok(s: State, c: Setting) {
    && c.chunkSize > 0 && InitialRuns(c.initial, c.start)
    && Split(s.lists, s.owners, c.initial, c.start)
    && Gapped(s.lists.free)
    && Content(s.file, s.lists.writers, s.streams, s.finished, s.owners, c.chunkSize)
    && s.abortable == StagedChunks(s.lists.writers) + |s.lists.prepared|
    && s.capacity >= |s.lists.free| + s.abortable
    && s.committed.Keys !! s.lists.pending.Keys
    && PendingFinished(s.lists.pending, s.finished)
  }

  /** Every pending version was finished by its writer. */
  ghost predicate PendingFinished(pending: map<BlobId, Version>, finished: set<Snapshot>) {
    forall id :: id in pending ==> FinishedAs(pending[id], finished)
  }

  ghost predicate FinishedAs(v: Version, finished: set<Snapshot>) {
    exists s :: s in finished && s.version == v
  }

  ghost function AfterRelease(s: State, k: nat, free': seq<Run>): State
    requires k < |s.lists.prepared| && s.abortable > 0
  {
    s.(lists := s.lists.(free := free', prepared := Dropping(s.lists.prepared, k)), abortable := s.abortable - 1,
       owners := Given(s.owners, s.lists.prepared[k], Free))
  }

  lemma {:induction false} ReleaseOk(s: State, c: Setting, k: nat, free': seq<Run>)
    requires Ok(s, c) && k < |s.lists.prepared| && Gapped(free') && |free'| <= |s.lists.free| + 1
    requires forall b :: Covers(free', b) <==> Covers(s.lists.free, b) || s.lists.prepared[k].Has(b)
    ensures s.abortable > 0 && s.capacity > |s.lists.free| && Ok(AfterRelease(s, k, free'), c)
  {
    SplitRelease(s.lists, s.owners, c.initial, c.start, k, free');
    ContentOwners(s.file, s.lists.writers, s.streams, s.finished, s.owners,
                  Given(s.owners, s.lists.prepared[k], Free), c.chunkSize);
  }

  ghost function AfterStage(s: State, r: Run, sealed: Sealed, k: nat, free': seq<Run>, next': nat): State {
    s.(file := WriteBlocks(s.file, r.start, sealed, k),
       lists := s.lists.(free := free', next := next', prepared := s.lists.prepared + [r]),
       capacity := Max(s.capacity, |s.lists.free| + s.abortable + 1), abortable := s.abortable + 1,
       owners := Given(s.owners, r, Prepared))
  }

  lemma {:induction false} StageOk(s: State, c: Setting, r: Run, sealed: Sealed, k: nat, free': seq<Run>, next': nat)
    requires Ok(s, c) && k <= r.count && Taken(s.lists.free, s.lists.next, r, free', next')
    ensures Ok(AfterStage(s, r, sealed, k, free', next'), c)
    ensures forall b :: r.Has(b) ==> s.owners(b) == Free || s.owners(b) == Nobody
  {
    SplitStage(s.lists, s.owners, c.initial, c.start, r, free', next');
    ContentWrite(s.file, r, sealed, k, s.lists.writers, s.streams, s.lists.pending, s.finished, s.owners, c.chunkSize);
  }

  lemma {:induction false} GapsAfterTake(free: seq<Run>, i: nat, count: nat)
    requires Gapped(free) && i < |free| && free[i].count >= count
    ensures Gapped(free[i := Run(free[i].start + count, free[i].count - count, free[i].gen)])
  {
  }

  lemma {:induction false} AllocationKeepsGaps(free: seq<Run>, count: nat)
    requires Gapped(free)
    ensures Gapped(FitRest(free, count)) && |FitRest(free, count)| == |free|
  {
    var i := FitIndex(free, count);
    if i < |free| {
      GapsAfterTake(free, i, count);
    }
  }

  /** What giving blocks back, or failing to stage, leaves alone. */
  ghost predicate SameBlobs(s: State, t: State) {
    && s.lists.writers == t.lists.writers && s.lists.pending == t.lists.pending
    && s.lists.discarded == t.lists.discarded
    && s.streams == t.streams && s.finished == t.finished && s.committed == t.committed
  }

  ghost function AfterKeep(s: State, id: BlobId, w: Writer, stream: seq<byte>): State {
    s.(lists := s.lists.(prepared := [], writers := s.lists.writers[id := w]),
       owners := Renamed(s.owners, Prepared, Writing(id)), streams := s.streams[id := stream])
  }

  /** A successful write: the prepared chunks are the writer's. */
  lemma {:induction false} KeepOk(s: State, c: Setting, id: BlobId, w: Writer, stream: seq<byte>)
    requires Ok(s, c) && id in s.lists.writers && w.chunks == s.lists.writers[id].chunks + s.lists.prepared
    requires Carried(s.file, w, stream, c.chunkSize)
    ensures Ok(AfterKeep(s, id, w, stream), c)
  {
    SplitKeep(s.lists, s.owners, c.initial, c.start, id, w);
    SumUpdate(s.lists.writers, ChunkTotal, id, w);
    ContentKeep(s, c, id, w, stream);
  }

  lemma {:induction false} ContentKeep(s: State, c: Setting, id: BlobId, w: Writer, stream: seq<byte>)
    requires c.chunkSize > 0 && Content(s.file, s.lists.writers, s.streams, s.finished, s.owners, c.chunkSize)
    requires id in s.lists.writers && Carried(s.file, w, stream, c.chunkSize)
    ensures Content(s.file, s.lists.writers[id := w], s.streams[id := stream], s.finished,
                    Renamed(s.owners, Prepared, Writing(id)), c.chunkSize)
  {
    var owners' := Renamed(s.owners, Prepared, Writing(id));
    ContentOwners(s.file, s.lists.writers, s.streams, s.finished, s.owners, owners', c.chunkSize);
    WriterContent(s.file, s.lists.writers, s.streams, s.finished, owners', c.chunkSize, id, w, stream);
  }

  ghost function AfterAbandon(s: State, id: BlobId): State
    requires id in s.lists.writers
  {
    s.(lists := s.lists.(prepared := s.lists.writers[id].chunks, writers := s.lists.writers - {id}),
       owners := Renamed(s.owners, Writing(id), Prepared), streams := s.streams - {id})
  }

  lemma {:induction false} AbandonOk(s: State, c: Setting, id: BlobId)
    requires Ok(s, c) && id in s.lists.writers && s.lists.prepared == []
    ensures Ok(AfterAbandon(s, id), c)
  {
    SplitAbandon(s.lists, s.owners, c.initial, c.start, id);
    SumSplit(s.lists.writers, ChunkTotal, id);
    ContentOwners(s.file, s.lists.writers, s.streams, s.finished, s.owners,
                  Renamed(s.owners, Writing(id), Prepared), c.chunkSize);
  }

  ghost function AfterDiscard(s: State, id: BlobId): State
    requires id in s.lists.pending
  {
    s.(lists := s.lists.(discarded := s.lists.discarded + s.lists.pending[id].chunks, pending := s.lists.pending - {id}),
       owners := Renamed(s.owners, Pending(id), Discarded))
  }

  lemma {:induction false} DiscardOk(s: State, c: Setting, id: BlobId)
    requires Ok(s, c) && id in s.lists.pending
    ensures Ok(AfterDiscard(s, id), c)
  {
    SplitDiscard(s.lists, s.owners, c.initial, c.start, id);
    ContentOwners(s.file, s.lists.writers, s.streams, s.finished, s.owners,
                  Renamed(s.owners, Pending(id), Discarded), c.chunkSize);
  }

  /** A writer's chunks, prepared ones included, become a pending version. */
  ghost function AfterFinish(s: State, id: BlobId, v: Version): State
    requires id in s.lists.writers && id in s.streams
    requires s.abortable >= |v.chunks|
  {
    var mid := Renamed(s.owners, Prepared, Writing(id));
    s.(lists := s.lists.(prepared := [], writers := s.lists.writers - {id}, pending := s.lists.pending[id := v]),
       abortable := s.abortable - |v.chunks|,
       owners := Renamed(mid, Writing(id), Pending(id)),
       streams := s.streams - {id}, finished := s.finished + {Snapshot(v, s.streams[id])},
       committed := s.committed - {id})
  }

  lemma {:induction false} FinishSplit(l: Lists, owners: Owners, c: Setting, id: BlobId, v: Version)
    requires Split(l, owners, c.initial, c.start) && id in l.writers && id !in l.pending
    requires v.chunks == l.writers[id].chunks + l.prepared
    ensures Split(l.(prepared := [], writers := l.writers - {id}, pending := l.pending[id := v]),
                  Renamed(Renamed(owners, Prepared, Writing(id)), Writing(id), Pending(id)), c.initial, c.start)
    ensures OwnedBy(v.chunks, Renamed(Renamed(owners, Prepared, Writing(id)), Writing(id), Pending(id)), Pending(id))
  {
    var w := l.writers[id].(chunks := v.chunks);
    SplitKeep(l, owners, c.initial, c.start, id, w);
    var l2 := l.(prepared := [], writers := l.writers[id := w]);
    SplitFinish(l2, Renamed(owners, Prepared, Writing(id)), c.initial, c.start, id, v);
    assert l2.writers - {id} == l.writers - {id};
  }

  lemma {:induction false} FinishOk(s: State, c: Setting, id: BlobId, v: Version)
    requires Ok(s, c) && id in s.lists.writers && id !in s.lists.pending
    requires v.chunks == s.lists.writers[id].chunks + s.lists.prepared
    requires Stored(s.file, v.chunks, s.streams[id], c.chunkSize) && v.size == |s.streams[id]|
    ensures s.abortable >= |v.chunks| && Ok(AfterFinish(s, id, v), c)
  {
    FinishSplit(s.lists, s.owners, c, id, v);
    SumSplit(s.lists.writers, ChunkTotal, id);
    var t := AfterFinish(s, id, v);
    ContentOwners(s.file, s.lists.writers, s.streams, s.finished, s.owners, t.owners, c.chunkSize);
    assert OwnedBy(v.chunks, t.owners, Pending(id));
    assert Kept(s.file, Snapshot(v, s.streams[id]), t.owners, c.chunkSize);
    forall k | k in t.lists.pending ensures FinishedAs(t.lists.pending[k], t.finished) {
      if k == id {
        assert Snapshot(v, s.streams[id]) in t.finished;
      } else {
        assert FinishedAs(s.lists.pending[k], s.finished);
        var x :| x in s.finished && x.version == s.lists.pending[k];
        assert x in t.finished;
      }
    }
  }

  function NewWriter(): Writer { Writer([], [], 0) }

  ghost function AfterOpen(s: State, id: BlobId): State {
    s.(lists := s.lists.(writers := s.lists.writers[id := NewWriter()]), streams := s.streams[id := []])
  }

  lemma {:induction false} OpenContent(s: State, c: Setting, id: BlobId)
    requires c.chunkSize > 0 && Content(s.file, s.lists.writers, s.streams, s.finished, s.owners, c.chunkSize)
    requires id !in s.lists.writers
    ensures Content(s.file, s.lists.writers[id := NewWriter()], s.streams[id := []], s.finished, s.owners, c.chunkSize)
  {
    WriterContent(s.file, s.lists.writers, s.streams, s.finished, s.owners, c.chunkSize, id, NewWriter(), []);
  }

  /** One writer's state and stream change together. */
  lemma {:induction false} WriterContent(file: File, writers: map<BlobId, Writer>, streams: map<BlobId, seq<byte>>,
                                         finished: set<Snapshot>, owners: Owners, size: nat, id: BlobId, w: Writer, stream: seq<byte>)
    requires size > 0 && Content(file, writers, streams, finished, owners, size) && Carried(file, w, stream, size)
    ensures Content(file, writers[id := w], streams[id := stream], finished, owners, size)
  {
    var writers', streams' := writers[id := w], streams[id := stream];
    forall k | k in writers' ensures Carried(file, writers'[k], streams'[k], size) {
      if k != id {
        assert Carried(file, writers[k], streams[k], size);
      }
    }
    forall s | s in finished ensures Kept(file, s, owners, size) {
    }
  }

  lemma {:induction false} OpenOk(s: State, c: Setting, id: BlobId)
    requires Ok(s, c) && id !in s.lists.writers
    ensures Ok(AfterOpen(s, id), c)
  {
    SplitOpen(s.lists, s.owners, c.initial, c.start, id, NewWriter());
    OpenContent(s, c, id);
    SumUpdate(s.lists.writers, ChunkTotal, id, NewWriter());
  }

  /** Staging one more chunk does not disturb a stream whose chunks are held. */
  lemma {:induction false} StreamingAfterStage(s: State, c: Setting, id: BlobId, buffer: seq<byte>, stream: seq<byte>,
                            r: Run, sealed: Sealed, k: nat)
    requires Ok(s, c) && id in s.lists.writers && k <= r.count
    requires Streaming(s.file, s.lists.writers[id].chunks + s.lists.prepared, buffer, stream, c.chunkSize)
    requires forall b :: r.Has(b) ==> s.owners(b) == Free || s.owners(b) == Nobody
    ensures Streaming(WriteBlocks(s.file, r.start, sealed, k), s.lists.writers[id].chunks + s.lists.prepared,
                      buffer, stream, c.chunkSize)
  {
    var chunks := s.lists.writers[id].chunks;
    assert OwnedBy(chunks, s.owners, Writing(id));
    forall b | r.Has(b) ensures Mult(chunks + s.lists.prepared, b) == 0 {
      MultConcat(chunks, s.lists.prepared, b);
    }
    ChunksAvoid(chunks + s.lists.prepared, r);
    StreamingKept(s.file, r, sealed, k, chunks + s.lists.prepared, buffer, stream, c.chunkSize);
  }

  // ---------------------------------------------------------------- what the commit sees

  function PendingChunks(ids: seq<BlobId>, pending: map<BlobId, Version>): seq<Run>
    requires forall i :: 0 <= i < |ids| ==> ids[i] in pending
  {
    if ids == [] then [] else PendingChunks(ids[..|ids| - 1], pending) + pending[ids[|ids| - 1]].chunks
  }

  ghost predicate Distinct(ids: seq<BlobId>) {
    forall i, j :: 0 <= i < j < |ids| ==> ids[i] != ids[j]
  }

  lemma {:induction false} PendingCover(ids: seq<BlobId>, writers: map<BlobId, Writer>, pending: map<BlobId, Version>,
                                        owners: Owners, b: int)
    requires Distinct(ids) && forall i :: 0 <= i < |ids| ==> ids[i] in pending
    requires OwnedPerBlob(writers, pending, owners)
    ensures Mult(PendingChunks(ids, pending), b) == One(owners(b).Pending? && owners(b).id in ids)
  {
    if ids != [] {
      var n := |ids| - 1;
      PendingCover(ids[..n], writers, pending, owners, b);
      MultConcat(PendingChunks(ids[..n], pending), pending[ids[n]].chunks, b);
      assert OwnedBy(pending[ids[n]].chunks, owners, Pending(ids[n]));
      assert ids == ids[..n] + [ids[n]];
    }
  }

  lemma {:induction false} PendingPositive(s: State, c: Setting, ids: seq<BlobId>)
    requires Ok(s, c) && forall i :: 0 <= i < |ids| ==> ids[i] in s.lists.pending
    ensures Positive(PendingChunks(ids, s.lists.pending))
  {
    if ids != [] {
      var n := |ids| - 1;
      PendingPositive(s, c, ids[..n]);
      assert FinishedAs(s.lists.pending[ids[n]], s.finished);
      var x :| x in s.finished && x.version == s.lists.pending[ids[n]];
      assert Kept(s.file, x, s.owners, c.chunkSize);
      forall i | 0 <= i < |x.version.chunks| ensures x.version.chunks[i].count > 0 {
        assert HoldsChunk(s.file, x.version.chunks, x.stream, c.chunkSize, i);
      }
    }
  }

  /** Conservation, as the commit relies on it: once every writer is finished or aborted,
      the initial free runs and the appended tail are split without overlap among the
      free runs, the pending versions and the discarded chunks. */
  lemma {:induction false} StagingConserved(s: State, c: Setting, ids: seq<BlobId>)
    requires Ok(s, c) && s.lists.writers == map[] && s.lists.prepared == []
    requires Distinct(ids) && forall id :: id in ids <==> id in s.lists.pending
    ensures StagingConserves(Staged(s.lists.free, s.lists.next, s.lists.discarded,
                                    PendingChunks(ids, s.lists.pending)), c.initial, c.start)
    ensures Positive(PendingChunks(ids, s.lists.pending))
  {
    PendingPositive(s, c, ids);
    forall b
      ensures Mult(s.lists.free, b) + Mult(PendingChunks(ids, s.lists.pending), b) + Mult(s.lists.discarded, b)
           == Mult(c.initial, b) + One(c.start <= b < s.lists.next)
    {
      PendingCover(ids, s.lists.writers, s.lists.pending, s.owners, b);
      assert KnownOwner(s.owners(b), s.lists.writers, s.lists.pending);
      assert Mult(s.lists.prepared, b) == One(s.owners(b) == Prepared);
      assert Mult(c.initial, b) <= 1 && (b >= c.start ==> Mult(c.initial, b) == 0);
    }
  }

  ghost function InitialOwners(runs: seq<Run>): Owners {
    b => if Mult(runs, b) > 0 then Free else Nobody
  }

  method InitialFreeRuns(persistedFree: seq<Run>, persistedRetired: seq<Run>, oldestReader: nat)
    returns (runs: seq<Run>)
    requires Disjoint(persistedFree + Eligible(persistedRetired, oldestReader))
    ensures Separated(runs) && SameCover(runs, persistedFree + Eligible(persistedRetired, oldestReader))
  {
    var free, held := ClassifyRetired(persistedFree, persistedRetired, oldestReader);
    runs := Coalesce(free);
  }

  lemma {:induction false} InitialOk(s: State, c: Setting, runs: seq<Run>)
    requires c.chunkSize > 0 && InitialRuns(c.initial, c.start) && Separated(runs) && SameCover(runs, c.initial)
    requires s.lists == Lists(runs, [], map[], map[], [], c.start) && s.capacity == |runs| && s.abortable == 0
    requires s.owners == InitialOwners(c.initial) && s.streams == map[] && s.finished == {}
    ensures Ok(s, c)
  {
    InitialSplit(s.owners, c, runs);
  }

  lemma {:induction false} InitialSplit(owners: Owners, c: Setting, runs: seq<Run>)
    requires InitialRuns(c.initial, c.start) && SameCover(runs, c.initial) && owners == InitialOwners(c.initial)
    ensures Split(Lists(runs, [], map[], map[], [], c.start), owners, c.initial, c.start)
  {
    forall b ensures Mult(runs, b) == One(owners(b) == Free) {
      assert Mult(runs, b) == Mult(c.initial, b) <= 1;
    }
    assert OwnedBy([], owners, Prepared) && OwnedBy([], owners, Discarded);
    assert OwnedPerBlob(map[], map[], owners);
  }

  /** First fit over gapped runs, or the end of the staged tail. */
  ghost predicate Taken(free: seq<Run>, next: nat, r: Run, free': seq<Run>, next': nat) {
    && Gapped(free') && |free'| == |free|
    && (forall b :: Mult(free, b) + One(b >= next) == Mult(free', b) + One(b >= next') + One(r.Has(b)))
    && (next' == next || (r.start == next && next' == next + r.count))
  }

  method TakeBlocks(free: seq<Run>, next: nat, blockCount: nat) returns (r: Run, free': seq<Run>, next': nat)
    requires Gapped(free)
    ensures r == Run(FitStart(free, next, blockCount), blockCount, 0) && Taken(free, next, r, free', next')
    ensures free' == FitRest(free, blockCount) && next' == FitNext(free, next, blockCount)
  {
    var at;
    at, free', next' := AllocateBlocks(free, next, blockCount);
    r := Run(at, blockCount, 0);
    AllocationKeepsGaps(free, blockCount);
  }

  // ---------------------------------------------------------------- the transaction

  lemma {:induction false} PartAppended(stream: seq<byte>, source: seq<byte>, at: nat, count: nat)
    requires at + count <= |source|
    ensures stream + source[..at] + source[at..at + count] == stream + source[..at + count]
  {
    assert source[..at] + source[at..at + count] == source[..at + count];
  }

  datatype EraseOutcome = Erased | NotThere | WriterOpen

  /** None of the first `n` chunks that are staged fails. */
  ghost predicate NoneOf(faults: nat -> Option<nat>, n: nat) {
    forall i: nat :: i < n ==> faults(i).None?
  }

  /** How far a write has come: this many chunks staged, and the rest in the buffer. */
  ghost predicate StagedSoFar(faults: nat -> Option<nat>, chunks: nat, buffered: nat, bytes: nat, chunkSize: nat) {
    NoneOf(faults, chunks) && Span(chunks, chunkSize) + buffered == bytes
  }

  /** What became of a write of `bytes` in all: it staged every full chunk, or failed at one. */
  lemma {:induction false} StagedAll(faults: nat -> Option<nat>, chunks: nat, buffered: nat, bytes: nat, chunkSize: nat)
    requires StagedSoFar(faults, chunks, buffered, bytes, chunkSize) && buffered < chunkSize
    ensures bytes / chunkSize == chunks && NoneOf(faults, bytes / chunkSize)
  {
    DivSpan(chunks, buffered, chunkSize);
  }

  lemma {:induction false} FailedAt(faults: nat -> Option<nat>, chunks: nat, bytes: nat, chunkSize: nat)
    requires chunkSize > 0 && Span(chunks, chunkSize) + chunkSize <= bytes && faults(chunks).Some?
    ensures !NoneOf(faults, bytes / chunkSize)
  {
    DivIsSpan(bytes, chunkSize);
    if bytes / chunkSize <= chunks {
      SpanMonotone(bytes / chunkSize, chunks, chunkSize);
    }
  }

  class BlobWriteState {
    const start: nat
    const chunkSize: nat
    ghost const initial: seq<Run>
    var file: File
    var free: seq<Run>
    var capacity: nat
    var next: nat
    var prepared: seq<Run>
    var discarded: seq<Run>
    var abortable: nat
    var writers: map<BlobId, Writer>
    var pending: map<BlobId, Version>
    var committed: map<BlobId, Version>
    ghost var owners: Owners
    ghost var streams: map<BlobId, seq<byte>>
    ghost var finished: set<Snapshot>

    ghost function Current(): State
      reads this
    {
      State(file, Lists(free, prepared, writers, pending, discarded, next), capacity, abortable, owners, streams, finished,
            committed)
    }

    ghost function Fixed(): Setting { Setting(initial, start, chunkSize) }

    ghost predicate Valid()
      reads this
    {
      Ok(Current(), Fixed())
    }

    /** First use of the allocator: the persisted free runs and the eligible retired ones. */
    constructor (persistedFree: seq<Run>, persistedRetired: seq<Run>, oldestReader: nat,
                 highWater: nat, chunk: nat, image: File, visible: map<BlobId, Version>)
      requires chunk > 0
      requires InitialRuns(persistedFree + Eligible(persistedRetired, oldestReader), highWater)
      ensures Valid() && start == highWater && chunkSize == chunk && file == image
      ensures initial == persistedFree + Eligible(persistedRetired, oldestReader) && next == start
      ensures prepared == [] && discarded == [] && writers == map[] && pending == map[] && finished == {}
      ensures committed == visible
    {
      start, chunkSize, file, committed := highWater, chunk, image, visible;
      var runs := InitialFreeRuns(persistedFree, persistedRetired, oldestReader);
      ghost var all := persistedFree + Eligible(persistedRetired, oldestReader);
      initial := all;
      free, capacity, next, prepared, discarded, abortable := runs, |runs|, highWater, [], [], 0;
      writers, pending, streams, finished := map[], map[], map[], {};
      owners := InitialOwners(all);
      new;
      InitialOk(Current(), Fixed(), runs);
    }

    /** The owners and streams of a state. */
    ghost method Adopt(s: State)
      modifies this`owners, this`streams, this`finished
      ensures owners == s.owners && streams == s.streams && finished == s.finished
    {
      owners, streams, finished := s.owners, s.streams, s.finished;
    }

    /** Give back one prepared chunk.  There is room for it: nothing is reallocated. */
    method ReleaseOne(k: nat)
      requires Valid() && k < |prepared|
      modifies this
      ensures Valid() && SameBlobs(Current(), old(Current()))
      ensures capacity == old(capacity) && file == old(file) && next == old(next)
      ensures prepared == Dropping(old(prepared), k)
    {
      var free' := InsertFreeRun(free, prepared[k]);
      ReleaseOk(Current(), Fixed(), k, free');
      assert abortable != 0 && capacity > |free|;
      ghost var s := AfterRelease(Current(), k, free');
      Adopt(s);
      free, prepared, abortable := free', Dropping(prepared, k), abortable - 1;
      assert Current() == s;
    }

    /** Give back every prepared chunk, without needing more capacity. */
    method ReleasePrepared()
      requires Valid()
      modifies this
      ensures Valid() && SameBlobs(Current(), old(Current())) && prepared == []
      ensures capacity == old(capacity) && file == old(file) && next == old(next)
    {
      while prepared != []
        invariant Valid() && SameBlobs(Current(), old(Current()))
        invariant capacity == old(capacity) && file == old(file) && next == old(next)
        decreases |prepared|
      {
        ReleaseOne(0);
      }
    }

    /** Allocate blocks for one chunk and write the first `written` of them. */
    method Prepare(sealed: Sealed, blockCount: nat, written: nat) returns (r: Run)
      requires Valid() && written <= blockCount && blockCount > 0
      modifies this
      ensures Valid() && SameBlobs(Current(), old(Current()))
      ensures r == Run(FitStart(old(free), old(next), blockCount), blockCount, 0) && prepared == old(prepared) + [r]
      ensures free == FitRest(old(free), blockCount) && next == FitNext(old(free), old(next), blockCount)
      ensures file == WriteBlocks(old(file), r.start, sealed, written)
      ensures forall b :: r.Has(b) ==> old(owners)(b) == Free || old(owners)(b) == Nobody
    {
      var free', next';
      r, free', next' := TakeBlocks(free, next, blockCount);
      StageOk(Current(), Fixed(), r, sealed, written, free', next');
      ghost var s := AfterStage(Current(), r, sealed, written, free', next');
      Adopt(s);
      capacity := Max(capacity, |free| + abortable + 1);
      file := WriteBlocks(file, r.start, sealed, written);
      free, next, prepared, abortable := free', next', prepared + [r], abortable + 1;
      assert Current() == s;
    }

    /** Stage one chunk.  A failure after `fault.value` blocks gives the blocks back and
        leaves every Blob as it was. */
    method StageChunk(sealed: Sealed, blockCount: nat, fault: Option<nat>)
      returns (ok: bool, r: Run, ghost k: nat)
      requires Valid() && blockCount > 0
      modifies this
      ensures Valid() && SameBlobs(Current(), old(Current()))
      ensures r == Run(FitStart(old(free), old(next), blockCount), blockCount, 0)
      ensures ok == fault.None? && k <= blockCount && (ok ==> k == blockCount)
      ensures prepared == if ok then old(prepared) + [r] else old(prepared)
      ensures file == WriteBlocks(old(file), r.start, sealed, k)
      ensures forall b :: r.Has(b) ==> old(owners)(b) == Free || old(owners)(b) == Nobody
    {
      ok := fault.None?;
      var written := if ok then blockCount else Min(fault.value, blockCount);
      k := written;
      r := Prepare(sealed, blockCount, written);
      if !ok {
        ReleaseOne(|prepared| - 1);
        assert Dropping(old(prepared) + [r], |old(prepared)|) == old(prepared);
      }
    }

    /** A new writer for a fresh or an existing Blob. */
    method OpenWriter(id: BlobId)
      requires Valid() && prepared == [] && id !in writers
      modifies this
      ensures Valid() && Current() == AfterOpen(old(Current()), id)
    {
      ghost var s := Current();
      OpenOk(s, Fixed(), id);
      writers, streams := writers[id := NewWriter()], streams[id := []];
      assert Current() == AfterOpen(s, id);
    }

    /** Cancel a writer: its chunks are free again and it never allocates. */
    method Abort(id: BlobId)
      requires Valid() && prepared == [] && id in writers
      modifies this
      ensures Valid() && prepared == [] && capacity == old(capacity) && file == old(file)
      ensures writers == old(writers) - {id} && streams == old(streams) - {id}
      ensures pending == old(pending) && discarded == old(discarded) && finished == old(finished)
      ensures committed == old(committed)
    {
      AbandonOk(Current(), Fixed(), id);
      ghost var s := AfterAbandon(Current(), id);
      Adopt(s);
      prepared, writers := writers[id].chunks, writers - {id};
      assert Current() == s;
      ReleasePrepared();
    }

    /** Remove a Blob from the view.  The chunks of a pending version are discarded, not
        reused; a committed version keeps its blocks, which the commit retires. */
    method Erase(id: BlobId) returns (r: EraseOutcome)
      requires Valid() && prepared == []
      modifies this
      ensures Valid() && prepared == []
      ensures r == WriterOpen <==> id in old(writers)
      ensures r == Erased <==> id !in old(writers) && (id in old(pending) || id in old(committed))
      ensures Current() ==
              if r != Erased then old(Current())
              else if id in old(pending) then AfterDiscard(old(Current()), id)
              else old(Current()).(committed := old(committed) - {id})
      ensures r == Erased ==> id !in pending && id !in committed
    {
      if id in writers {
        return WriterOpen;
      }
      if id in pending {
        Discard(id);
        return Erased;
      }
      if id !in committed {
        return NotThere;
      }
      ghost var s := Current();
      committed := committed - {id};
      assert Current() == s.(committed := s.committed - {id});
      r := Erased;
    }

    /** Fill the writer's buffer from `source` from `consumed` on, staging each full chunk. */
    method Consume(id: BlobId, source: seq<byte>, sizes: seq<byte> -> nat, faults: nat -> Option<nat>)
      returns (ok: bool, working: seq<byte>)
      requires Valid() && prepared == [] && id in writers
      requires forall content :: sizes(content) > 0
      modifies this
      ensures Valid() && SameBlobs(Current(), old(Current()))
      ensures ok <==> NoneOf(faults, (|writers[id].buffer| + |source|) / chunkSize)
      ensures ok ==> Carried(file, Writer(writers[id].chunks + prepared, working, writers[id].position + |source|),
                             streams[id] + source, chunkSize)
    {
      working := writers[id].buffer;
      ok := true;
      var consumed := 0;
      ghost var stream := streams[id];
      assert Carried(file, writers[id], stream, chunkSize);
      assert writers[id].chunks + prepared == writers[id].chunks;
      assert stream + source[..0] == stream;
      while consumed != |source|
        invariant 0 <= consumed <= |source| && |working| < chunkSize && ok
        invariant Valid() && SameBlobs(Current(), old(Current()))
        invariant Streaming(file, writers[id].chunks + prepared, working, stream + source[..consumed], chunkSize)
        invariant StagedSoFar(faults, |prepared|, |working|, |writers[id].buffer| + consumed, chunkSize)
        decreases |source| - consumed
      {
        var count := Min(chunkSize - |working|, |source| - consumed);
        var more := source[consumed..consumed + count];
        ok, working := AppendPart(id, working, more, stream + source[..consumed], sizes, faults,
                                  |writers[id].buffer| + consumed, |writers[id].buffer| + |source|);
        if !ok {
          return;
        }
        PartAppended(stream, source, consumed, count);
        consumed := consumed + count;
      }
      assert source[..|source|] == source;
      StagedAll(faults, |prepared|, |working|, |writers[id].buffer| + |source|, chunkSize);
    }

    /** Append what the buffer can take, and stage it if that fills it. */
    method AppendPart(id: BlobId, working: seq<byte>, more: seq<byte>, ghost stream: seq<byte>,
                      sizes: seq<byte> -> nat, faults: nat -> Option<nat>, ghost bytes: nat, ghost total: nat)
      returns (ok: bool, working': seq<byte>)
      requires Valid() && id in writers && |working| + |more| <= chunkSize && forall content :: sizes(content) > 0
      requires Streaming(file, writers[id].chunks + prepared, working, stream, chunkSize)
      requires StagedSoFar(faults, |prepared|, |working|, bytes, chunkSize) && bytes + |more| <= total
      modifies this
      ensures Valid() && SameBlobs(Current(), old(Current()))
      ensures if ok then StagedSoFar(faults, |prepared|, |working'|, bytes + |more|, chunkSize) else !NoneOf(faults, total / chunkSize)
      ensures ok ==> |working'| < chunkSize && Streaming(file, writers[id].chunks + prepared, working', stream + more, chunkSize)
    {
      BufferMore(file, writers[id].chunks + prepared, working, stream, chunkSize, more);
      ok, working' := true, working + more;
      if |working'| == chunkSize {
        ghost var chunks := |prepared|;
        ok := StageFullBuffer(id, working', stream + more, sizes(working'), faults(|prepared|));
        working' := [];
        if !ok {
          FailedAt(faults, chunks, total, chunkSize);
        }
      }
    }

    /** Stage a full buffer as the next chunk of a stream. */
    method StageFullBuffer(id: BlobId, buffer: seq<byte>, ghost stream: seq<byte>, blockCount: nat, fault: Option<nat>)
      returns (ok: bool)
      requires Valid() && id in writers && blockCount > 0 && |buffer| == chunkSize
      requires Streaming(file, writers[id].chunks + prepared, buffer, stream, chunkSize)
      modifies this
      ensures Valid() && SameBlobs(Current(), old(Current())) && ok == fault.None?
      ensures ok ==> |prepared| == old(|prepared|) + 1
      ensures ok ==> Streaming(file, writers[id].chunks + prepared, [], stream, chunkSize)
    {
      ghost var s := Current();
      var r: Run;
      ghost var k;
      var sealed := Sealed(|writers[id].chunks + prepared|, buffer);
      ok, r, k := StageChunk(sealed, blockCount, fault);
      if ok {
        StreamingAfterStage(s, Fixed(), id, buffer, stream, r, sealed, k);
        WriteHolds(s.file, r, sealed);
        StageFull(file, writers[id].chunks + s.lists.prepared, buffer, stream, chunkSize, r);
        assert writers[id].chunks + s.lists.prepared + [r] == writers[id].chunks + prepared;
      }
    }

    /** Append to a Blob.  Either the whole source is accepted, or the write fails at any
        chunk and the stream, the buffer and the staged chunks are as before. */
    method Write(id: BlobId, source: seq<byte>, room: nat, sizes: seq<byte> -> nat, faults: nat -> Option<nat>)
      returns (ok: bool)
      requires Valid() && prepared == [] && id in writers
      requires forall content :: sizes(content) > 0
      modifies this
      ensures Valid() && prepared == []
      ensures pending == old(pending) && discarded == old(discarded) && finished == old(finished)
      ensures !ok ==> writers == old(writers) && streams == old(streams)
      ensures ok ==> writers.Keys == old(writers).Keys && streams == old(streams)[id := old(streams)[id] + source]
      ensures ok <==> |source| <= room && NoneOf(faults, (|old(writers)[id].buffer| + |source|) / chunkSize)
    {
      if |source| > room {
        return false;
      }
      var working;
      ok, working := Consume(id, source, sizes, faults);
      if !ok {
        ReleasePrepared();
        return;
      }
      KeepPrepared(id, Writer(writers[id].chunks + prepared, working, writers[id].position + |source|), streams[id] + source);
    }

    /** The prepared chunks become the writer's. */
    method KeepPrepared(id: BlobId, w: Writer, ghost stream: seq<byte>)
      requires Valid() && id in writers && w.chunks == writers[id].chunks + prepared && Carried(file, w, stream, chunkSize)
      modifies this
      ensures Valid() && Current() == AfterKeep(old(Current()), id, w, stream)
    {
      KeepOk(Current(), Fixed(), id, w, stream);
      ghost var s := AfterKeep(Current(), id, w, stream);
      Adopt(s);
      writers, prepared := writers[id := w], [];
      assert Current() == s;
    }

    /** Finish a writer: the buffered rest is staged as the last chunk and the version
        replaces a pending one, whose chunks are discarded.  On failure nothing changes. */
    method Finish(id: BlobId, blockCount: nat, fault: Option<nat>) returns (ok: bool)
      requires Valid() && prepared == [] && id in writers && blockCount > 0
      modifies this
      ensures Valid() && prepared == []
      ensures ok <==> fault.None? || old(writers)[id].buffer == []
      ensures !ok ==> SameBlobs(Current(), old(Current()))
      ensures ok ==>
        && writers == old(writers) - {id} && streams == old(streams) - {id}
        && pending.Keys == old(pending).Keys + {id} && (forall k :: k in old(pending) && k != id ==> pending[k] == old(pending)[k])
        && finished == old(finished) + {Snapshot(pending[id], old(streams)[id])}
        && discarded == old(discarded) + (if id in old(pending) then old(pending)[id].chunks else [])
        && committed == old(committed) - {id}
    {
      ok := StageRest(id, blockCount, fault);
      if !ok {
        return;
      }
      if id in pending {
        Discard(id);
      }
      Publish(id, Version(writers[id].position, writers[id].chunks + prepared));
    }

    /** Stage the buffered rest, if there is one, as the last chunk. */
    method StageRest(id: BlobId, blockCount: nat, fault: Option<nat>) returns (ok: bool)
      requires Valid() && prepared == [] && id in writers && blockCount > 0
      modifies this
      ensures Valid() && SameBlobs(Current(), old(Current()))
      ensures ok <==> fault.None? || writers[id].buffer == []
      ensures !ok ==> prepared == []
      ensures ok ==> Stored(file, writers[id].chunks + prepared, streams[id], chunkSize)
      ensures writers[id].position == |streams[id]|
    {
      ghost var stream := streams[id];
      var w := writers[id];
      assert Carried(file, w, stream, chunkSize);
      assert w.chunks + prepared == w.chunks;
      ok := true;
      if w.buffer != [] {
        ghost var s := Current();
        var r: Run;
        ghost var k;
        var sealed := Sealed(|w.chunks|, w.buffer);
        ok, r, k := StageChunk(sealed, blockCount, fault);
        if !ok {
          return;
        }
        StreamingAfterStage(s, Fixed(), id, w.buffer, stream, r, sealed, k);
        WriteHolds(s.file, r, sealed);
      }
      FinishStored(file, w.chunks, w.buffer, stream, chunkSize, w.chunks + prepared);
    }

    method Discard(id: BlobId)
      requires Valid() && id in pending
      modifies this
      ensures Valid() && Current() == AfterDiscard(old(Current()), id)
    {
      DiscardOk(Current(), Fixed(), id);
      ghost var s := AfterDiscard(Current(), id);
      Adopt(s);
      discarded, pending := discarded + pending[id].chunks, pending - {id};
      assert Current() == s;
    }

    method Publish(id: BlobId, v: Version)
      requires Valid() && id in writers && id !in pending && id in streams
      requires v.chunks == writers[id].chunks + prepared && v.size == |streams[id]|
      requires Stored(file, v.chunks, streams[id], chunkSize)
      modifies this
      ensures Valid() && old(abortable) >= |v.chunks| && Current() == AfterFinish(old(Current()), id, v)
    {
      FinishOk(Current(), Fixed(), id, v);
      Conclude(id, v, AfterFinish(Current(), id, v));
    }

    method Conclude(id: BlobId, v: Version, ghost s: State)
      requires abortable >= |v.chunks| && Ok(s, Fixed())
      requires s.lists == Lists(free, [], writers - {id}, pending[id := v], discarded, next)
      requires s.file == file && s.capacity == capacity && s.abortable == abortable - |v.chunks| && s.committed == committed - {id}
      modifies this
      ensures Valid() && Current() == s
    {
      Adopt(s);
      abortable := abortable - |v.chunks|;
      prepared, writers, pending := [], writers - {id}, pending[id := v];
      committed := committed - {id};
      assert Current() == s;
    }
  }
}
