/** Reading finished Blobs in the write transaction that made them, while it goes on
    staging, finishing, aborting and erasing others. */
module BlobView {
  import opened Basics
  import opened BlobStaging
  import opened BlobTransaction
  import opened BlobReading

  /** The reader is over this finished version. */
  ghost predicate Over(r: Reader, s: Snapshot) { r.chunks == s.version.chunks && r.size == s.version.size }

  ghost predicate AllOver(readers: map<nat, Reader>, sources: map<nat, Snapshot>, finished: set<Snapshot>) {
    && readers.Keys == sources.Keys
    && forall id :: id in readers ==> sources[id] in finished && Over(readers[id], sources[id])
  }

  /** Whatever the transaction has done since, the version still stores its stream, so what
      a reader has cached is still right and what it reads next will be. */
  lemma {:induction false} ReaderSurvives(s: State, s': State, c: Setting, source: Snapshot, r: Reader)
    requires Ok(s, c) && Ok(s', c) && source in s.finished && source in s'.finished && Over(r, source)
    requires ReaderOk(s.file, r, c.chunkSize)
    ensures ReaderOk(s'.file, r, c.chunkSize) && Reads(s'.file, r, c.chunkSize, source.stream)
  {
    assert Kept(s.file, source, s.owners, c.chunkSize) && Kept(s'.file, source, s'.owners, c.chunkSize);
    if r.cached.Some? {
      StoredOpens(s.file, r, c.chunkSize, source.stream, r.cached.value.ordinal);
      StoredOpens(s'.file, r, c.chunkSize, source.stream, r.cached.value.ordinal);
    }
  }

  lemma {:induction false} ReadersSurvive(s: State, s': State, c: Setting, readers: map<nat, Reader>, sources: map<nat, Snapshot>)
    requires Ok(s, c) && Ok(s', c) && s.finished <= s'.finished && AllOver(readers, sources, s.finished)
    requires forall id :: id in readers ==> ReaderOk(s.file, readers[id], c.chunkSize)
    ensures AllOver(readers, sources, s'.finished)
    ensures forall id :: id in readers ==> ReaderOk(s'.file, readers[id], c.chunkSize)
  {
    forall id | id in readers ensures ReaderOk(s'.file, readers[id], c.chunkSize) {
      ReaderSurvives(s, s', c, sources[id], readers[id]);
    }
  }

  class TransactionBlobs {
    const writing: BlobWriteState
    const reading: BlobReaders
    ghost var sources: map<nat, Snapshot>

    ghost predicate Valid()
      reads this, writing, reading
    {
      && writing.Valid() && reading.Valid()
      && reading.file == writing.file && reading.chunkSize == writing.chunkSize
      && AllOver(reading.readers, sources, writing.finished)
    }

    constructor (writing: BlobWriteState, reading: BlobReaders)
      requires writing.Valid() && reading.Valid() && reading.readers == map[]
      requires reading.file == writing.file && reading.chunkSize == writing.chunkSize
      ensures Valid() && this.writing == writing && this.reading == reading
    {
      this.writing, this.reading, sources := writing, reading, map[];
    }

    /** Open a reader over a Blob that this transaction has finished. */
    method OpenPending(id: nat, blob: BlobId)
      requires Valid() && id !in reading.readers && blob in writing.pending
      modifies this, reading
      ensures Valid() && id in sources && sources[id].version == writing.pending[blob]
      ensures sources == old(sources)[id := sources[id]]
    {
      assert FinishedAs(writing.pending[blob], writing.finished);
      ghost var source: Snapshot :| source in writing.finished && source.version == writing.pending[blob];
      assert Kept(writing.file, source, writing.owners, writing.chunkSize);
      var version := writing.pending[blob];
      reading.Open(id, version.chunks, version.size);
      sources := sources[id := source];
    }

    /** Whatever has been staged, finished, aborted or erased since it was opened, a reader
        returns the bytes that were written to its Blob; it never finds corruption, and fails
        if and only if a chunk it needs does not fit beside what the other readers hold. */
    method Read(id: nat, count: nat) returns (outcome: Outcome, out: seq<byte>)
      requires Valid() && id in reading.readers
      modifies reading
      ensures Valid() && outcome != Corrupt
      ensures var r, others := old(reading.readers)[id], Others(old(reading.readers), old(reading.used), id);
              && (outcome == Done <==>
                    RoomFor(reading.chunkSize, reading.capacity, others, r, r.position, r.position + Wanted(r, count)))
              && (others + reading.chunkSize <= reading.capacity ==> outcome == Done)
      ensures var stream, from := sources[id].stream, old(reading.readers)[id].position;
              outcome == Done ==>
                && |out| == (if count <= |stream| - from then count else |stream| - from)
                && out == stream[from..from + |out|] && reading.readers[id].position == from + |out|
      ensures id in reading.readers && reading.readers == old(reading.readers)[id := reading.readers[id]]
      ensures outcome != Done ==> reading.readers[id].position == old(reading.readers)[id].position
    {
      ghost var source := sources[id];
      ReaderSurvives(writing.Current(), writing.Current(), writing.Fixed(), source, reading.readers[id]);
      outcome, out := reading.Read(id, count, source.stream);
    }

    /** The readers follow what the transaction has done to the file. */
    method Follow(ghost before: State)
      requires writing.Valid() && reading.Valid() && reading.chunkSize == writing.chunkSize
      requires Ok(before, writing.Fixed()) && before.finished <= writing.finished && reading.file == before.file
      requires AllOver(reading.readers, sources, before.finished)
      modifies reading
      ensures Valid() && reading.readers == old(reading.readers)
    {
      ReadersSurvive(before, writing.Current(), writing.Fixed(), reading.readers, sources);
      reading.Follow(writing.file);
    }

    method Write(blob: BlobId, source: seq<byte>, room: nat, sizes: seq<byte> -> nat, faults: nat -> Option<nat>)
      returns (ok: bool)
      requires Valid() && writing.prepared == [] && blob in writing.writers && forall content :: sizes(content) > 0
      modifies writing, reading
      ensures Valid() && writing.prepared == [] && reading.readers == old(reading.readers)
      ensures writing.finished == old(writing.finished) && writing.pending == old(writing.pending)
      ensures ok <==> |source| <= room && NoneOf(faults, (|old(writing.writers)[blob].buffer| + |source|) / writing.chunkSize)
      ensures writing.streams == if ok then old(writing.streams)[blob := old(writing.streams)[blob] + source] else old(writing.streams)
    {
      ghost var before := writing.Current();
      ok := writing.Write(blob, source, room, sizes, faults);
      Follow(before);
    }

    method Finish(blob: BlobId, blockCount: nat, fault: Option<nat>) returns (ok: bool)
      requires Valid() && writing.prepared == [] && blob in writing.writers && blockCount > 0
      modifies writing, reading
      ensures Valid() && writing.prepared == [] && reading.readers == old(reading.readers)
      ensures ok <==> fault.None? || old(writing.writers)[blob].buffer == []
      ensures ok ==> blob in writing.pending
                     && writing.finished == old(writing.finished) + {Snapshot(writing.pending[blob], old(writing.streams)[blob])}
      ensures !ok ==> SameBlobs(writing.Current(), old(writing.Current()))
    {
      ghost var before := writing.Current();
      ok := writing.Finish(blob, blockCount, fault);
      Follow(before);
    }

    method Abort(blob: BlobId)
      requires Valid() && writing.prepared == [] && blob in writing.writers
      modifies writing, reading
      ensures Valid() && writing.prepared == [] && reading.readers == old(reading.readers)
      ensures writing.writers == old(writing.writers) - {blob} && writing.streams == old(writing.streams) - {blob}
      ensures writing.pending == old(writing.pending) && writing.finished == old(writing.finished)
    {
      ghost var before := writing.Current();
      writing.Abort(blob);
      Follow(before);
    }

    method Erase(blob: BlobId) returns (r: EraseOutcome)
      requires Valid() && writing.prepared == []
      modifies writing, reading
      ensures Valid() && writing.prepared == [] && reading.readers == old(reading.readers)
      ensures r == WriterOpen <==> blob in old(writing.writers)
      ensures r == Erased <==> blob !in old(writing.writers) && (blob in old(writing.pending) || blob in old(writing.committed))
      ensures r == Erased ==> blob !in writing.pending && blob !in writing.committed
      ensures r != Erased ==> writing.Current() == old(writing.Current())
      ensures writing.finished == old(writing.finished)
    {
      ghost var before := writing.Current();
      r := writing.Erase(blob);
      Follow(before);
    }
  }
}
