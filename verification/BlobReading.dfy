/** Seekable Blob readers.  Each keeps at most one decoded chunk, and all of them
    draw on one cache budget. */
module BlobReading {
  import opened ExtentRuns
  import opened Basics
  import opened BlobContent
  import opened MapSums

  datatype Cached = Cached(ordinal: nat, bytes: seq<byte>)

  datatype Reader = Reader(chunks: seq<Run>, size: nat, position: nat, cached: Option<Cached>)

  datatype Outcome = Done | ResourceLimit | Corrupt

  function CachedSize(r: Reader): nat {
    if r.cached.Some? then |r.cached.value.bytes| else 0
  }

  /** The decoded length a chunk must have: full, unless it is the last one. */
  function ExpectedLength(r: Reader, chunkSize: nat, ordinal: nat): int {
    if ordinal + 1 == |r.chunks| then r.size - Span(ordinal, chunkSize) else chunkSize
  }

  /** A chunk of the version, if it opens and has the length its place demands. */
  function Opened(file: File, r: Reader, chunkSize: nat, ordinal: nat): Option<seq<byte>>
    requires ordinal < |r.chunks|
  {
    var content := OpenExtent(file, r.chunks[ordinal], ordinal);
    if content.Some? && |content.value| == ExpectedLength(r, chunkSize, ordinal) then content else None
  }

  predicate ReaderOk(file: File, r: Reader, chunkSize: nat)
    requires chunkSize > 0
  {
    && |r.chunks| == ChunkCount(r.size, chunkSize)
    && r.position <= r.size
    && (r.cached.Some? ==>
          && r.cached.value.ordinal < |r.chunks|
          && Opened(file, r, chunkSize, r.cached.value.ordinal) == Some(r.cached.value.bytes))
  }

  ghost predicate CacheOk(readers: map<nat, Reader>, used: nat, capacity: nat) {
    used == SumOf(readers, CachedSize) <= capacity
  }

  lemma {:induction false} CacheChange(readers: map<nat, Reader>, used: nat, capacity: nat, id: nat, r: Reader)
    requires CacheOk(readers, used, capacity)
    requires used + CachedSize(r) <= capacity + if id in readers then CachedSize(readers[id]) else 0
    ensures id in readers ==> CachedSize(readers[id]) <= used
    ensures CacheOk(readers[id := r], used - (if id in readers then CachedSize(readers[id]) else 0) + CachedSize(r), capacity)
  {
    SumUpdate(readers, CachedSize, id, r);
    if id in readers {
      SumSplit(readers, CachedSize, id);
    }
  }

  /** Where an offset lies: in a chunk of the version, and before that chunk's end. */
  lemma {:induction false} Locate(r: Reader, chunkSize: nat, at: nat) returns (ordinal: nat, within: nat)
    requires chunkSize > 0 && |r.chunks| == ChunkCount(r.size, chunkSize) && at < r.size
    ensures ordinal == at / chunkSize && within == at % chunkSize
    ensures at == Span(ordinal, chunkSize) + within
    ensures ordinal < |r.chunks| && within < ExpectedLength(r, chunkSize, ordinal)
  {
    ordinal, within := at / chunkSize, at % chunkSize;
    DivIsSpan(at, chunkSize);
    CountCovers(r.size, chunkSize);
    if ordinal >= |r.chunks| {
      SpanMonotone(|r.chunks|, ordinal, chunkSize);
    }
  }

  /** In a stored version every chunk opens to its part of the stream. */
  lemma {:induction false} StoredOpens(file: File, r: Reader, chunkSize: nat, stream: seq<byte>, ordinal: nat)
    requires chunkSize > 0 && |stream| == r.size && Stored(file, r.chunks, stream, chunkSize) && ordinal < |r.chunks|
    ensures Span(ordinal, chunkSize) <= |stream|
    ensures Opened(file, r, chunkSize, ordinal) == Some(ChunkOf(stream, chunkSize, ordinal))
  {
    assert HoldsChunk(file, r.chunks, stream, chunkSize, ordinal);
    CountCovers(|stream|, chunkSize);
    if ordinal + 1 < |r.chunks| {
      SpanMonotone(ordinal + 1, |r.chunks| - 1, chunkSize);
    }
    var part := ChunkOf(stream, chunkSize, ordinal);
    assert OpenExtent(file, r.chunks[ordinal], ordinal) == Some(part);
  }

  // ---------------------------------------------------------------- one reader

  /** The bytes the cache holds for everyone but this reader. */
  ghost predicate Shares(used: nat, r: Reader, others: nat, capacity: nat) {
    used == others + CachedSize(r) <= capacity
  }

  /** What becomes of loading a chunk: it must fit beside what the other readers hold, and
      open.  The chunk that the reader has cached does both. */
  function LoadOutcome(file: File, chunkSize: nat, capacity: nat, others: int, r: Reader, ordinal: nat): Outcome {
    if others + ExpectedLength(r, chunkSize, ordinal) > capacity then ResourceLimit
    else if ordinal >= |r.chunks| || Opened(file, r, chunkSize, ordinal).None? then Corrupt
    else Done
  }

  /** The same, for the chunk in which an offset lies. */
  function OutcomeAt(file: File, chunkSize: nat, capacity: nat, others: int, r: Reader, at: nat): Outcome
    requires chunkSize > 0
  {
    LoadOutcome(file, chunkSize, capacity, others, r, at / chunkSize)
  }

  /** Every chunk that meets the range loads. */
  ghost predicate AllLoad(file: File, chunkSize: nat, capacity: nat, others: int, r: Reader, from: nat, to: nat)
    requires chunkSize > 0
  {
    forall x: nat :: from <= x < to ==> OutcomeAt(file, chunkSize, capacity, others, r, x) == Done
  }

  /** The outcome is that of the first chunk meeting the range that does not load. */
  ghost predicate FirstFailure(file: File, chunkSize: nat, capacity: nat, others: int, r: Reader, from: nat, to: nat, outcome: Outcome)
    requires chunkSize > 0
  {
    exists x: nat ::
      from <= x < to && OutcomeAt(file, chunkSize, capacity, others, r, x) == outcome
      && AllLoad(file, chunkSize, capacity, others, r, from, x)
  }

  /** A range is read if every chunk that meets it loads; else the first that does not
      decides how it fails. */
  ghost predicate Decides(file: File, chunkSize: nat, capacity: nat, others: int, r: Reader, from: nat, to: nat, outcome: Outcome)
    requires chunkSize > 0
  {
    if outcome == Done then AllLoad(file, chunkSize, capacity, others, r, from, to)
    else FirstFailure(file, chunkSize, capacity, others, r, from, to, outcome)
  }

  /** The chunk in which an offset lies fits beside what the other readers hold. */
  predicate RoomAt(chunkSize: nat, capacity: nat, others: int, r: Reader, at: nat)
    requires chunkSize > 0
  {
    others + ExpectedLength(r, chunkSize, at / chunkSize) <= capacity
  }

  ghost predicate RoomFor(chunkSize: nat, capacity: nat, others: int, r: Reader, from: nat, to: nat)
    requires chunkSize > 0
  {
    forall x: nat :: from <= x < to ==> RoomAt(chunkSize, capacity, others, r, x)
  }

  /** The byte of the version at an offset. */
  ghost predicate ByteAt(file: File, chunkSize: nat, r: Reader, at: nat, value: byte)
    requires chunkSize > 0
  {
    && at / chunkSize < |r.chunks|
    && var content := Opened(file, r, chunkSize, at / chunkSize);
       content.Some? && at % chunkSize < |content.value| && content.value[at % chunkSize] == value
  }

  ghost predicate BytesAt(file: File, chunkSize: nat, r: Reader, at: nat, bytes: seq<byte>)
    requires chunkSize > 0
  {
    forall i :: 0 <= i < |bytes| ==> ByteAt(file, chunkSize, r, at + i, bytes[i])
  }

  lemma {:induction false} ExpectedAtMost(r: Reader, chunkSize: nat, ordinal: nat)
    requires chunkSize > 0 && |r.chunks| == ChunkCount(r.size, chunkSize) && ordinal < |r.chunks|
    ensures ExpectedLength(r, chunkSize, ordinal) <= chunkSize
  {
    if r.size > 0 {
      CountCovers(r.size, chunkSize);
    }
  }

  lemma {:induction false} SameChunk(at: nat, k: nat, chunkSize: nat)
    requires chunkSize > 0 && at % chunkSize + k < chunkSize
    ensures (at + k) / chunkSize == at / chunkSize && (at + k) % chunkSize == at % chunkSize + k
  {
    DivIsSpan(at, chunkSize);
    DivSpan(at / chunkSize, at % chunkSize + k, chunkSize);
  }

  /** In a stored version a read fails only for want of room, and not even so if a whole
      chunk fits beside what the other readers hold. */
  lemma {:induction false} StoredLoads(file: File, chunkSize: nat, capacity: nat, others: int, r: Reader, stream: seq<byte>, at: nat)
    requires chunkSize > 0 && |r.chunks| == ChunkCount(r.size, chunkSize) && Reads(file, r, chunkSize, stream) && at < r.size
    ensures OutcomeAt(file, chunkSize, capacity, others, r, at)
         == if RoomAt(chunkSize, capacity, others, r, at) then Done else ResourceLimit
    ensures others + chunkSize <= capacity ==> RoomAt(chunkSize, capacity, others, r, at)
  {
    var ordinal, within := Locate(r, chunkSize, at);
    StoredOpens(file, r, chunkSize, stream, ordinal);
    ExpectedAtMost(r, chunkSize, ordinal);
  }

  /** Make `ordinal` the cached chunk.  A different cached chunk is given up first,
      so its bytes are available to the new one. */
  method LoadChunk(file: File, chunkSize: nat, capacity: nat, used: nat, r: Reader, ordinal: nat, ghost others: nat)
    returns (outcome: Outcome, r': Reader, used': nat)
    requires chunkSize > 0 && ReaderOk(file, r, chunkSize) && ordinal < |r.chunks| && Shares(used, r, others, capacity)
    ensures Shares(used', r', others, capacity) && ReaderOk(file, r', chunkSize)
    ensures r' == r.(cached := r'.cached)
    ensures outcome == LoadOutcome(file, chunkSize, capacity, others, r, ordinal)
    ensures outcome == Done ==> r'.cached.Some? && r'.cached.value.ordinal == ordinal
                                && Opened(file, r, chunkSize, ordinal) == Some(r'.cached.value.bytes)
    ensures outcome != Done ==> r'.cached.None?
  {
    if r.cached.Some? && r.cached.value.ordinal == ordinal {
      return Done, r, used;
    }
    r', used' := r.(cached := None), used - CachedSize(r);
    var expected := ExpectedLength(r, chunkSize, ordinal);
    if used' > capacity || expected > capacity - used' {
      return ResourceLimit, r', used';
    }
    var content := Opened(file, r, chunkSize, ordinal);
    if content.None? {
      return Corrupt, r', used';
    }
    outcome, r', used' := Done, r.(cached := Some(Cached(ordinal, content.value))), used' + expected;
  }

  /** The reader's version stores this stream. */
  ghost predicate Reads(file: File, r: Reader, chunkSize: nat, stream: seq<byte>)
    requires chunkSize > 0
  {
    |stream| == r.size && Stored(file, r.chunks, stream, chunkSize)
  }

  lemma {:induction false} SliceOfChunk(stream: seq<byte>, chunkSize: nat, ordinal: nat, within: nat, n: nat)
    requires Span(ordinal, chunkSize) <= |stream| && within + n <= |ChunkOf(stream, chunkSize, ordinal)|
    ensures var at := Span(ordinal, chunkSize) + within;
            at + n <= |stream| && ChunkOf(stream, chunkSize, ordinal)[within..within + n] == stream[at..at + n]
  {
  }

  lemma {:induction false} PartLoads(file: File, chunkSize: nat, capacity: nat, others: int, r: Reader, at: nat, bytes: seq<byte>, n: nat)
    requires chunkSize > 0 && |r.chunks| == ChunkCount(r.size, chunkSize) && at / chunkSize < |r.chunks|
    requires Opened(file, r, chunkSize, at / chunkSize) == Some(bytes) && at % chunkSize + n <= |bytes|
    requires OutcomeAt(file, chunkSize, capacity, others, r, at) == Done
    ensures BytesAt(file, chunkSize, r, at, bytes[at % chunkSize..at % chunkSize + n])
    ensures AllLoad(file, chunkSize, capacity, others, r, at, at + n)
  {
    ExpectedAtMost(r, chunkSize, at / chunkSize);
    var part := bytes[at % chunkSize..at % chunkSize + n];
    forall i | 0 <= i < n ensures ByteAt(file, chunkSize, r, at + i, part[i]) {
      SameChunk(at, i, chunkSize);
    }
    forall x: nat | at <= x < at + n ensures OutcomeAt(file, chunkSize, capacity, others, r, x) == Done {
      SameChunk(at, x - at, chunkSize);
    }
  }

  lemma {:induction false} BytesJoin(file: File, chunkSize: nat, r: Reader, at: nat, a: seq<byte>, c: seq<byte>)
    requires chunkSize > 0 && BytesAt(file, chunkSize, r, at, a) && BytesAt(file, chunkSize, r, at + |a|, c)
    ensures BytesAt(file, chunkSize, r, at, a + c)
  {
    forall i | 0 <= i < |a + c| ensures ByteAt(file, chunkSize, r, at + i, (a + c)[i]) {
      if i >= |a| {
        assert ByteAt(file, chunkSize, r, at + |a| + (i - |a|), c[i - |a|]);
      }
    }
  }

  lemma {:induction false} LoadsJoin(file: File, chunkSize: nat, capacity: nat, others: int, r: Reader, from: nat, mid: nat, to: nat)
    requires chunkSize > 0 && from <= mid <= to
    requires AllLoad(file, chunkSize, capacity, others, r, from, mid) && AllLoad(file, chunkSize, capacity, others, r, mid, to)
    ensures AllLoad(file, chunkSize, capacity, others, r, from, to)
  {
  }

  /** What has been copied so far of a range. */
  ghost predicate Copied(file: File, chunkSize: nat, capacity: nat, others: int, r: Reader, offset: nat, out: seq<byte>)
    requires chunkSize > 0
  {
    BytesAt(file, chunkSize, r, offset, out) && AllLoad(file, chunkSize, capacity, others, r, offset, offset + |out|)
  }

  lemma {:induction false} CopiedMore(file: File, chunkSize: nat, capacity: nat, others: int, r: Reader, offset: nat, out: seq<byte>, part: seq<byte>)
    requires chunkSize > 0 && Copied(file, chunkSize, capacity, others, r, offset, out)
    requires Copied(file, chunkSize, capacity, others, r, offset + |out|, part)
    ensures Copied(file, chunkSize, capacity, others, r, offset, out + part)
  {
    BytesJoin(file, chunkSize, r, offset, out, part);
    LoadsJoin(file, chunkSize, capacity, others, r, offset, offset + |out|, offset + |out| + |part|);
  }

  /** What a chunk opens to does not depend on what is cached. */
  lemma {:induction false} CacheAside(file: File, chunkSize: nat, capacity: nat, others: int, r: Reader, r0: Reader, ordinal: nat)
    requires r == r0.(cached := r.cached)
    ensures LoadOutcome(file, chunkSize, capacity, others, r, ordinal) == LoadOutcome(file, chunkSize, capacity, others, r0, ordinal)
    ensures ordinal < |r.chunks| ==> Opened(file, r, chunkSize, ordinal) == Opened(file, r0, chunkSize, ordinal)
  {
  }

  /** Copy what one chunk offers of the `want` bytes at `at`. */
  method ReadPart(file: File, chunkSize: nat, capacity: nat, used: nat, r: Reader, at: nat, want: nat,
                  ghost r0: Reader, ghost others: nat)
    returns (outcome: Outcome, part: seq<byte>, r': Reader, used': nat)
    requires chunkSize > 0 && ReaderOk(file, r, chunkSize) && Shares(used, r, others, capacity)
    requires r == r0.(cached := r.cached) && 0 < want && at + want <= r.size
    ensures Shares(used', r', others, capacity) && ReaderOk(file, r', chunkSize)
    ensures r' == r0.(cached := r'.cached)
    ensures outcome == OutcomeAt(file, chunkSize, capacity, others, r0, at)
    ensures outcome == Done ==> 0 < |part| <= want && Copied(file, chunkSize, capacity, others, r0, at, part)
  {
    var ordinal, within := at / chunkSize, at % chunkSize;
    ghost var o, w := Locate(r, chunkSize, at);
    part := [];
    outcome, r', used' := LoadChunk(file, chunkSize, capacity, used, r, ordinal, others);
    CacheAside(file, chunkSize, capacity, others, r, r0, ordinal);
    if outcome == Done {
      var bytes := r'.cached.value.bytes;
      var n := if want <= |bytes| - within then want else |bytes| - within;
      part := bytes[within..within + n];
      PartLoads(file, chunkSize, capacity, others, r0, at, bytes, n);
    }
  }

  /** A read in progress: nothing of the reader has changed but what it has cached. */
  ghost predicate Reading(file: File, chunkSize: nat, capacity: nat, others: nat, r: Reader, offset: nat, out: seq<byte>,
                          r': Reader, used': nat)
    requires chunkSize > 0
  {
    && Shares(used', r', others, capacity) && ReaderOk(file, r', chunkSize) && r' == r.(cached := r'.cached)
    && Copied(file, chunkSize, capacity, others, r, offset, out)
  }

  /** The next part of a range. */
  method ReadNext(file: File, chunkSize: nat, capacity: nat, used: nat, r: Reader, offset: nat, count: nat, out: seq<byte>,
                  ghost r0: Reader, ghost others: nat)
    returns (outcome: Outcome, out': seq<byte>, r': Reader, used': nat)
    requires chunkSize > 0 && Reading(file, chunkSize, capacity, others, r0, offset, out, r, used)
    requires |out| < count && offset + count <= r0.size
    ensures outcome == OutcomeAt(file, chunkSize, capacity, others, r0, offset + |out|)
    ensures Reading(file, chunkSize, capacity, others, r0, offset, out', r', used')
    ensures if outcome == Done then |out| < |out'| <= count else out' == out
  {
    var part;
    outcome, part, r', used' := ReadPart(file, chunkSize, capacity, used, r, offset + |out|, count - |out|, r0, others);
    out' := out;
    if outcome == Done {
      CopiedMore(file, chunkSize, capacity, others, r0, offset, out, part);
      out' := out + part;
    }
  }

  /** Copy `count` bytes from `offset` on, chunk by chunk. */
  method ReadRange(file: File, chunkSize: nat, capacity: nat, used: nat, r: Reader, offset: nat, count: nat, ghost others: nat)
    returns (outcome: Outcome, out: seq<byte>, r': Reader, used': nat)
    requires chunkSize > 0 && ReaderOk(file, r, chunkSize) && offset + count <= r.size && Shares(used, r, others, capacity)
    ensures Shares(used', r', others, capacity) && ReaderOk(file, r', chunkSize)
    ensures r' == r.(cached := r'.cached)
    ensures outcome == Done ==> |out| == count && BytesAt(file, chunkSize, r, offset, out)
    ensures Decides(file, chunkSize, capacity, others, r, offset, offset + count, outcome)
  {
    out, r', used' := [], r, used;
    while |out| != count
      invariant |out| <= count && Reading(file, chunkSize, capacity, others, r, offset, out, r', used')
      decreases count - |out|
    {
      var more;
      outcome, more, r', used' := ReadNext(file, chunkSize, capacity, used', r', offset, count, out, r, others);
      if outcome != Done {
        return outcome, [], r', used';
      }
      out := more;
    }
    outcome := Done;
  }

  /** Bytes read from a stored version are those of its stream. */
  lemma {:induction false} StoredBytes(file: File, chunkSize: nat, r: Reader, stream: seq<byte>, at: nat, out: seq<byte>)
    requires chunkSize > 0 && |r.chunks| == ChunkCount(r.size, chunkSize) && Reads(file, r, chunkSize, stream)
    requires at + |out| <= r.size && BytesAt(file, chunkSize, r, at, out)
    ensures out == stream[at..at + |out|]
  {
    forall i | 0 <= i < |out| ensures out[i] == stream[at + i] {
      assert ByteAt(file, chunkSize, r, at + i, out[i]);
      var ordinal, within := Locate(r, chunkSize, at + i);
      StoredOpens(file, r, chunkSize, stream, ordinal);
      SliceOfChunk(stream, chunkSize, ordinal, within, 1);
    }
  }

  lemma {:induction false} StoredRead(file: File, chunkSize: nat, capacity: nat, others: int, r: Reader, stream: seq<byte>, count: nat,
                                      outcome: Outcome)
    requires chunkSize > 0 && |r.chunks| == ChunkCount(r.size, chunkSize) && Reads(file, r, chunkSize, stream)
    requires r.position + count <= r.size
    requires Decides(file, chunkSize, capacity, others, r, r.position, r.position + count, outcome)
    ensures outcome != Corrupt && (others + chunkSize <= capacity ==> outcome == Done)
    ensures outcome == Done <==> RoomFor(chunkSize, capacity, others, r, r.position, r.position + count)
  {
    if outcome != Done {
      var x: nat :| r.position <= x < r.position + count && OutcomeAt(file, chunkSize, capacity, others, r, x) == outcome;
      StoredLoads(file, chunkSize, capacity, others, r, stream, x);
    } else {
      forall x: nat | r.position <= x < r.position + count ensures RoomAt(chunkSize, capacity, others, r, x) {
        assert OutcomeAt(file, chunkSize, capacity, others, r, x) == Done;
      }
    }
  }

  /** How many bytes a read of up to `count` bytes is for. */
  function Wanted(r: Reader, count: nat): nat
    requires r.position <= r.size
  {
    if count <= r.size - r.position then count else r.size - r.position
  }

  /** What a read of up to `count` bytes returns, when it fails and how, and where it leaves
      the position. */
  ghost predicate ReadsAt(file: File, chunkSize: nat, capacity: nat, others: int, r: Reader, count: nat,
                          outcome: Outcome, out: seq<byte>, r': Reader)
    requires chunkSize > 0 && r.position <= r.size
  {
    && r' == r.(cached := r'.cached, position := if outcome == Done then r.position + |out| else r.position)
    && Decides(file, chunkSize, capacity, others, r, r.position, r.position + Wanted(r, count), outcome)
    && (outcome == Done ==> |out| == Wanted(r, count) && BytesAt(file, chunkSize, r, r.position, out))
  }

  /** From a stored version a read returns the bytes of its stream, and fails if and only if
      a chunk it needs does not fit beside what the other readers hold. */
  ghost predicate ReadsStream(chunkSize: nat, capacity: nat, others: int, r: Reader, count: nat, stream: seq<byte>,
                              outcome: Outcome, out: seq<byte>)
    requires chunkSize > 0 && r.position <= r.size == |stream|
  {
    && (outcome == Done <==> RoomFor(chunkSize, capacity, others, r, r.position, r.position + Wanted(r, count)))
    && outcome != Corrupt && (others + chunkSize <= capacity ==> outcome == Done)
    && (outcome == Done ==> |out| <= |stream| - r.position && out == stream[r.position..r.position + |out|])
  }

  method ReadSome(file: File, chunkSize: nat, capacity: nat, used: nat, r: Reader, count: nat,
                  ghost others: nat, ghost stream: seq<byte>)
    returns (outcome: Outcome, out: seq<byte>, r': Reader, used': nat)
    requires chunkSize > 0 && ReaderOk(file, r, chunkSize) && Shares(used, r, others, capacity)
    ensures Shares(used', r', others, capacity) && ReaderOk(file, r', chunkSize)
    ensures ReadsAt(file, chunkSize, capacity, others, r, count, outcome, out, r')
    ensures Reads(file, r, chunkSize, stream) ==> ReadsStream(chunkSize, capacity, others, r, count, stream, outcome, out)
  {
    var n := Wanted(r, count);
    if n == 0 {
      return Done, [], r, used;
    }
    outcome, out, r', used' := ReadRange(file, chunkSize, capacity, used, r, r.position, n, others);
    if outcome == Done {
      r' := r'.(position := r'.position + n);
    }
    if Reads(file, r, chunkSize, stream) {
      ReadsTheStream(file, chunkSize, capacity, others, r, count, stream, outcome, out, r');
    }
  }

  /** What such a read returns if the version stores a stream. */
  lemma {:induction false} ReadsTheStream(file: File, chunkSize: nat, capacity: nat, others: int, r: Reader, count: nat, stream: seq<byte>,
                                          outcome: Outcome, out: seq<byte>, r': Reader)
    requires chunkSize > 0 && ReaderOk(file, r, chunkSize) && Reads(file, r, chunkSize, stream)
    requires ReadsAt(file, chunkSize, capacity, others, r, count, outcome, out, r')
    ensures ReadsStream(chunkSize, capacity, others, r, count, stream, outcome, out)
  {
    StoredRead(file, chunkSize, capacity, others, r, stream, Wanted(r, count), outcome);
    if outcome == Done {
      StoredBytes(file, chunkSize, r, stream, r.position, out);
    }
  }

  /** What the other readers hold of the cache. */
  function Others(readers: map<nat, Reader>, used: nat, id: nat): int
    requires id in readers
  {
    used - CachedSize(readers[id])
  }

  /** The open readers of a session and the cache they share. */
  class BlobReaders {
    var file: File
    const chunkSize: nat
    const capacity: nat
    var readers: map<nat, Reader>
    var used: nat

    ghost predicate Valid()
      reads this
    {
      && chunkSize > 0
      && CacheOk(readers, used, capacity)
      && forall id :: id in readers ==> ReaderOk(file, readers[id], chunkSize)
    }

    constructor (file: File, chunkSize: nat, capacity: nat)
      requires chunkSize > 0
      ensures Valid() && readers == map[] && used == 0
      ensures this.file == file && this.chunkSize == chunkSize && this.capacity == capacity
    {
      this.file, this.chunkSize, this.capacity := file, chunkSize, capacity;
      readers, used := map[], 0;
    }

    /** The file has changed under the readers, but not where they read. */
    method Follow(file': File)
      requires Valid() && forall id :: id in readers ==> ReaderOk(file', readers[id], chunkSize)
      modifies this`file
      ensures Valid() && file == file'
    {
      file := file';
    }

    method Open(id: nat, chunks: seq<Run>, size: nat)
      requires Valid() && id !in readers && |chunks| == ChunkCount(size, chunkSize)
      modifies this`readers, this`used
      ensures Valid()
      ensures readers == old(readers)[id := Reader(chunks, size, 0, None)]
    {
      CacheChange(readers, used, capacity, id, Reader(chunks, size, 0, None));
      readers := readers[id := Reader(chunks, size, 0, None)];
    }

    method Seek(id: nat, offset: nat) returns (ok: bool)
      requires Valid() && id in readers
      modifies this`readers, this`used
      ensures Valid()
      ensures ok <==> offset <= old(readers)[id].size
      ensures readers == if ok then old(readers)[id := old(readers)[id].(position := offset)] else old(readers)
    {
      ok := offset <= readers[id].size;
      if ok {
        CacheChange(readers, used, capacity, id, readers[id].(position := offset));
        readers := readers[id := readers[id].(position := offset)];
      }
    }

    method Close(id: nat)
      requires Valid() && id in readers
      modifies this`readers, this`used
      ensures Valid()
      ensures readers == old(readers) - {id} && used + CachedSize(old(readers)[id]) == old(used)
    {
      SumSplit(readers, CachedSize, id);
      used := used - CachedSize(readers[id]);
      readers := readers - {id};
    }

    /** Read up to `count` bytes at the position and advance it.  A failed read
        leaves the position where it was. */
    method Read(id: nat, count: nat, ghost stream: seq<byte>) returns (outcome: Outcome, out: seq<byte>)
      requires Valid() && id in readers
      modifies this`readers, this`used
      ensures Valid() && id in readers && readers == old(readers)[id := readers[id]]
      ensures ReadsAt(file, chunkSize, capacity, Others(old(readers), old(used), id), old(readers)[id], count, outcome, out, readers[id])
      ensures Reads(file, old(readers)[id], chunkSize, stream) ==>
              ReadsStream(chunkSize, capacity, Others(old(readers), old(used), id), old(readers)[id], count, stream, outcome, out)
    {
      SumSplit(readers, CachedSize, id);
      var r;
      outcome, out, r, used := ReadSome(file, chunkSize, capacity, used, readers[id], count, used - CachedSize(readers[id]), stream);
      CacheChange(readers, old(used), capacity, id, r);
      readers := readers[id := r];
    }
  }
}
