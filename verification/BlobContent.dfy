/** Blob content as chunks in the file: how a byte stream is cut into chunks, and
    what it means for a run of blocks to hold a chunk. */
module BlobContent {
  import opened Basics
  import opened ExtentRuns

  /** A chunk is sealed with its place in its Blob. */
  datatype Sealed = Sealed(ordinal: nat, content: seq<byte>)

  /** One block of a sealed chunk extent. */
  datatype Piece = Piece(sealed: Sealed, index: nat)

  type File = map<nat, Piece>

  /** The run holds exactly this chunk, so opening the extent returns it. */
  ghost predicate Holds(file: File, r: Run, sealed: Sealed) {
    r.count > 0 && forall b :: r.Has(b) ==> b in file && file[b] == Piece(sealed, b - r.start)
  }

  /** Opening an extent as a given chunk: its content if every block belongs to that
      chunk, else corruption. */
  function OpenExtent(file: File, r: Run, ordinal: nat): (content: Option<seq<byte>>)
    ensures forall c :: content == Some(c) <==> Holds(file, r, Sealed(ordinal, c))
  {
    if r.count > 0 && r.start in file && file[r.start].sealed.ordinal == ordinal
       && forall b :: r.start <= b < r.End() ==> b in file && file[b] == Piece(file[r.start].sealed, b - r.start)
    then
      assert r.Has(r.start);
      Some(file[r.start].sealed.content)
    else
      assert r.count > 0 ==> r.Has(r.start);
      None
  }

  /** Write the first `k` blocks of an extent. */
  function WriteBlocks(file: File, start: nat, sealed: Sealed, k: nat): (out: File)
    ensures forall b :: b in out <==> b in file || start <= b < start + k
    ensures forall b :: b in out ==> out[b] == if start <= b < start + k then Piece(sealed, b - start) else file[b]
  {
    if k == 0 then file else WriteBlocks(file, start, sealed, k - 1)[start + k - 1 := Piece(sealed, k - 1)]
  }

  lemma {:induction false} WriteHolds(file: File, r: Run, sealed: Sealed)
    requires r.count > 0
    ensures Holds(WriteBlocks(file, r.start, sealed, r.count), r, sealed)
  {
  }

  lemma {:induction false} WriteKeeps(file: File, r: Run, sealed: Sealed, k: nat, q: Run, d: Sealed)
    requires k <= r.count && Holds(file, q, d) && forall b :: q.Has(b) ==> !r.Has(b)
    ensures Holds(WriteBlocks(file, r.start, sealed, k), q, d)
  {
  }

  // ---------------------------------------------------------------- streams

  /** `n` chunks of `size` bytes. */
  function Span(n: nat, size: nat): nat {
    if n == 0 then 0 else Span(n - 1, size) + size
  }

  lemma {:induction false} SpanMonotone(a: nat, c: nat, size: nat)
    requires a <= c
    ensures Span(a, size) <= Span(c, size)
    ensures a < c ==> Span(a, size) + size <= Span(c, size)
    decreases c
  {
    if a < c {
      SpanMonotone(a, c - 1, size);
    }
  }

  lemma {:induction false} SpanIsProduct(n: nat, size: nat)
    ensures Span(n, size) == n * size
  {
    if n > 0 {
      SpanIsProduct(n - 1, size);
      assert n * size == (n - 1) * size + size;
    }
  }

  /** A quotient and a remainder are determined by what they add up to. */
  lemma {:induction false} DivUnique(q: nat, r: nat, p: nat, t: nat, size: nat)
    requires r < size && t < size && Span(q, size) + r == Span(p, size) + t
    ensures q == p && r == t
  {
    if q < p {
      SpanMonotone(q, p, size);
    } else if p < q {
      SpanMonotone(p, q, size);
    }
  }

  lemma {:induction false} DivIsSpan(x: nat, size: nat)
    requires size > 0
    ensures x == Span(x / size, size) + x % size
  {
    SpanIsProduct(x / size, size);
  }

  /** Dividing an offset finds the chunk and the place within it. */
  lemma {:induction false} DivSpan(n: nat, rest: nat, size: nat)
    requires rest < size
    ensures (Span(n, size) + rest) / size == n && (Span(n, size) + rest) % size == rest
  {
    var x := Span(n, size) + rest;
    DivIsSpan(x, size);
    DivUnique(x / size, x % size, n, rest, size);
  }

  function ChunkCount(length: nat, size: nat): nat
    requires size > 0
  {
    if length == 0 then 0 else 1 + (length - 1) / size
  }

  lemma {:induction false} CountOf(n: nat, rest: nat, size: nat)
    requires rest < size
    ensures ChunkCount(Span(n, size) + rest, size) == if rest == 0 then n else n + 1
  {
    if rest > 0 {
      DivSpan(n, rest - 1, size);
    } else if n > 0 {
      DivSpan(n - 1, size - 1, size);
    }
  }

  /** The `i`-th chunk of a stream: full, unless the stream ends in it. */
  function ChunkOf(stream: seq<byte>, size: nat, i: nat): seq<byte>
    requires Span(i, size) <= |stream|
  {
    if Span(i, size) + size <= |stream| then stream[Span(i, size)..Span(i, size) + size] else stream[Span(i, size)..]
  }

  /** Run `i` of `chunks` holds chunk `i` of the stream, and the stream reaches into it. */
  ghost predicate HoldsChunk(file: File, chunks: seq<Run>, stream: seq<byte>, size: nat, i: nat)
    requires i < |chunks|
  {
    Span(i, size) < |stream| && Holds(file, chunks[i], Sealed(i, ChunkOf(stream, size, i)))
  }

  /** A writer's state: full chunks staged, the rest buffered. */
  ghost predicate Streaming(file: File, chunks: seq<Run>, buffer: seq<byte>, stream: seq<byte>, size: nat) {
    && Span(|chunks|, size) <= |stream|
    && buffer == stream[Span(|chunks|, size)..]
    && forall i :: 0 <= i < |chunks| ==> HoldsChunk(file, chunks, stream, size, i)
  }

  /** A finished version: all chunks of the stream, in order, and no others. */
  ghost predicate Stored(file: File, chunks: seq<Run>, stream: seq<byte>, size: nat)
    requires size > 0
  {
    && |chunks| == ChunkCount(|stream|, size)
    && forall i :: 0 <= i < |chunks| ==> HoldsChunk(file, chunks, stream, size, i)
  }

  /** More bytes reach the buffer. */
  lemma {:induction false} BufferMore(file: File, chunks: seq<Run>, buffer: seq<byte>, stream: seq<byte>, size: nat, more: seq<byte>)
    requires size > 0 && Streaming(file, chunks, buffer, stream, size)
    ensures Streaming(file, chunks, buffer + more, stream + more, size)
  {
    var longer := stream + more;
    assert buffer + more == longer[Span(|chunks|, size)..];
    forall i | 0 <= i < |chunks| ensures HoldsChunk(file, chunks, longer, size, i) {
      assert HoldsChunk(file, chunks, stream, size, i);
      SpanMonotone(i, |chunks|, size);
      assert ChunkOf(longer, size, i) == ChunkOf(stream, size, i);
    }
  }

  /** A full buffer has been staged. */
  lemma {:induction false} StageFull(file: File, chunks: seq<Run>, buffer: seq<byte>, stream: seq<byte>, size: nat, r: Run)
    requires size > 0 && |buffer| == size && Streaming(file, chunks, buffer, stream, size)
    requires Holds(file, r, Sealed(|chunks|, buffer))
    ensures Streaming(file, chunks + [r], [], stream, size)
  {
    var n := |chunks|;
    forall i | 0 <= i < n + 1 ensures HoldsChunk(file, chunks + [r], stream, size, i) {
      if i < n {
        assert HoldsChunk(file, chunks, stream, size, i);
      } else {
        assert ChunkOf(stream, size, n) == buffer;
      }
    }
  }

  /** The last, shorter chunk has been staged, if there is one. */
  lemma {:induction false} FinishStored(file: File, chunks: seq<Run>, buffer: seq<byte>, stream: seq<byte>, size: nat, all: seq<Run>)
    requires size > 0 && |buffer| < size && Streaming(file, chunks, buffer, stream, size)
    requires if buffer == [] then all == chunks
             else |all| == |chunks| + 1 && all[..|chunks|] == chunks && Holds(file, all[|chunks|], Sealed(|chunks|, buffer))
    ensures Stored(file, all, stream, size)
  {
    var n := |chunks|;
    CountOf(n, |buffer|, size);
    forall i | 0 <= i < |all| ensures HoldsChunk(file, all, stream, size, i) {
      if i < n {
        assert all[i] == all[..n][i];
        assert HoldsChunk(file, chunks, stream, size, i);
      }
    }
  }

  /** The first `n` chunks of a stream, one after another. */
  ghost function Joined(stream: seq<byte>, size: nat, n: nat): seq<byte>
    requires n == 0 || Span(n - 1, size) <= |stream|
  {
    if n == 0 then []
    else
      SpanMonotone(if n == 1 then 0 else n - 2, n - 1, size);
      Joined(stream, size, n - 1) + ChunkOf(stream, size, n - 1)
  }

  /** All chunks together are the stream. */
  lemma {:induction false} ChunksConcatenate(stream: seq<byte>, size: nat, n: nat)
    requires size > 0 && (n == 0 || Span(n - 1, size) <= |stream|)
    ensures Joined(stream, size, n) == stream[..if Span(n, size) <= |stream| then Span(n, size) else |stream|]
  {
    if n > 0 {
      SpanMonotone(if n == 1 then 0 else n - 2, n - 1, size);
      ChunksConcatenate(stream, size, n - 1);
    }
  }

  lemma {:induction false} CountCovers(length: nat, size: nat)
    requires size > 0 && length > 0
    ensures Span(ChunkCount(length, size) - 1, size) < length <= Span(ChunkCount(length, size), size)
  {
    var q := (length - 1) / size;
    DivIsSpan(length - 1, size);
  }

  lemma {:induction false} StoredConcatenates(file: File, chunks: seq<Run>, stream: seq<byte>, size: nat)
    requires size > 0 && Stored(file, chunks, stream, size)
    ensures |chunks| == 0 || Span(|chunks| - 1, size) <= |stream|
    ensures Joined(stream, size, |chunks|) == stream
  {
    if |stream| > 0 {
      CountCovers(|stream|, size);
      ChunksConcatenate(stream, size, |chunks|);
      assert stream[..|stream|] == stream;
    }
  }
}
