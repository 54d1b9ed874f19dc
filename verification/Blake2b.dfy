/** Streaming BLAKE2b around an arbitrary compression function. */
module Blake2b {
  import opened Basics
  import opened LittleEndian

  const BLOCK: nat := 128
  const WORD: nat := 0x1_0000_0000_0000_0000

  type State = seq<nat>

  /** State, block, low and high counter word, and whether the block is the last one. */
  type Compress = (State, seq<byte>, nat, nat, bool) -> State

  function Low(n: nat): nat { n % WORD }

  function High(n: nat): nat { (n / WORD) % WORD }

  /** The last block, filled up with zeros. */
  function Padded(s: seq<byte>): (out: seq<byte>)
    requires |s| <= BLOCK
    ensures |out| == BLOCK && out[..|s|] == s && forall i :: |s| <= i < BLOCK ==> out[i] == 0
  {
    s + seq(BLOCK - |s|, _ => 0)
  }

  // ---------------------------------------------------------------- section 3.3 of RFC 7693

  /** The state after the first `k` blocks, none of them last. */
  function Absorbed(f: Compress, h: State, data: seq<byte>, k: nat): State
    requires BLOCK * k <= |data|
  {
    if k == 0 then h
    else f(Absorbed(f, h, data, k - 1), data[BLOCK * (k - 1)..BLOCK * k], Low(BLOCK * k), High(BLOCK * k), false)
  }

  /** Number of blocks: at least one, the last possibly short. */
  function Blocks(length: nat): nat {
    if length == 0 then 1 else (length + BLOCK - 1) / BLOCK
  }

  lemma {:induction false} LastBlock(length: nat)
    ensures Blocks(length) > 0
    ensures BLOCK * (Blocks(length) - 1) <= length <= BLOCK * Blocks(length)
  {
  }

  /** The final state for the whole message. */
  function Hashed(f: Compress, h: State, data: seq<byte>): State {
    LastBlock(|data|);
    var k := Blocks(|data|) - 1;
    f(Absorbed(f, h, data, k), Padded(data[BLOCK * k..]), Low(|data|), High(|data|), true)
  }

  function Digest(h: State): (s: seq<byte>)
    ensures |s| == 8 * |h|
  {
    if h == [] then [] else Digest(h[..|h| - 1]) + Encode(h[|h| - 1], 8)
  }

  lemma {:induction false} AbsorbedPrefix(f: Compress, h: State, data: seq<byte>, more: seq<byte>, k: nat)
    requires BLOCK * k <= |data|
    ensures Absorbed(f, h, data + more, k) == Absorbed(f, h, data, k)
  {
    if k > 0 {
      AbsorbedPrefix(f, h, data, more, k - 1);
      assert (data + more)[BLOCK * (k - 1)..BLOCK * k] == data[BLOCK * (k - 1)..BLOCK * k];
    }
  }

  // ---------------------------------------------------------------- counters

  /** The two words count `n` modulo 2^128. */
  predicate Counts(low: nat, high: nat, n: nat) { low == Low(n) && high == High(n) }

  lemma {:induction false} CountMore(low: nat, high: nat, n: nat, bytes: nat)
    requires Counts(low, high, n) && bytes <= BLOCK
    ensures Counts((low + bytes) % WORD, if (low + bytes) % WORD < low then (high + 1) % WORD else high, n + bytes)
  {
    var q := n / WORD;
    assert n == q * WORD + low;
    if low + bytes < WORD {
      assert (n + bytes) / WORD == q;
    } else {
      assert (n + bytes) / WORD == q + 1;
      HighStep(q);
    }
  }

  lemma {:induction false} HighStep(q: nat)
    ensures (q % WORD + 1) % WORD == (q + 1) % WORD
  {
  }

  /** A message of `blocks` full blocks and a rest of which at least one byte is held
      back, unless there is no message. */
  ghost predicate Cut(data: seq<byte>, blocks: nat, buffered: nat) {
    |data| == BLOCK * blocks + buffered && buffered <= BLOCK && (data != [] ==> buffered > 0)
  }

  lemma {:induction false} CutIsLast(data: seq<byte>, blocks: nat, buffered: nat)
    requires Cut(data, blocks, buffered)
    ensures Blocks(|data|) == blocks + 1
  {
  }

  class Blake2bHash {
    const f: Compress
    const initial: State
    const outputBytes: nat
    const buffer: array<byte>
    var state: State
    var buffered: nat
    var low: nat
    var high: nat
    /** Everything that has been hashed so far, and how many blocks of it are absorbed. */
    ghost var data: seq<byte>
    ghost var blocks: nat

    ghost predicate Buffering()
      reads this, buffer
    {
      && buffer.Length == BLOCK && buffered <= BLOCK && |data| == BLOCK * blocks + buffered
      && buffer[..buffered] == data[BLOCK * blocks..]
    }

    ghost predicate Absorbing()
      reads this, buffer
    {
      && Buffering() && Counts(low, high, BLOCK * blocks)
      && state == Absorbed(f, initial, data, blocks)
    }

    /** Full blocks are absorbed except the last, which is held back in the buffer. */
    ghost predicate Valid()
      reads this, buffer
    {
      Absorbing() && Cut(data, blocks, buffered)
    }

    constructor (f: Compress, initial: State, outputBytes: nat)
      ensures Valid() && data == [] && fresh(buffer)
      ensures this.f == f && this.initial == initial && this.outputBytes == outputBytes
    {
      this.f, this.initial, this.outputBytes := f, initial, outputBytes;
      state, buffered, low, high, data, blocks := initial, 0, 0, 0, [], 0;
      buffer := new byte[BLOCK](_ => 0);
    }

    method IncrementCounter(bytes: nat, ghost n: nat)
      requires bytes <= BLOCK && Counts(low, high, n)
      modifies this`low, this`high
      ensures Counts(low, high, n + bytes)
    {
      CountMore(low, high, n, bytes);
      var previous := low;
      low := (low + bytes) % WORD;
      if low < previous {
        high := (high + 1) % WORD;
      }
    }

    /** A full buffer is absorbed once more input shows that it is not the last block. */
    method Flush()
      requires Absorbing() && buffered == BLOCK
      modifies this`low, this`high, this`state, this`buffered, this`blocks
      ensures Absorbing() && buffered == 0
    {
      IncrementCounter(BLOCK, BLOCK * blocks);
      assert buffer[..] == data[BLOCK * blocks..BLOCK * (blocks + 1)];
      state := f(state, buffer[..], low, high, false);
      buffered, blocks := 0, blocks + 1;
    }

    /** Copy input behind what is buffered. */
    method Fill(input: seq<byte>)
      requires Absorbing() && buffered + |input| <= BLOCK
      modifies this`buffered, this`data, buffer
      ensures Absorbing() && data == old(data) + input && buffered == old(buffered) + |input|
    {
      for i := 0 to |input|
        invariant buffered == old(buffered) && data == old(data)
        invariant buffer[..buffered + i] == old(buffer[..buffered]) + input[..i]
      {
        buffer[buffered + i] := input[i];
      }
      AbsorbedPrefix(f, initial, data, input, blocks);
      assert input[..|input|] == input;
      buffered := buffered + |input|;
      data := data + input;
    }

    /** Take in as much of the input as the buffer has room for. */
    method Accept(input: seq<byte>) returns (count: nat)
      requires Valid() && input != []
      modifies this`state, this`buffered, this`low, this`high, this`data, this`blocks, buffer
      ensures 0 < count <= |input| && Valid() && data == old(data) + input[..count]
    {
      if buffered == BLOCK {
        Flush();
      }
      count := if BLOCK - buffered <= |input| then BLOCK - buffered else |input|;
      Fill(input[..count]);
    }

    /** Hash more input. */
    method Update(input: seq<byte>)
      requires Valid()
      modifies this`state, this`buffered, this`low, this`high, this`data, this`blocks, buffer
      ensures Valid() && data == old(data) + input
    {
      var done: nat := 0;
      while done != |input|
        invariant done <= |input| && Valid() && data == old(data) + input[..done]
        decreases |input| - done
      {
        var count := Accept(input[done..]);
        assert input[..done] + input[done..][..count] == input[..done + count];
        done := done + count;
      }
      assert input[..|input|] == input;
    }

    method ZeroRest()
      requires Buffering()
      modifies buffer
      ensures buffer.Length == BLOCK && buffer[..] == Padded(data[BLOCK * blocks..])
    {
      for i := buffered to BLOCK
        invariant buffer[..buffered] == old(buffer[..buffered])
        invariant forall j :: buffered <= j < i ==> buffer[j] == 0
      {
        buffer[i] := 0;
      }
      assert buffer[..] == buffer[..buffered] + buffer[buffered..];
    }

    /** The digest of everything hashed: the block loop over the concatenated input. */
    method Finish(size: nat) returns (output: Option<seq<byte>>)
      requires Valid() && size <= 8 * |Hashed(f, initial, data)|
      modifies this`state, this`low, this`high, buffer
      ensures output.None? <==> size != outputBytes
      ensures output.Some? ==> output.value == Digest(Hashed(f, initial, data))[..size]
    {
      if size != outputBytes {
        return None;
      }
      CutIsLast(data, blocks, buffered);
      IncrementCounter(buffered, BLOCK * blocks);
      ZeroRest();
      state := f(state, buffer[..], low, high, true);
      var encoded := EncodeWords(state);
      output := Some(encoded[..size]);
    }
  }

  /** The state words, little-endian, one byte at a time. */
  method EncodeWords(state: State) returns (encoded: seq<byte>)
    ensures encoded == Digest(state)
  {
    encoded := [];
    for word := 0 to |state|
      invariant encoded == Digest(state[..word])
    {
      var bytes: seq<byte> := [];
      for i := 0 to 8
        invariant bytes == Encode(state[word], 8)[..i]
      {
        bytes := bytes + [ByteOf(state[word], i)];
      }
      assert state[..word + 1][..word] == state[..word];
      encoded := encoded + bytes;
    }
    assert state[..|state|] == state;
  }
}
