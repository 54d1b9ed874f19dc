/** A file with explicit durability: writes and resizes may be lost or reordered
    until a barrier makes them stable. */
module DurableFile {
  import opened Basics

  datatype Mutation =
    | Write(offset: nat, data: Bytes)
    | Resize(length: nat)

  function ByteAt(bytes: Bytes, a: nat): byte {
    if a < |bytes| then bytes[a] else 0
  }

  function Resized(bytes: Bytes, length: nat): (out: Bytes)
    ensures |out| == length
  {
    seq(length, a requires 0 <= a < length => ByteAt(bytes, a))
  }

  /** A write extends the file with zeros if it must, and changes its own range only. */
  function Overlay(bytes: Bytes, offset: nat, data: Bytes): (out: Bytes)
    ensures |out| == if offset + |data| > |bytes| then offset + |data| else |bytes|
  {
    var length := if offset + |data| > |bytes| then offset + |data| else |bytes|;
    seq(length, a requires 0 <= a < length =>
      if offset <= a < offset + |data| then data[a - offset] else ByteAt(bytes, a))
  }

  function Apply(bytes: Bytes, m: Mutation): Bytes {
    match m
    case Write(offset, data) => Overlay(bytes, offset, data)
    case Resize(length) => Resized(bytes, length)
  }

  predicate Indexes(order: seq<nat>, n: nat) {
    forall i :: 0 <= i < |order| ==> order[i] < n
  }

  /** What a crash may leave behind: any of the mutations, in any order, any number
      of times each. */
  function Replay(bytes: Bytes, muts: seq<Mutation>, order: seq<nat>): Bytes
    requires Indexes(order, |muts|)
  {
    if order == [] then bytes
    else
      var n := |order| - 1;
      Apply(Replay(bytes, muts, order[..n]), muts[order[n]])
  }

  // ---------------------------------------------------------------- frames

  /** The mutation leaves the byte range alone. */
  predicate Spares(m: Mutation, lo: nat, hi: nat) {
    match m
    case Write(offset, data) => offset + |data| <= lo || hi <= offset
    case Resize(length) => hi <= length
  }

  ghost predicate AllSpare(muts: seq<Mutation>, lo: nat, hi: nat) {
    forall i :: 0 <= i < |muts| ==> Spares(muts[i], lo, hi)
  }

  lemma {:induction false} ApplySpares(bytes: Bytes, m: Mutation, lo: nat, hi: nat)
    requires lo <= hi <= |bytes| && Spares(m, lo, hi)
    ensures hi <= |Apply(bytes, m)| && Apply(bytes, m)[lo..hi] == bytes[lo..hi]
  {
    var after := Apply(bytes, m);
    forall a | lo <= a < hi ensures after[a] == bytes[a] { }
  }

  lemma {:induction false} ReplaySpares(bytes: Bytes, muts: seq<Mutation>, order: seq<nat>, lo: nat, hi: nat)
    requires Indexes(order, |muts|) && lo <= hi <= |bytes| && AllSpare(muts, lo, hi)
    ensures hi <= |Replay(bytes, muts, order)|
    ensures Replay(bytes, muts, order)[lo..hi] == bytes[lo..hi]
  {
    if order != [] {
      var n := |order| - 1;
      ReplaySpares(bytes, muts, order[..n], lo, hi);
      ApplySpares(Replay(bytes, muts, order[..n]), muts[order[n]], lo, hi);
    }
  }

  /** The mutation writes nothing into the range but bytes of `value` at their places. */
  ghost predicate WritesOnly(m: Mutation, lo: nat, value: Bytes) {
    match m
    case Write(offset, data) =>
      forall k :: 0 <= k < |value| ==> offset <= lo + k < offset + |data| ==> data[lo + k - offset] == value[k]
    case Resize(length) => lo + |value| <= length
  }

  /** Every byte comes from one or the other. */
  ghost predicate Mixes(image: Bytes, old_: Bytes, new_: Bytes) {
    && |image| == |old_| == |new_|
    && forall a :: 0 <= a < |image| ==> image[a] == old_[a] || image[a] == new_[a]
  }

  lemma {:induction false} ApplyByte(bytes: Bytes, m: Mutation, a: nat, v: byte)
    requires a < |bytes| && (m.Resize? ==> a < m.length)
    requires m.Write? && m.offset <= a < m.offset + |m.data| ==> m.data[a - m.offset] == v
    ensures a < |Apply(bytes, m)| && (Apply(bytes, m)[a] == bytes[a] || Apply(bytes, m)[a] == v)
  {
  }

  lemma {:induction false} ApplyMixes(bytes: Bytes, m: Mutation, lo: nat, was: Bytes, value: Bytes)
    requires lo + |value| <= |bytes| && WritesOnly(m, lo, value) && Mixes(bytes[lo..lo + |value|], was, value)
    ensures lo + |value| <= |Apply(bytes, m)| && Mixes(Apply(bytes, m)[lo..lo + |value|], was, value)
  {
    var before, now := bytes[lo..lo + |value|], Apply(bytes, m);
    forall k | 0 <= k < |value|
      ensures lo + k < |now| && (now[lo + k] == was[k] || now[lo + k] == value[k])
    {
      ApplyByte(bytes, m, lo + k, value[k]);
      assert before[k] == was[k] || before[k] == value[k];
    }
  }

  /** A range that is being overwritten is, after a crash, a mixture. */
  lemma {:induction false} ReplayMixes(bytes: Bytes, muts: seq<Mutation>, order: seq<nat>, lo: nat, value: Bytes)
    requires Indexes(order, |muts|) && lo + |value| <= |bytes|
    requires forall i :: 0 <= i < |muts| ==> WritesOnly(muts[i], lo, value)
    ensures lo + |value| <= |Replay(bytes, muts, order)|
    ensures Mixes(Replay(bytes, muts, order)[lo..lo + |value|], bytes[lo..lo + |value|], value)
  {
    if order != [] {
      var n := |order| - 1;
      ReplayMixes(bytes, muts, order[..n], lo, value);
      ApplyMixes(Replay(bytes, muts, order[..n]), muts[order[n]], lo, bytes[lo..lo + |value|], value);
    }
  }

  /** The length a crash leaves is at least what stable storage and resizes allow. */
  lemma {:induction false} ReplayLength(bytes: Bytes, muts: seq<Mutation>, order: seq<nat>, length: nat)
    requires Indexes(order, |muts|) && length <= |bytes|
    requires forall i :: 0 <= i < |muts| && muts[i].Resize? ==> length <= muts[i].length
    ensures length <= |Replay(bytes, muts, order)|
  {
    if order != [] {
      var n := |order| - 1;
      ReplayLength(bytes, muts, order[..n], length);
    }
  }

  /** All mutations since the last barrier, each once and in order. */
  function InOrder(n: nat): (order: seq<nat>)
    ensures |order| == n && forall i :: 0 <= i < n ==> order[i] == i
  {
    seq(n, i => i)
  }

  lemma {:induction false} ReplayPrefix(bytes: Bytes, muts: seq<Mutation>, m: Mutation, order: seq<nat>)
    requires Indexes(order, |muts|)
    ensures Replay(bytes, muts + [m], order) == Replay(bytes, muts, order)
  {
    if order != [] {
      ReplayPrefix(bytes, muts, m, order[..|order| - 1]);
    }
  }

  /** Every mutation once, as it happened. */
  function Performed(bytes: Bytes, muts: seq<Mutation>): Bytes {
    if muts == [] then bytes else Apply(Performed(bytes, muts[..|muts| - 1]), muts[|muts| - 1])
  }

  /** Losing nothing is one of the outcomes of a crash. */
  lemma {:induction false} PerformedIsReplay(bytes: Bytes, muts: seq<Mutation>)
    ensures Replay(bytes, muts, InOrder(|muts|)) == Performed(bytes, muts)
  {
    if muts != [] {
      var n := |muts| - 1;
      PerformedIsReplay(bytes, muts[..n]);
      ReplayPrefix(bytes, muts[..n], muts[n], InOrder(n));
      assert muts[..n] + [muts[n]] == muts && InOrder(n + 1)[..n] == InOrder(n);
    }
  }

  // ---------------------------------------------------------------- the file

  /** The pieces of one write that reached the file before it ended or failed. */
  ghost predicate PiecesOf(muts: seq<Mutation>, offset: nat, source: Bytes) {
    forall i :: 0 <= i < |muts| ==> PieceOf(muts[i], offset, source)
  }

  predicate PieceOf(m: Mutation, offset: nat, source: Bytes) {
    && m.Write? && offset <= m.offset && m.offset + |m.data| <= offset + |source|
    && m.data == source[m.offset - offset..m.offset - offset + |m.data|]
  }

  /** The file after the first `done` bytes of a write. */
  function Transferred(bytes: Bytes, offset: nat, source: Bytes, done: nat): Bytes
    requires done <= |source|
  {
    if done == 0 then bytes else Overlay(bytes, offset, source[..done])
  }

  lemma {:induction false} TransferMore(bytes: Bytes, offset: nat, source: Bytes, done: nat, count: nat)
    requires 0 < count && done + count <= |source|
    ensures Overlay(Transferred(bytes, offset, source, done), offset + done, source[done..done + count])
         == Transferred(bytes, offset, source, done + count)
  {
  }

  /** The first `done` bytes of a write are in the file, and recorded in `pieces`. */
  ghost predicate Copied(was: Bytes, wasMuts: seq<Mutation>, now: Bytes, muts: seq<Mutation>,
                         offset: nat, source: Bytes, done: nat, pieces: seq<Mutation>)
  {
    && muts == wasMuts + pieces && PiecesOf(pieces, offset, source)
    && done <= |source| && now == Transferred(was, offset, source, done)
  }

  lemma {:induction false} PiecesWriteOnly(muts: seq<Mutation>, offset: nat, source: Bytes)
    requires PiecesOf(muts, offset, source)
    ensures forall i :: 0 <= i < |muts| ==> WritesOnly(muts[i], offset, source)
  {
  }

  lemma {:induction false} PiecesSpare(muts: seq<Mutation>, offset: nat, source: Bytes, lo: nat, hi: nat)
    requires PiecesOf(muts, offset, source) && (offset + |source| <= lo || hi <= offset)
    ensures AllSpare(muts, lo, hi)
  {
  }

  class MemoryDurableFile {
    var bytes: Bytes
    var stable: Bytes
    var unbarriered: seq<Mutation>

    /** What readers see is every mutation since the last barrier, in order. */
    ghost predicate Valid()
      reads this
    {
      bytes == Performed(stable, unbarriered)
    }

    constructor (initial: Bytes)
      ensures Valid() && bytes == stable == initial && unbarriered == []
    {
      bytes, stable, unbarriered := initial, initial, [];
    }

    method Record(m: Mutation)
      requires Valid()
      modifies this
      ensures Valid() && stable == old(stable)
      ensures bytes == Apply(old(bytes), m) && unbarriered == old(unbarriered) + [m]
    {
      assert (unbarriered + [m])[..|unbarriered|] == unbarriered;
      bytes, unbarriered := Apply(bytes, m), unbarriered + [m];
    }

    method TransferPiece(offset: nat, source: Bytes, done: nat, count: nat, ghost was: Bytes,
                         ghost wasMuts: seq<Mutation>, ghost pieces: seq<Mutation>)
      returns (ghost pieces': seq<Mutation>)
      requires Valid() && 0 < count && done + count <= |source|
      requires Copied(was, wasMuts, bytes, unbarriered, offset, source, done, pieces)
      modifies this
      ensures Valid() && stable == old(stable)
      ensures Copied(was, wasMuts, bytes, unbarriered, offset, source, done + count, pieces')
    {
      TransferMore(was, offset, source, done, count);
      var m := Write(offset + done, source[done..done + count]);
      Record(m);
      assert PieceOf(m, offset, source);
      pieces' := pieces + [m];
    }

    /** Write in pieces of at most `limit` bytes; a fault stops it after some bytes. */
    method WriteExactAt(offset: nat, source: Bytes, limit: nat, fault: Option<nat>)
      returns (ok: bool, ghost pieces: seq<Mutation>, ghost done: nat)
      requires Valid() && limit > 0
      modifies this
      ensures Valid() && stable == old(stable)
      ensures ok <==> fault == None || fault.value >= |source|
      ensures done <= |source| && (ok <==> done == |source|)
      ensures Copied(old(bytes), old(unbarriered), bytes, unbarriered, offset, source, done, pieces)
    {
      var transferred := 0;
      pieces := [];
      while transferred != |source|
        invariant transferred <= |source| && (fault.Some? ==> transferred <= fault.value)
        invariant Valid() && stable == old(stable)
        invariant Copied(old(bytes), old(unbarriered), bytes, unbarriered, offset, source, transferred, pieces)
        decreases |source| - transferred
      {
        if fault.Some? && transferred >= fault.value {
          return false, pieces, transferred;
        }
        var count := if limit <= |source| - transferred then limit else |source| - transferred;
        if fault.Some? && fault.value - transferred < count {
          count := fault.value - transferred;
        }
        pieces := TransferPiece(offset, source, transferred, count, old(bytes), old(unbarriered), pieces);
        transferred := transferred + count;
      }
      ok, done := true, transferred;
    }

    method SetLength(length: nat, fails: bool) returns (ok: bool)
      requires Valid()
      modifies this
      ensures Valid() && stable == old(stable) && ok == !fails
      ensures ok ==> bytes == Resized(old(bytes), length) && unbarriered == old(unbarriered) + [Resize(length)]
      ensures !ok ==> bytes == old(bytes) && unbarriered == old(unbarriered)
    {
      if fails {
        return false;
      }
      Record(Resize(length));
      ok := true;
    }

    method Barrier(fails: bool) returns (ok: bool)
      requires Valid()
      modifies this
      ensures Valid() && ok == !fails && bytes == old(bytes)
      ensures if ok then stable == bytes && unbarriered == []
              else stable == old(stable) && unbarriered == old(unbarriered)
    {
      if fails {
        return false;
      }
      stable, unbarriered := bytes, [];
      ok := true;
    }

    method SimulateCrash(order: seq<nat>)
      requires Valid() && Indexes(order, |unbarriered|)
      modifies this
      ensures Valid() && bytes == stable == Replay(old(stable), old(unbarriered), order) && unbarriered == []
    {
      bytes := stable;
      for n := 0 to |order|
        invariant stable == old(stable) && unbarriered == old(unbarriered)
        invariant bytes == Replay(stable, unbarriered, order[..n])
      {
        assert order[..n + 1][..n] == order[..n];
        bytes := Apply(bytes, unbarriered[order[n]]);
      }
      assert order[..|order|] == order;
      stable, unbarriered := bytes, [];
    }
  }
}
