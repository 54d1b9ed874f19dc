/** A sealing of publications that opening inverts and that no torn overwrite can forge.
    It shows that what the commit protocol asks of encryption and checksums can be had:
    every byte of a slot holds two half-bytes of the publication, and every two
    half-bytes are together in some byte, so a mixture of two slots that opens is one of
    them. */
module SlotCode {
  import opened Basics
  import opened LittleEndian
  import opened DurableFile
  import opened Publication
  import opened CommitProtocol

  // ---------------------------------------------------------------- half-bytes

  const HALVES: nat := 80
  const REACH: nat := 40

  type Data = d: Bytes | |d| == 40 witness seq(40, i => 0)

  function Half(d: Data, i: nat): nat
    requires i < HALVES
  {
    if i % 2 == 0 then d[i / 2] / 16 else d[i / 2] % 16
  }

  lemma {:induction false} DifferentHalf(d: Data, e: Data) returns (i: nat)
    requires d != e
    ensures i < HALVES && Half(d, i) != Half(e, i)
  {
    var k :| 0 <= k < 40 && d[k] != e[k];
    i := if d[k] / 16 != e[k] / 16 then 2 * k else 2 * k + 1;
  }

  // ---------------------------------------------------------------- the code

  /** Half-byte `k / 40` together with the one `k % 40 + 1` places after it, cyclically. */
  function CodeByte(d: Data, k: nat): byte
    requires k < HALVES * REACH
  {
    16 * Half(d, k / REACH) + Half(d, (k / REACH + k % REACH + 1) % HALVES)
  }

  function Code(d: Data): (s: Bytes)
    ensures |s| == SLOT_BYTES
  {
    seq(SLOT_BYTES, k requires 0 <= k < SLOT_BYTES => if k < HALVES * REACH then CodeByte(d, k) else 0)
  }

  function DataOf(s: Bytes): Data
    requires |s| == SLOT_BYTES
  {
    seq(40, j requires 0 <= j < 40 => 16 * (s[REACH * (2 * j)] / 16) + s[REACH * (2 * j + 1)] / 16)
  }

  lemma {:induction false} HighHalf(d: Data, i: nat)
    requires i < HALVES
    ensures Code(d)[REACH * i] / 16 == Half(d, i)
  {
    assert Code(d)[REACH * i] == CodeByte(d, REACH * i);
    assert (REACH * i) / REACH == i;
  }

  lemma {:induction false} DataByte(s: Bytes, d: Data, j: nat)
    requires |s| == SLOT_BYTES && j < 40
    requires s[REACH * (2 * j)] / 16 == Half(d, 2 * j) && s[REACH * (2 * j + 1)] / 16 == Half(d, 2 * j + 1)
    ensures DataOf(s)[j] == d[j]
  {
    assert Half(d, 2 * j) == d[j] / 16 && Half(d, 2 * j + 1) == d[j] % 16;
  }

  lemma {:induction false} DataOfCode(d: Data)
    ensures DataOf(Code(d)) == d
  {
    var s := Code(d);
    forall j: nat | j < 40 ensures DataOf(s)[j] == d[j] {
      HighHalf(d, 2 * j);
      HighHalf(d, 2 * j + 1);
      DataByte(s, d, j);
    }
  }

  /** The byte that holds two given half-bytes. */
  lemma {:induction false} Together(i: nat, j: nat) returns (k: nat, swapped: bool)
    requires i < HALVES && j < HALVES && i != j
    ensures k < HALVES * REACH
    ensures k / REACH == (if swapped then j else i)
    ensures (k / REACH + k % REACH + 1) % HALVES == if swapped then i else j
  {
    var ahead := if j > i then j - i else j + HALVES - i;
    swapped := ahead > REACH;
    k := if swapped then REACH * j + (HALVES - ahead) - 1 else REACH * i + ahead - 1;
  }

  lemma {:induction false} FromWhich(d: Data, e: Data, f: Data, k: nat)
    requires Mixes(Code(f), Code(d), Code(e)) && k < HALVES * REACH
    ensures var i, j := k / REACH, (k / REACH + k % REACH + 1) % HALVES;
            || (Half(f, i) == Half(d, i) && Half(f, j) == Half(d, j))
            || (Half(f, i) == Half(e, i) && Half(f, j) == Half(e, j))
  {
    assert Code(f)[k] == CodeByte(f, k) && Code(d)[k] == CodeByte(d, k) && Code(e)[k] == CodeByte(e, k);
  }

  /** A mixture of two codes that is a code is one of the two. */
  lemma {:induction false} MixtureIsOne(d: Data, e: Data, f: Data)
    requires Mixes(Code(f), Code(d), Code(e))
    ensures f == d || f == e
  {
    if f != d && f != e {
      var i := DifferentHalf(f, d);
      var j := DifferentHalf(f, e);
      if i == j {
        FromWhich(d, e, f, REACH * i);
      } else {
        var k, swapped := Together(i, j);
        FromWhich(d, e, f, k);
      }
    }
  }

  // ---------------------------------------------------------------- publications

  function Fields(p: Pub): Data
    requires Sealable(p)
  {
    Encode(p.generation, 8) + Encode(p.highWater, 8)
    + Encode(p.roots[0], 8) + Encode(p.roots[1], 8) + Encode(p.roots[2], 8)
  }

  function PubOf(i: nat, d: Data): Pub {
    var g := Decode(d[..8]);
    Pub(i, g, if g > 0 then g - 1 else 0, [Decode(d[16..24]), Decode(d[24..32]), Decode(d[32..])], Decode(d[8..16]))
  }

  lemma {:induction false} PubOfFields(p: Pub)
    requires Sealable(p)
    ensures PubOf(p.index, Fields(p)) == p
  {
    var d := Fields(p);
    Bound8();
    assert d[..8] == Encode(p.generation, 8) && d[8..16] == Encode(p.highWater, 8);
    assert d[16..24] == Encode(p.roots[0], 8) && d[24..32] == Encode(p.roots[1], 8) && d[32..] == Encode(p.roots[2], 8);
    DecodeEncode(p.generation, 8);
    DecodeEncode(p.highWater, 8);
    DecodeEncode(p.roots[0], 8);
    DecodeEncode(p.roots[1], 8);
    DecodeEncode(p.roots[2], 8);
    assert p.roots == [p.roots[0], p.roots[1], p.roots[2]];
  }

  function Seal(p: Pub): Bytes {
    if Sealable(p) then Code(Fields(p)) else []
  }

  function OpenCode(i: nat, s: Bytes): Option<Pub> {
    if |s| == SLOT_BYTES && s == Code(DataOf(s)) then Some(PubOf(i, DataOf(s))) else None
  }

  /** Opening inverts sealing. */
  lemma {:induction false} SealsAndOpens()
    ensures Sealing(OpenCode, Seal)
  {
    forall p | Sealable(p) ensures |Seal(p)| == SLOT_BYTES && OpenCode(p.index, Seal(p)) == Some(p) {
      DataOfCode(Fields(p));
      PubOfFields(p);
    }
  }

  /** Whatever part of an overwrite of one publication by another reaches the file, the
      slot opens as one of the two or not at all. */
  lemma {:induction false} NeverTorn(i: nat, p: Pub, q: Pub)
    requires Sealable(p) && Sealable(q)
    ensures TearResistant(OpenCode, i, Seal(p), Seal(q))
  {
    forall image | Mixes(image, Seal(p), Seal(q))
      ensures OpenCode(i, image) in {None, OpenCode(i, Seal(p)), OpenCode(i, Seal(q))}
    {
      if OpenCode(i, image).Some? {
        MixtureIsOne(Fields(p), Fields(q), DataOf(image));
      }
    }
  }

  /** No overwrite of one publication by another can be torn into a third. */
  ghost predicate NoForgery(open: Opener, seal: Pub -> Bytes) {
    forall p, q {:trigger NeverThird(open, seal, p, q)} :: Sealable(p) && Sealable(q) ==> NeverThird(open, seal, p, q)
  }

  ghost predicate NeverThird(open: Opener, seal: Pub -> Bytes, p: Pub, q: Pub) {
    forall i :: TearResistant(open, i, seal(p), seal(q))
  }

  /** Functions that meet both hypotheses of the protocol. */
  method SlotFunctions() returns (open: Opener, seal: Pub -> Bytes)
    ensures Sealing(open, seal) && NoForgery(open, seal)
  {
    SealsAndOpens();
    forall p, q | Sealable(p) && Sealable(q) ensures NeverThird(OpenCode, Seal, p, q) {
      forall i ensures TearResistant(OpenCode, i, Seal(p), Seal(q)) {
        NeverTorn(i, p, q);
      }
    }
    open, seal := OpenCode, Seal;
  }
}
