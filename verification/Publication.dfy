/** Publication slots: the two places that name the current generation. */
module Publication {
  import opened Basics
  import opened BlobContent
  import opened LittleEndian

  const BOOTSTRAP_BYTES: nat := 4096
  const SLOT_BYTES: nat := 4096

  /** What an authenticated slot says.  The high-water mark is counted in blocks. */
  datatype Pub = Pub(index: nat, generation: nat, predecessor: nat, roots: seq<nat>, highWater: nat)

  datatype Profile = Profile(quantum: nat, common: nat, maxBlocks: nat)

  /** Opening a slot authenticates it, or compares its checksum; a slot that does
      neither is rejected. */
  type Opener = (nat, Bytes) -> Option<Pub>

  function SlotStart(i: nat): nat { BOOTSTRAP_BYTES + i * SLOT_BYTES }

  function SlotAt(bytes: Bytes, i: nat): Bytes
    requires SlotStart(i) + SLOT_BYTES <= |bytes|
  {
    bytes[SlotStart(i)..SlotStart(i) + SLOT_BYTES]
  }

  function OpenSlot(bytes: Bytes, open: Opener, i: nat): Option<Pub> {
    if SlotStart(i) + SLOT_BYTES <= |bytes| then open(i, SlotAt(bytes, i)) else None
  }

  /** The generation rules of a single publication. */
  predicate ValidPub(p: Pub, i: nat, profile: Profile) {
    && p.index == i && p.generation != 0
    && (p.generation == 1 ==>
          && p.predecessor == 0 && p.highWater == profile.common
          && forall r :: r in p.roots ==> r == 0)
    && (p.generation > 1 ==>
          && p.predecessor == p.generation - 1 && i == p.generation % 2
          && profile.common <= p.highWater <= profile.maxBlocks)
  }

  /** What a slot can hold: 64-bit fields, three roots, and the predecessor that the
      generation determines. */
  predicate Sealable(p: Pub) {
    && p.index < 2 && 0 < p.generation < U64 && p.predecessor == p.generation - 1 && p.highWater < U64
    && |p.roots| == 3 && p.roots[0] < U64 && p.roots[1] < U64 && p.roots[2] < U64
  }

  /** Opening inverts sealing. */
  ghost predicate Sealing(open: Opener, seal: Pub -> Bytes) {
    forall p :: Sealable(p) ==> |seal(p)| == SLOT_BYTES && open(p.index, seal(p)) == Some(p)
  }

  /** The same publication, whichever slot it is in. */
  predicate SamePub(p: Pub, q: Pub) { p.(index := 0) == q.(index := 0) }

  /** Some slot opens, whatever opens is valid, and two publications are the same one
      or consecutive. */
  predicate Consistent(p0: Option<Pub>, p1: Option<Pub>, profile: Profile) {
    && (p0.Some? || p1.Some?)
    && (p0.Some? ==> ValidPub(p0.value, 0, profile))
    && (p1.Some? ==> ValidPub(p1.value, 1, profile))
    && (p0.Some? && p1.Some? ==>
          || SamePub(p0.value, p1.value)
          || p0.value.generation + 1 == p1.value.generation
          || p1.value.generation + 1 == p0.value.generation)
  }

  predicate NewestOf(p: Pub, p0: Option<Pub>, p1: Option<Pub>) {
    && (p0 == Some(p) || p1 == Some(p))
    && (p0.Some? ==> p0.value.generation <= p.generation)
    && (p1.Some? ==> p1.value.generation <= p.generation)
  }

  datatype Selection =
    | Selected(pub: Pub, rejectedInactive: bool, tailBytes: nat)
    | AuthenticationFailed
    | Corrupt

  /** Choose the current publication of a file. */
  method SelectPublication(bytes: Bytes, open: Opener, profile: Profile) returns (r: Selection)
    ensures r == AuthenticationFailed <==> OpenSlot(bytes, open, 0).None? && OpenSlot(bytes, open, 1).None?
    ensures r.Selected? <==>
            && Consistent(OpenSlot(bytes, open, 0), OpenSlot(bytes, open, 1), profile)
            && exists p :: NewestOf(p, OpenSlot(bytes, open, 0), OpenSlot(bytes, open, 1))
                           && Span(p.highWater, profile.quantum) <= |bytes|
    ensures r.Selected? ==>
            && NewestOf(r.pub, OpenSlot(bytes, open, 0), OpenSlot(bytes, open, 1))
            && r.tailBytes + Span(r.pub.highWater, profile.quantum) == |bytes|
            && (r.rejectedInactive <==> OpenSlot(bytes, open, 1 - r.pub.index).None?)
  {
    var pubs: seq<Option<Pub>> := [];
    for index := 0 to 2
      invariant |pubs| == index
      invariant forall i :: 0 <= i < index ==> pubs[i] == OpenSlot(bytes, open, i)
    {
      var pub := None;
      if |bytes| >= BOOTSTRAP_BYTES + (index + 1) * SLOT_BYTES {
        pub := open(index, SlotAt(bytes, index));
      }
      pubs := pubs + [pub];
    }
    if pubs[0].None? && pubs[1].None? {
      return AuthenticationFailed;
    }
    for index := 0 to 2
      invariant forall i :: 0 <= i < index ==> pubs[i].Some? ==> ValidPub(pubs[i].value, i, profile)
    {
      if pubs[index].Some? && !ValidPub(pubs[index].value, index, profile) {
        return Corrupt;
      }
    }
    var selected :=
      if pubs[1].Some? && (pubs[0].None? || pubs[1].value.generation > pubs[0].value.generation) then 1 else 0;
    var newer := pubs[selected].value;
    if pubs[0].Some? && pubs[1].Some? {
      var older := pubs[1 - selected].value;
      if newer.generation == older.generation {
        if !SamePub(newer, older) {
          return Corrupt;
        }
      } else if newer.generation != older.generation + 1 || newer.predecessor != older.generation {
        return Corrupt;
      }
    }
    assert NewestOf(newer, pubs[0], pubs[1]);
    if |bytes| < Span(newer.highWater, profile.quantum) {
      return Corrupt;
    }
    r := Selected(newer, pubs[1 - selected].None?, |bytes| - Span(newer.highWater, profile.quantum));
  }
}
