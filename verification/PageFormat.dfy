/** The byte format all index pages share: a header, a key prefix, a table of slots, the
    entries one after another, and zeros. */
module PageFormat {
  import opened Basics
  import opened LittleEndian

  const HEADER: nat := 96
  const MAGIC: Bytes := [77, 73, 65, 82, 69, 80, 71, 0]

  /** What a page says, entries still undecoded. */
  datatype Page = Page(kind: nat, role: nat, level: nat, prefix: Bytes, leftmost: Bytes, entries: seq<Bytes>)

  function Zeros(n: nat): (z: Bytes)
    ensures |z| == n && forall i :: 0 <= i < n ==> z[i] == 0
  {
    seq(n, _ => 0)
  }

  function Concat(entries: seq<Bytes>): Bytes {
    if entries == [] then [] else entries[0] + Concat(entries[1..])
  }

  /** Offset and length of every entry, the first entry at `base`. */
  function SlotTable(entries: seq<Bytes>, base: nat): (t: Bytes)
    ensures |t| == 8 * |entries|
  {
    if entries == [] then []
    else Encode(base, 4) + Encode(|entries[0]|, 4) + SlotTable(entries[1..], base + |entries[0]|)
  }

  function SlotsOffset(p: Page): nat { HEADER + |p.prefix| }

  function EntriesOffset(p: Page): nat { SlotsOffset(p) + 8 * |p.entries| }

  function UsedLength(p: Page): nat { EntriesOffset(p) + |Concat(p.entries)| }

  /** Identity of the page: 24 bytes. */
  function Identity(p: Page): (s: Bytes)
    ensures |s| == 24
  {
    MAGIC + Encode(1, 2) + Encode(p.kind, 2) + Encode(HEADER, 4) + Encode(p.role, 4) + Encode(p.level, 4)
  }

  /** Measures of the page: 24 bytes. */
  function Measures(p: Page): (s: Bytes)
    ensures |s| == 24
  {
    Encode(|p.entries|, 4) + Encode(|p.prefix|, 4) + Encode(SlotsOffset(p), 4) + Encode(EntriesOffset(p), 4)
    + Encode(UsedLength(p), 4) + Encode(0, 4)
  }

  /** Pages that fit a payload of `size` bytes. */
  predicate PageOk(p: Page, size: nat) {
    && UsedLength(p) <= size < U32 && |p.leftmost| == 32
    && p.kind < 0x1_0000 && p.role < U32 && p.level < U32
  }

  function Image(p: Page, size: nat): (s: Bytes)
    requires UsedLength(p) <= size && |p.leftmost| == 32
    ensures |s| == size
  {
    (Identity(p) + Measures(p) + p.leftmost + Zeros(16))
    + (p.prefix + SlotTable(p.entries, EntriesOffset(p)) + Concat(p.entries) + Zeros(size - UsedLength(p)))
  }

  /** The payload is the image of this page. */
  predicate IsImage(payload: Bytes, p: Page) {
    PageOk(p, |payload|) && payload == Image(p, |payload|)
  }

  // ---------------------------------------------------------------- regions

  lemma {:induction false} SubSlice(x: Bytes, lo: nat, hi: nat, a: nat, z: nat)
    requires a <= z && lo + z <= hi <= |x|
    ensures x[lo..hi][a..z] == x[lo + a..lo + z]
  {
    var s, t := x[lo..hi][a..z], x[lo + a..lo + z];
    assert |s| == |t|;
    forall i | 0 <= i < |s| ensures s[i] == t[i] {
      assert s[i] == x[lo..hi][a + i];
    }
    assert s == t;
  }

  lemma {:induction false} TwoParts(x: Bytes, a: Bytes, c: Bytes)
    requires |x| == |a| + |c|
    ensures x == a + c <==> x[..|a|] == a && x[|a|..] == c
  {
    if x == a + c {
      assert x[..|a|] == a && x[|a|..] == c;
    }
    assert x == x[..|a|] + x[|a|..];
  }

  lemma {:induction false} FourParts(x: Bytes, a: Bytes, c: Bytes, d: Bytes, e: Bytes)
    requires |x| == |a| + |c| + |d| + |e|
    ensures var i, j, k := |a|, |a| + |c|, |a| + |c| + |d|;
            x == a + c + d + e <==> x[..i] == a && x[i..j] == c && x[j..k] == d && x[k..] == e
  {
    var i, j, k := |a|, |a| + |c|, |a| + |c| + |d|;
    TwoParts(x, a + c + d, e);
    TwoParts(x[..k], a + c, d);
    TwoParts(x[..j], a, c);
    assert x[..k][..j] == x[..j] && x[..k][j..] == x[j..k] && x[..j][..i] == x[..i] && x[..j][i..] == x[i..j];
  }

  lemma {:induction false} SixParts(x: Bytes, a: Bytes, c: Bytes, d: Bytes, e: Bytes, f: Bytes, g: Bytes)
    requires |x| == |a| + |c| + |d| + |e| + |f| + |g|
    ensures var i, j, k := |a|, |a| + |c|, |a| + |c| + |d|;
            var l, m := k + |e|, k + |e| + |f|;
            x == a + c + d + e + f + g <==>
            x[..i] == a && x[i..j] == c && x[j..k] == d && x[k..l] == e && x[l..m] == f && x[m..] == g
  {
    var i, j, k := |a|, |a| + |c|, |a| + |c| + |d|;
    var l, m := k + |e|, k + |e| + |f|;
    TwoParts(x, a + c + d + e + f, g);
    TwoParts(x[..m], a + c + d + e, f);
    FourParts(x[..l], a, c, d, e);
    assert x[..m][..l] == x[..l] && x[..m][l..] == x[l..m];
    assert x[..l][..i] == x[..i] && x[..l][i..j] == x[i..j] && x[..l][j..k] == x[j..k] && x[..l][k..] == x[k..l];
  }

  function Head(p: Page): Bytes { Identity(p) + Measures(p) + p.leftmost + Zeros(16) }

  lemma {:induction false} HeadRegion(payload: Bytes, p: Page)
    requires HEADER <= |payload| && |p.leftmost| == 32
    ensures payload[..96] == Head(p) <==> HeadIs(payload, p)
  {
    FourParts(payload[..96], Identity(p), Measures(p), p.leftmost, Zeros(16));
    HeadSlices(payload);
  }

  function Body(p: Page, size: nat): Bytes
    requires UsedLength(p) <= size
  {
    p.prefix + SlotTable(p.entries, EntriesOffset(p)) + Concat(p.entries) + Zeros(size - UsedLength(p))
  }

  lemma {:induction false} BodyRegion(payload: Bytes, p: Page)
    requires UsedLength(p) <= |payload|
    ensures payload[96..] == Body(p, |payload|) <==> BodyIs(payload, p)
  {
    FourParts(payload[96..], p.prefix, SlotTable(p.entries, EntriesOffset(p)), Concat(p.entries), Zeros(|payload| - UsedLength(p)));
    BodySlices(payload, SlotsOffset(p), EntriesOffset(p), UsedLength(p));
  }

  /** The image, region by region. */
  lemma {:induction false} Regions(payload: Bytes, p: Page)
    requires PageOk(p, |payload|)
    ensures payload == Image(p, |payload|) <==> HeadIs(payload, p) && BodyIs(payload, p)
  {
    TwoParts(payload, Head(p), Body(p, |payload|));
    HeadRegion(payload, p);
    BodyRegion(payload, p);
  }

  predicate HeadIs(payload: Bytes, p: Page)
    requires HEADER <= |payload|
  {
    && payload[..24] == Identity(p) && payload[24..48] == Measures(p)
    && payload[48..80] == p.leftmost && payload[80..96] == Zeros(16)
  }

  predicate BodyIs(payload: Bytes, p: Page)
    requires UsedLength(p) <= |payload|
  {
    && payload[96..SlotsOffset(p)] == p.prefix
    && payload[SlotsOffset(p)..EntriesOffset(p)] == SlotTable(p.entries, EntriesOffset(p))
    && payload[EntriesOffset(p)..UsedLength(p)] == Concat(p.entries)
    && payload[UsedLength(p)..] == Zeros(|payload| - UsedLength(p))
  }

  lemma {:induction false} HeadSlices(x: Bytes)
    requires 96 <= |x|
    ensures x[..96][..24] == x[..24] && x[..96][24..48] == x[24..48] && x[..96][48..80] == x[48..80] && x[..96][80..] == x[80..96]
  {
    var y := x[..96];
    assert y == x[0..96] && y[..24] == y[0..24] && x[..24] == x[0..24] && y[80..] == y[80..96];
    SubSlice(x, 0, 96, 0, 24);
    SubSlice(x, 0, 96, 24, 48);
    SubSlice(x, 0, 96, 48, 80);
    SubSlice(x, 0, 96, 80, 96);
  }

  lemma {:induction false} BodySlices(x: Bytes, so: nat, eo: nat, u: nat)
    requires 96 <= so <= eo <= u <= |x|
    ensures x[96..][..so - 96] == x[96..so] && x[96..][so - 96..eo - 96] == x[so..eo]
    ensures x[96..][eo - 96..u - 96] == x[eo..u] && x[96..][u - 96..] == x[u..]
  {
    var n, y := |x|, x[96..];
    assert y == x[96..n] && y[..so - 96] == y[0..so - 96] && y[u - 96..] == y[u - 96..n - 96] && x[u..] == x[u..n];
    SubSlice(x, 96, n, 0, so - 96);
    SubSlice(x, 96, n, so - 96, eo - 96);
    SubSlice(x, 96, n, eo - 96, u - 96);
    SubSlice(x, 96, n, u - 96, n - 96);
  }

  function ReadAt(payload: Bytes, at: nat, width: nat): nat
    requires at + width <= |payload|
  {
    Decode(payload[at..at + width])
  }

  /** A field holds a value exactly if its bytes encode it. */
  lemma {:induction false} FieldIs(s: Bytes, v: nat)
    ensures s == Encode(v, |s|) && v < Bound(|s|) <==> Decode(s) == v
  {
    EncodeDecode(s);
    if v < Bound(|s|) {
      DecodeEncode(v, |s|);
    }
  }

  lemma {:induction false} IdentityFields(payload: Bytes, p: Page)
    requires HEADER <= |payload| && p.kind < 0x1_0000 && p.role < U32 && p.level < U32
    ensures payload[..24] == Identity(p) <==>
            && payload[..8] == MAGIC && ReadAt(payload, 8, 2) == 1 && ReadAt(payload, 10, 2) == p.kind
            && ReadAt(payload, 12, 4) == HEADER && ReadAt(payload, 16, 4) == p.role && ReadAt(payload, 20, 4) == p.level
  {
    Bound4();
    FieldIs(payload[8..10], 1);
    FieldIs(payload[10..12], p.kind);
    FieldIs(payload[12..16], HEADER);
    FieldIs(payload[16..20], p.role);
    FieldIs(payload[20..24], p.level);
    SixParts(payload[..24], MAGIC, Encode(1, 2), Encode(p.kind, 2), Encode(HEADER, 4), Encode(p.role, 4), Encode(p.level, 4));
    IdentitySlices(payload);
  }

  lemma {:induction false} IdentitySlices(payload: Bytes)
    requires 24 <= |payload|
    ensures var x := payload[..24];
            && x[..8] == payload[..8] && x[8..10] == payload[8..10] && x[10..12] == payload[10..12]
            && x[12..16] == payload[12..16] && x[16..20] == payload[16..20] && x[20..] == payload[20..24]
  {
    var x := payload[..24];
    assert x == payload[0..24] && payload[..8] == payload[0..8] && x[..8] == x[0..8] && x[20..] == x[20..24];
    SubSlice(payload, 0, 24, 0, 8);
    SubSlice(payload, 0, 24, 8, 10);
    SubSlice(payload, 0, 24, 10, 12);
    SubSlice(payload, 0, 24, 12, 16);
    SubSlice(payload, 0, 24, 16, 20);
    SubSlice(payload, 0, 24, 20, 24);
  }

  lemma {:induction false} MeasureFields(payload: Bytes, p: Page)
    requires HEADER <= |payload| && UsedLength(p) < U32
    ensures payload[24..48] == Measures(p) <==>
            && ReadAt(payload, 24, 4) == |p.entries| && ReadAt(payload, 28, 4) == |p.prefix|
            && ReadAt(payload, 32, 4) == SlotsOffset(p) && ReadAt(payload, 36, 4) == EntriesOffset(p)
            && ReadAt(payload, 40, 4) == UsedLength(p) && ReadAt(payload, 44, 4) == 0
  {
    Bound4();
    FieldIs(payload[24..28], |p.entries|);
    FieldIs(payload[28..32], |p.prefix|);
    FieldIs(payload[32..36], SlotsOffset(p));
    FieldIs(payload[36..40], EntriesOffset(p));
    FieldIs(payload[40..44], UsedLength(p));
    FieldIs(payload[44..48], 0);
    var x := payload[24..48];
    SixParts(x, Encode(|p.entries|, 4), Encode(|p.prefix|, 4), Encode(SlotsOffset(p), 4), Encode(EntriesOffset(p), 4),
             Encode(UsedLength(p), 4), Encode(0, 4));
    assert x[..4] == x[0..4] && x[20..] == x[20..24];
    SubSlice(payload, 24, 48, 0, 4);
    SubSlice(payload, 24, 48, 4, 8);
    SubSlice(payload, 24, 48, 8, 12);
    SubSlice(payload, 24, 48, 12, 16);
    SubSlice(payload, 24, 48, 16, 20);
    SubSlice(payload, 24, 48, 20, 24);
  }

  // ---------------------------------------------------------------- parsing

  /** The table and the body belong to these entries. */
  predicate Tabled(table: Bytes, body: Bytes, base: nat, entries: seq<Bytes>) {
    table == SlotTable(entries, base) && body == Concat(entries)
  }

  /** The entries of a body, if the slots are consecutive and fill it. */
  function Parsed(table: Bytes, body: Bytes, base: nat): Option<seq<Bytes>>
    requires |table| % 8 == 0
    decreases |table|
  {
    if table == [] then (if body == [] then Some([]) else None)
    else
      var offset, length := ReadAt(table, 0, 4), ReadAt(table, 4, 4);
      if offset != base || length > |body| then None
      else
        var rest := Parsed(table[8..], body[length..], base + length);
        if rest.None? then None else Some([body[..length]] + rest.value)
  }

  /** The first slot of a table. */
  lemma {:induction false} FirstSlot(table: Bytes, base: nat, e: Bytes, rest: Bytes)
    requires |table| == 8 + |rest| && base < U32 && |e| < U32
    ensures table == Encode(base, 4) + Encode(|e|, 4) + rest <==>
            ReadAt(table, 0, 4) == base && ReadAt(table, 4, 4) == |e| && table[8..] == rest
  {
    Bound4();
    FieldIs(table[0..4], base);
    FieldIs(table[4..8], |e|);
    FourParts(table, Encode(base, 4), Encode(|e|, 4), rest, []);
    assert table[..4] == table[0..4] && table[8..8 + |rest|] == table[8..];
    assert Encode(base, 4) + Encode(|e|, 4) + rest + [] == Encode(base, 4) + Encode(|e|, 4) + rest;
  }

  /** Parsing inverts laying out. */
  lemma {:induction false} ParsedExactly(table: Bytes, body: Bytes, base: nat, entries: seq<Bytes>)
    requires |table| % 8 == 0 && base + |body| < U32
    ensures Parsed(table, body, base) == Some(entries) <==> Tabled(table, body, base, entries)
    decreases |table|
  {
    if table == [] {
      assert entries == [] <==> |SlotTable(entries, base)| == 0;
    } else if entries != [] && |entries[0]| <= |body| {
      var e, rest := entries[0], entries[1..];
      TabledStep(table, body, base, entries);
      ParsedExactly(table[8..], body[|e|..], base + |e|, rest);
      assert entries == [e] + rest;
    }
  }

  /** The first slot and entry, and the rest. */
  lemma {:induction false} TabledStep(table: Bytes, body: Bytes, base: nat, entries: seq<Bytes>)
    requires 8 <= |table| && base + |body| < U32 && entries != [] && |entries[0]| <= |body|
    ensures var e := entries[0];
            Tabled(table, body, base, entries) <==>
            && ReadAt(table, 0, 4) == base && ReadAt(table, 4, 4) == |e| && body[..|e|] == e
            && Tabled(table[8..], body[|e|..], base + |e|, entries[1..])
  {
    var e, rest := entries[0], entries[1..];
    var later := SlotTable(rest, base + |e|);
    if |body| == |e| + |Concat(rest)| {
      TwoParts(body, e, Concat(rest));
    }
    if |table| == 8 + |later| {
      FirstSlot(table, base, e, later);
    }
  }

  function Prepend(done: seq<Bytes>, rest: Option<seq<Bytes>>): Option<seq<Bytes>> {
    if rest.None? then None else Some(done + rest.value)
  }

  lemma {:induction false} PrependNothing(r: Option<seq<Bytes>>)
    ensures Prepend([], r) == r
  {
    if r.Some? {
      assert [] + r.value == r.value;
    }
  }

  lemma {:induction false} PrependChain(a: seq<Bytes>, c: seq<Bytes>, r: Option<seq<Bytes>>)
    ensures Prepend(a, Prepend(c, r)) == Prepend(a + c, r)
  {
    if r.Some? {
      assert a + (c + r.value) == (a + c) + r.value;
    }
  }

  /** These entries have been read; the rest of the table and the body decide. */
  ghost predicate Along(table: Bytes, body: Bytes, base: nat, entries: seq<Bytes>, at: nat, pos: nat) {
    && at <= |table| && at % 8 == 0 && |table| % 8 == 0 && pos <= |body|
    && Parsed(table, body, base) == Prepend(entries, Parsed(table[at..], body[pos..], base + pos))
  }

  lemma {:induction false} AlongStart(table: Bytes, body: Bytes, base: nat)
    requires |table| % 8 == 0
    ensures Along(table, body, base, [], 0, 0)
  {
    assert table[0..] == table && body[0..] == body;
    PrependNothing(Parsed(table, body, base));
  }

  lemma {:induction false} AlongStep(table: Bytes, body: Bytes, base: nat, entries: seq<Bytes>, at: nat, pos: nat)
    requires Along(table, body, base, entries, at, pos) && at + 8 <= |table|
    ensures var offset, length := ReadAt(table, at, 4), ReadAt(table, at + 4, 4);
            if offset != base + pos || length > |body| - pos then Parsed(table, body, base) == None
            else Along(table, body, base, entries + [body[pos..pos + length]], at + 8, pos + length)
  {
    ParsedStep(table, body, base, at, pos);
    var length := ReadAt(table, at + 4, 4);
    if length <= |body| - pos {
      PrependChain(entries, [body[pos..pos + length]], Parsed(table[at + 8..], body[pos + length..], base + pos + length));
    }
  }

  lemma {:induction false} AlongEnd(table: Bytes, body: Bytes, base: nat, entries: seq<Bytes>, pos: nat)
    requires Along(table, body, base, entries, |table|, pos)
    ensures Parsed(table, body, base) == if pos == |body| then Some(entries) else None
  {
    assert table[|table|..] == [] && entries + [] == entries;
    assert pos == |body| ==> body[pos..] == [];
  }

  /** Slot after slot, each entry where the last one ended. */
  method ParseEntries(table: Bytes, body: Bytes, base: nat) returns (r: Option<seq<Bytes>>)
    requires |table| % 8 == 0
    ensures r == Parsed(table, body, base)
  {
    var entries: seq<Bytes> := [];
    var at: nat, pos: nat := 0, 0;
    AlongStart(table, body, base);
    while at != |table|
      invariant Along(table, body, base, entries, at, pos)
      decreases |table| - at
    {
      var offset, length := ReadAt(table, at, 4), ReadAt(table, at + 4, 4);
      AlongStep(table, body, base, entries, at, pos);
      if offset != base + pos || length > |body| - pos {
        return None;
      }
      entries := entries + [body[pos..pos + length]];
      at, pos := at + 8, pos + length;
    }
    AlongEnd(table, body, base, entries, pos);
    r := if pos == |body| then Some(entries) else None;
  }

  lemma {:induction false} ParsedStep(table: Bytes, body: Bytes, base: nat, at: nat, pos: nat)
    requires at + 8 <= |table| && at % 8 == 0 && |table| % 8 == 0 && pos <= |body|
    ensures var offset, length := ReadAt(table, at, 4), ReadAt(table, at + 4, 4);
            Parsed(table[at..], body[pos..], base + pos)
            == if offset != base + pos || length > |body| - pos then None
               else Prepend([body[pos..pos + length]], Parsed(table[at + 8..], body[pos + length..], base + pos + length))
  {
    var t, c := table[at..], body[pos..];
    assert t[0..4] == table[at..at + 4] && t[4..8] == table[at + 4..at + 8] && t[8..] == table[at + 8..];
    var length := ReadAt(table, at + 4, 4);
    if length <= |body| - pos {
      assert c[..length] == body[pos..pos + length] && c[length..] == body[pos + length..];
    }
  }

  predicate AllZero(s: Bytes) { forall i :: 0 <= i < |s| ==> s[i] == 0 }

  lemma {:induction false} AllZeroIs(s: Bytes)
    ensures AllZero(s) <==> s == Zeros(|s|)
  {
  }

  /** The measures in a header agree with each other and with the payload. */
  predicate Measured(payload: Bytes)
    requires HEADER <= |payload|
  {
    var prefix, slots, entries, used := ReadAt(payload, 28, 4), ReadAt(payload, 32, 4), ReadAt(payload, 36, 4), ReadAt(payload, 40, 4);
    && slots == HEADER + prefix && entries == slots + 8 * ReadAt(payload, 24, 4)
    && entries <= used <= |payload| && ReadAt(payload, 44, 4) == 0 && AllZero(payload[used..])
  }

  /** The header is that of some page. */
  predicate Headed(payload: Bytes)
    requires HEADER <= |payload|
  {
    && payload[..8] == MAGIC && ReadAt(payload, 8, 2) == 1 && ReadAt(payload, 12, 4) == HEADER && AllZero(payload[80..96])
    && Measured(payload)
  }

  function PageAt(payload: Bytes, entries: seq<Bytes>): Page
    requires HEADER <= |payload| && Headed(payload)
  {
    Page(ReadAt(payload, 10, 2), ReadAt(payload, 16, 4), ReadAt(payload, 20, 4), payload[96..ReadAt(payload, 32, 4)],
         payload[48..80], entries)
  }

  lemma {:induction false} FieldBound(payload: Bytes, at: nat, width: nat)
    requires at + width <= |payload|
    ensures ReadAt(payload, at, width) < Bound(width)
  {
    EncodeDecode(payload[at..at + width]);
  }

  /** The image of a page has its header. */
  lemma {:induction false} ImageHeaded(payload: Bytes, p: Page)
    requires IsImage(payload, p)
    ensures HEADER <= |payload| && Headed(payload) && p == PageAt(payload, p.entries)
    ensures ReadAt(payload, 36, 4) == EntriesOffset(p) && ReadAt(payload, 40, 4) == UsedLength(p)
    ensures Tabled(payload[SlotsOffset(p)..EntriesOffset(p)], payload[EntriesOffset(p)..UsedLength(p)], EntriesOffset(p), p.entries)
  {
    Regions(payload, p);
    IdentityFields(payload, p);
    MeasureFields(payload, p);
    AllZeroIs(payload[80..96]);
    AllZeroIs(payload[UsedLength(p)..]);
  }

  /** A payload is the image of one page at most. */
  lemma {:induction false} SameImage(payload: Bytes, p: Page, q: Page)
    requires IsImage(payload, p) && IsImage(payload, q)
    ensures p == q
  {
    ImageHeaded(payload, p);
    ImageHeaded(payload, q);
    assert SlotsOffset(p) == SlotsOffset(q) && EntriesOffset(p) == EntriesOffset(q) && UsedLength(p) == UsedLength(q);
    var table, body := payload[SlotsOffset(p)..EntriesOffset(p)], payload[EntriesOffset(p)..UsedLength(p)];
    ParsedExactly(table, body, EntriesOffset(p), p.entries);
    ParsedExactly(table, body, EntriesOffset(p), q.entries);
  }

  /** A page with this header and these entries has this image. */
  lemma {:induction false} HeadedImage(payload: Bytes, entries: seq<Bytes>)
    requires HEADER <= |payload| < U32 && Headed(payload)
    requires Tabled(payload[ReadAt(payload, 32, 4)..ReadAt(payload, 36, 4)], payload[ReadAt(payload, 36, 4)..ReadAt(payload, 40, 4)],
                    ReadAt(payload, 36, 4), entries)
    ensures IsImage(payload, PageAt(payload, entries))
  {
    var p := PageAt(payload, entries);
    FieldBound(payload, 10, 2);
    FieldBound(payload, 16, 4);
    FieldBound(payload, 20, 4);
    Bound4();
    assert |p.prefix| == ReadAt(payload, 28, 4) && |entries| == ReadAt(payload, 24, 4);
    IdentityFields(payload, p);
    MeasureFields(payload, p);
    AllZeroIs(payload[80..96]);
    AllZeroIs(payload[UsedLength(p)..]);
    Regions(payload, p);
  }

  /** Parse a payload: it is accepted exactly if it is the image of a page, and then
      that page is returned. */
  method ParsePage(payload: Bytes) returns (r: Option<Page>)
    requires HEADER <= |payload| < U32
    ensures forall p :: r == Some(p) <==> IsImage(payload, p)
  {
    if !Headed(payload) {
      forall p ensures !IsImage(payload, p) {
        if IsImage(payload, p) {
          ImageHeaded(payload, p);
        }
      }
      return None;
    }
    var so, eo, used := ReadAt(payload, 32, 4), ReadAt(payload, 36, 4), ReadAt(payload, 40, 4);
    assert |payload[so..eo]| == 8 * ReadAt(payload, 24, 4);
    var entries := ParseEntries(payload[so..eo], payload[eo..used], eo);
    forall p | IsImage(payload, p) ensures entries == Some(p.entries) && p == PageAt(payload, p.entries) {
      ImageHeaded(payload, p);
      ParsedExactly(payload[so..eo], payload[eo..used], eo, p.entries);
    }
    if entries.None? {
      return None;
    }
    ParsedExactly(payload[so..eo], payload[eo..used], eo, entries.value);
    HeadedImage(payload, entries.value);
    r := Some(PageAt(payload, entries.value));
  }

  // ---------------------------------------------------------------- laying out

  lemma {:induction false} ConcatPush(entries: seq<Bytes>, e: Bytes)
    ensures Concat(entries + [e]) == Concat(entries) + e
  {
    if entries == [] {
      assert [] + [e] == [e] && [e][1..] == [] && e + [] == e;
    } else {
      ConcatPush(entries[1..], e);
      assert (entries + [e])[1..] == entries[1..] + [e];
      assert entries[0] + (Concat(entries[1..]) + e) == (entries[0] + Concat(entries[1..])) + e;
    }
  }

  lemma {:induction false} TablePush(entries: seq<Bytes>, e: Bytes, base: nat)
    ensures SlotTable(entries + [e], base) == SlotTable(entries, base) + (Encode(base + |Concat(entries)|, 4) + Encode(|e|, 4))
  {
    if entries == [] {
      assert [] + [e] == [e] && [e][1..] == [];
      assert Encode(base, 4) + Encode(|e|, 4) + [] == [] + (Encode(base, 4) + Encode(|e|, 4));
    } else {
      var rest, next := entries[1..], base + |entries[0]|;
      TablePush(rest, e, next);
      assert (entries + [e])[1..] == rest + [e];
      var slot, last := Encode(base, 4) + Encode(|entries[0]|, 4), Encode(next + |Concat(rest)|, 4) + Encode(|e|, 4);
      assert slot + (SlotTable(rest, next) + last) == (slot + SlotTable(rest, next)) + last;
    }
  }

  /** Lay a page out: each entry behind the last, its slot beside it. */
  method LayOut(p: Page, size: nat) returns (r: Option<Bytes>)
    requires |p.leftmost| == 32
    ensures r.Some? <==> UsedLength(p) <= size
    ensures r.Some? ==> r.value == Image(p, size)
  {
    var table: Bytes, body: Bytes := [], [];
    for n := 0 to |p.entries|
      invariant table == SlotTable(p.entries[..n], EntriesOffset(p)) && body == Concat(p.entries[..n])
    {
      ConcatPush(p.entries[..n], p.entries[n]);
      TablePush(p.entries[..n], p.entries[n], EntriesOffset(p));
      assert p.entries[..n] + [p.entries[n]] == p.entries[..n + 1];
      table := table + (Encode(EntriesOffset(p) + |body|, 4) + Encode(|p.entries[n]|, 4));
      body := body + p.entries[n];
    }
    assert p.entries[..|p.entries|] == p.entries;
    var used := EntriesOffset(p) + |body|;
    if used > size {
      return None;
    }
    r := Some(Head(p) + (p.prefix + table + body + Zeros(size - used)));
  }

  /** Entries of one length. */
  lemma {:induction false} EvenConcat(entries: seq<Bytes>, length: nat)
    requires forall i :: 0 <= i < |entries| ==> |entries[i]| == length
    ensures |Concat(entries)| == |entries| * length
  {
    if entries != [] {
      EvenConcat(entries[1..], length);
      assert |entries| * length == length + (|entries| - 1) * length;
    }
  }
}
