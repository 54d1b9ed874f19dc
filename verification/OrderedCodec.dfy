/** Pages of the ordered tree: prefix-compressed keys with inline values, overflow
    references or children. */
module OrderedCodec {
  import opened Basics
  import opened ByteOrder
  import opened LittleEndian
  import opened KeyPrefix
  import opened PageFormat

  datatype Limits = Limits(maxKey: nat, maxValue: nat, maxInline: nat)

  // ---------------------------------------------------------------- prefixes of sorted keys

  ghost predicate Ascending(keys: seq<Key>) {
    forall i, j :: 0 <= i < j < |keys| ==> Less(keys[i], keys[j])
  }

  /** Whatever lies between two keys begins with all that they have in common. */
  lemma {:induction false} BetweenPrefix(a: Key, k: Key, c: Key, n: nat)
    requires Le(a, k) && Le(k, c) && n <= |a| && n <= |c| && a[..n] == c[..n]
    ensures n <= |k| && k[..n] == a[..n]
  {
    if n > 0 {
      PrefixStep(a, c, n);
      assert k != [] && a[0] == k[0];
      BetweenPrefix(a[1..], k[1..], c[1..], n - 1);
      PrefixStep(k, a, n);
    }
  }

  /** For strictly sorted keys the first and the last decide the common prefix of all. */
  lemma {:induction false} FirstAndLast(keys: seq<Key>)
    requires keys != [] && Ascending(keys)
    ensures Shared(keys) == Common(keys[0], keys[|keys| - 1])
    ensures IsShared(keys, Common(keys[0], keys[|keys| - 1]))
  {
    var first, last := keys[0], keys[|keys| - 1];
    var n := Common(first, last);
    CommonIs(first, last, n);
    forall i | 0 <= i < |keys| ensures n <= |first| && n <= |keys[i]| && keys[i][..n] == first[..n] {
      Within(keys, i);
      BetweenPrefix(first, keys[i], last, n);
    }
    SharedGreatest(keys, n);
    CommonGreatest(first, last, Shared(keys));
  }

  lemma {:induction false} Within(keys: seq<Key>, i: nat)
    requires Ascending(keys) && i < |keys|
    ensures Le(keys[0], keys[i]) && Le(keys[i], keys[|keys| - 1])
  {
    LessIrreflexive(keys[i]);
    if 0 < i {
      LessAsymmetric(keys[0], keys[i]);
    }
    if i < |keys| - 1 {
      LessAsymmetric(keys[i], keys[|keys| - 1]);
    }
  }

  // ---------------------------------------------------------------- references

  datatype Ref = Ref(block: nat, blocks: nat, length: nat, generation: nat)

  predicate RefFits(r: Ref) { r.block < U64 && r.blocks < U64 && r.length < U64 && r.generation < U64 }

  function RefBytes(r: Ref): (s: Bytes)
    ensures |s| == 32
  {
    Encode(r.block, 8) + Encode(r.blocks, 8) + Encode(r.length, 8) + Encode(r.generation, 8)
  }

  function ReadRef(s: Bytes): Ref
    requires |s| == 32
  {
    Ref(ReadAt(s, 0, 8), ReadAt(s, 8, 8), ReadAt(s, 16, 8), ReadAt(s, 24, 8))
  }

  lemma {:induction false} RefExact(s: Bytes, r: Ref)
    requires |s| == 32
    ensures ReadRef(s) == r <==> RefFits(r) && s == RefBytes(r)
  {
    Bound8();
    FieldIs(s[0..8], r.block);
    FieldIs(s[8..16], r.blocks);
    FieldIs(s[16..24], r.length);
    FieldIs(s[24..32], r.generation);
    FourParts(s, Encode(r.block, 8), Encode(r.blocks, 8), Encode(r.length, 8), Encode(r.generation, 8));
    assert s[..8] == s[0..8] && s[24..] == s[24..32];
  }

  // ---------------------------------------------------------------- leaf entries

  datatype Item =
    | Inline(key: Key, value: Bytes)
    | Overflow(key: Key, length: nat, ref: Ref)

  predicate ItemOk(x: Item, limits: Limits) {
    && |x.key| <= limits.maxKey
    && match x
       case Inline(_, value) => |value| <= limits.maxInline && |value| <= limits.maxValue
       case Overflow(_, length, ref) => limits.maxInline < length <= limits.maxValue && RefFits(ref)
  }

  function ValueLength(x: Item): nat { if x.Inline? then |x.value| else x.length }

  function ValueBytes(x: Item): Bytes { if x.Inline? then x.value else RefBytes(x.ref) }

  function Flag(x: Item): Bytes { [if x.Inline? then 0 else 1] + Zeros(7) }

  /** Representation, length and value. */
  function Tail(x: Item): Bytes { Flag(x) + Encode(ValueLength(x), 8) + ValueBytes(x) }

  function ItemEntry(x: Item, p: nat): Bytes
    requires p <= |x.key|
  {
    Encode(|x.key| - p, 4) + x.key[p..] + Tail(x)
  }

  function ReadTail(t: Bytes, key: Key, limits: Limits): Option<Item> {
    if |t| < 16 || t[0] > 1 || !AllZero(t[1..8]) then None
    else
      var length := ReadAt(t, 8, 8);
      if length > limits.maxValue || (t[0] == 1) != (length > limits.maxInline) then None
      else if t[0] == 1 then
        if |t| == 48 then Some(Overflow(key, length, ReadRef(t[16..48]))) else None
      else
        if |t| == 16 + length then Some(Inline(key, t[16..])) else None
  }

  /** Read an entry behind a prefix: a suffix of the key, then the rest. */
  function ReadItem(e: Bytes, prefix: Bytes, limits: Limits): Option<Item> {
    if |e| < 20 || ReadAt(e, 0, 4) > |e| - 20 then None
    else
      var suffix := ReadAt(e, 0, 4);
      if |prefix| + suffix > limits.maxKey then None
      else ReadTail(e[4 + suffix..], prefix + e[4..4 + suffix], limits)
  }

  lemma {:induction false} FlagIs(t: Bytes, x: Item)
    requires |t| >= 8
    ensures t[..8] == Flag(x) <==> t[0] == (if x.Inline? then 0 else 1) && AllZero(t[1..8])
  {
    AllZeroIs(t[1..8]);
    assert t[..8] == [t[0]] + t[1..8];
    if t[..8] == Flag(x) {
      assert t[0] == t[..8][0] && t[1..8] == t[..8][1..] && Flag(x)[1..] == Zeros(7);
    }
  }

  lemma {:induction false} TailParts(t: Bytes, x: Item)
    requires |t| == 16 + |ValueBytes(x)| && ValueLength(x) < U64
    ensures t == Tail(x) <==>
            t[0] == (if x.Inline? then 0 else 1) && AllZero(t[1..8]) && ReadAt(t, 8, 8) == ValueLength(x) && t[16..] == ValueBytes(x)
  {
    Bound8();
    FlagIs(t, x);
    FieldIs(t[8..16], ValueLength(x));
    FourParts(t, Flag(x), Encode(ValueLength(x), 8), ValueBytes(x), []);
    assert t[16..16 + |ValueBytes(x)|] == t[16..];
    assert Tail(x) == Tail(x) + [];
  }

  lemma {:induction false} ReadTailExact(t: Bytes, key: Key, limits: Limits, x: Item)
    requires limits.maxValue < U64 && |key| <= limits.maxKey
    ensures ReadTail(t, key, limits) == Some(x) <==> x.key == key && ItemOk(x, limits) && t == Tail(x)
  {
    assert |Tail(x)| == 16 + |ValueBytes(x)|;
    if |t| == 16 + |ValueBytes(x)| && ValueLength(x) <= limits.maxValue {
      TailParts(t, x);
      if x.Overflow? {
        assert t[16..48] == t[16..];
        RefExact(t[16..48], x.ref);
      }
    }
  }

  lemma {:induction false} ItemParts(e: Bytes, x: Item, p: nat, suffix: nat)
    requires p <= |x.key| && suffix == |x.key| - p < U32 && |e| == 4 + suffix + |Tail(x)|
    ensures e == ItemEntry(x, p) <==>
            ReadAt(e, 0, 4) == suffix && e[4..4 + suffix] == x.key[p..] && e[4 + suffix..] == Tail(x)
  {
    Bound4();
    FieldIs(e[0..4], suffix);
    FourParts(e, Encode(suffix, 4), x.key[p..], Tail(x), []);
    assert e[..4] == e[0..4] && e[4 + suffix..|e|] == e[4 + suffix..];
    assert ItemEntry(x, p) == ItemEntry(x, p) + [];
  }

  predicate LimitsOk(limits: Limits) { limits.maxKey < U32 && limits.maxValue < U64 }

  /** An entry is read as an item exactly if it is that item's entry behind the prefix. */
  lemma {:induction false} ReadItemExact(e: Bytes, prefix: Bytes, limits: Limits, x: Item)
    requires LimitsOk(limits)
    ensures ReadItem(e, prefix, limits) == Some(x) <==>
            && |prefix| <= |x.key| && x.key[..|prefix|] == prefix && ItemOk(x, limits) && e == ItemEntry(x, |prefix|)
  {
    var p := |prefix|;
    if |e| >= 20 && ReadAt(e, 0, 4) <= |e| - 20 {
      var suffix := ReadAt(e, 0, 4);
      FieldBound(e, 0, 4);
      Bound4();
      var key := prefix + e[4..4 + suffix];
      if |key| <= limits.maxKey {
        ReadTailExact(e[4 + suffix..], key, limits, x);
      }
      if |x.key| == p + suffix {
        TwoParts(x.key, prefix, e[4..4 + suffix]);
        if |e| == 4 + suffix + |Tail(x)| {
          ItemParts(e, x, p, suffix);
        }
      }
    }
    if p <= |x.key| && ItemOk(x, limits) && e == ItemEntry(x, p) {
      ItemParts(e, x, p, |x.key| - p);
    }
  }

  // ---------------------------------------------------------------- leaf pages

  function ItemKeys(items: seq<Item>): (keys: seq<Key>)
    ensures |keys| == |items| && forall i :: 0 <= i < |items| ==> keys[i] == items[i].key
  {
    seq(|items|, i requires 0 <= i < |items| => items[i].key)
  }

  /** What the first and the last key have in common. */
  function LeafPrefix(items: seq<Item>): nat
    requires items != []
  {
    Common(items[0].key, items[|items| - 1].key)
  }

  ghost predicate LeafOk(items: seq<Item>, limits: Limits) {
    && items != [] && Ascending(ItemKeys(items))
    && forall i :: 0 <= i < |items| ==> ItemOk(items[i], limits)
  }

  lemma {:induction false} PrefixFits(items: seq<Item>, i: nat)
    requires items != [] && Ascending(ItemKeys(items)) && i < |items|
    ensures LeafPrefix(items) <= |items[i].key| && items[i].key[..LeafPrefix(items)] == items[0].key[..LeafPrefix(items)]
  {
    var keys := ItemKeys(items);
    FirstAndLast(keys);
    assert keys[i] == items[i].key && keys[0] == items[0].key;
  }

  ghost function ItemEntries(items: seq<Item>, p: nat): (entries: seq<Bytes>)
    requires forall i :: 0 <= i < |items| ==> p <= |items[i].key|
    ensures |entries| == |items| && forall i :: 0 <= i < |items| ==> entries[i] == ItemEntry(items[i], p)
  {
    seq(|items|, i requires 0 <= i < |items| => ItemEntry(items[i], p))
  }

  ghost function LeafFor(items: seq<Item>, limits: Limits): Page
    requires LeafOk(items, limits)
  {
    var p := LeafPrefix(items);
    assert forall i :: 0 <= i < |items| ==> p <= |items[i].key| by {
      forall i | 0 <= i < |items| ensures p <= |items[i].key| {
        PrefixFits(items, i);
      }
    }
    Page(1, 1, 0, items[0].key[..p], Zeros(32), ItemEntries(items, p))
  }

  ghost predicate ItemsEntered(page: Page, items: seq<Item>, limits: Limits) {
    && |page.entries| == |items|
    && forall i :: 0 <= i < |items| ==> ReadItem(page.entries[i], page.prefix, limits) == Some(items[i])
  }

  /** A page is the page of these items exactly if its entries are, and its prefix is as
      long as the first and the last key allow. */
  lemma {:induction false} LeafForExact(page: Page, items: seq<Item>, limits: Limits)
    requires LimitsOk(limits) && LeafOk(items, limits)
    ensures page == LeafFor(items, limits) <==>
            && page.kind == 1 && page.role == 1 && page.level == 0 && page.leftmost == Zeros(32)
            && ItemsEntered(page, items, limits) && |page.prefix| == LeafPrefix(items)
  {
    var p := LeafPrefix(items);
    if |page.prefix| == p && |page.entries| == |items| {
      forall i | 0 <= i < |items|
        ensures p <= |items[i].key|
        ensures ReadItem(page.entries[i], page.prefix, limits) == Some(items[i]) <==>
                items[0].key[..p] == page.prefix && page.entries[i] == ItemEntry(items[i], p)
      {
        PrefixFits(items, i);
        ReadItemExact(page.entries[i], page.prefix, limits, items[i]);
      }
    }
  }

  /** Bytes of an entry behind a prefix of `p` bytes. */
  function ItemLength(x: Item, p: nat): nat {
    4 + (if p <= |x.key| then |x.key| - p else 0) + 16 + (if x.Inline? then |x.value| else 32)
  }

  function ItemsLength(items: seq<Item>, p: nat): nat {
    if items == [] then 0 else ItemsLength(items[..|items| - 1], p) + ItemLength(items[|items| - 1], p)
  }

  /** The length that splitting is told for these items. */
  function LeafLength(items: seq<Item>): nat {
    if items == [] then 0
    else
      var p := LeafPrefix(items);
      HEADER + p + 8 * |items| + ItemsLength(items, p)
  }

  lemma {:induction false} EntryLength(x: Item, p: nat)
    requires p <= |x.key|
    ensures |ItemEntry(x, p)| == ItemLength(x, p)
  {
  }

  lemma {:induction false} ItemEntriesLast(items: seq<Item>, p: nat)
    requires items != [] && forall i :: 0 <= i < |items| ==> p <= |items[i].key|
    ensures var n := |items| - 1;
            |Concat(ItemEntries(items, p))| == |Concat(ItemEntries(items[..n], p))| + |ItemEntry(items[n], p)|
  {
    var n := |items| - 1;
    ConcatPush(ItemEntries(items[..n], p), ItemEntry(items[n], p));
    assert ItemEntries(items, p) == ItemEntries(items[..n], p) + [ItemEntry(items[n], p)];
  }

  lemma {:induction false} ItemsLengthIs(items: seq<Item>, p: nat)
    requires forall i :: 0 <= i < |items| ==> p <= |items[i].key|
    ensures ItemsLength(items, p) == |Concat(ItemEntries(items, p))|
  {
    if items != [] {
      var n := |items| - 1;
      ItemsLengthIs(items[..n], p);
      EntryLength(items[n], p);
      ItemEntriesLast(items, p);
    }
  }

  /** It is the length that is laid out. */
  lemma {:induction false} LeafLengthIs(items: seq<Item>, limits: Limits)
    requires LeafOk(items, limits)
    ensures LeafLength(items) == UsedLength(LeafFor(items, limits))
  {
    forall i | 0 <= i < |items| ensures LeafPrefix(items) <= |items[i].key| {
      PrefixFits(items, i);
    }
    ItemsLengthIs(items, LeafPrefix(items));
  }

  /** The page length that splitting is told, summed entry by entry. */
  method LeafUsedLength(items: seq<Item>, ghost limits: Limits) returns (used: nat)
    requires LeafOk(items, limits)
    ensures used == LeafLength(items) == UsedLength(LeafFor(items, limits))
  {
    var p := CommonPrefixLength(items[0].key, items[|items| - 1].key);
    used := HEADER + p + 8 * |items|;
    for i := 0 to |items|
      invariant used == HEADER + p + 8 * |items| + ItemsLength(items[..i], p)
    {
      assert items[..i + 1][..i] == items[..i];
      PrefixFits(items, i);
      used := used + 4 + |items[i].key| - p + 16 + (if items[i].Inline? then |items[i].value| else 32);
    }
    assert items[..|items|] == items;
    LeafLengthIs(items, limits);
  }

  /** Write items to a leaf page. */
  method EncodeLeaf(items: seq<Item>, size: nat, ghost limits: Limits) returns (r: Option<Bytes>)
    requires LeafOk(items, limits)
    ensures r.Some? <==> UsedLength(LeafFor(items, limits)) <= size
    ensures r.Some? ==> r.value == Image(LeafFor(items, limits), size)
  {
    var p := CommonPrefixLength(items[0].key, items[|items| - 1].key);
    var entries: seq<Bytes> := [];
    for i := 0 to |items|
      invariant |entries| == i && forall j :: 0 <= j < i ==> entries[j] == LeafFor(items, limits).entries[j]
    {
      PrefixFits(items, i);
      entries := entries + [ItemEntry(items[i], p)];
    }
    assert entries == LeafFor(items, limits).entries;
    PrefixFits(items, 0);
    r := LayOut(Page(1, 1, 0, items[0].key[..p], Zeros(32), entries), size);
  }

  ghost predicate LeafImage(payload: Bytes, items: seq<Item>, limits: Limits) {
    LeafOk(items, limits) && IsImage(payload, LeafFor(items, limits))
  }

  /** Read so far. */
  ghost predicate ItemsRead(page: Page, items: seq<Item>, limits: Limits) {
    && |items| <= |page.entries| && Ascending(ItemKeys(items))
    && forall i :: 0 <= i < |items| ==> ReadItem(page.entries[i], page.prefix, limits) == Some(items[i])
  }

  lemma {:induction false} AscendingPush(keys: seq<Key>, k: Key)
    requires Ascending(keys) && (keys != [] ==> Less(keys[|keys| - 1], k))
    ensures Ascending(keys + [k])
  {
    forall i | 0 <= i < |keys| ensures Less(keys[i], k) {
      if i < |keys| - 1 {
        LessTransitive(keys[i], keys[|keys| - 1], k);
      }
    }
  }

  lemma {:induction false} ItemsAscend(items: seq<Item>, x: Item)
    requires Ascending(ItemKeys(items)) && (items != [] ==> Less(items[|items| - 1].key, x.key))
    ensures Ascending(ItemKeys(items + [x]))
  {
    AscendingPush(ItemKeys(items), x.key);
    assert ItemKeys(items + [x]) == ItemKeys(items) + [x.key];
  }

  lemma {:induction false} ItemsReadMore(page: Page, items: seq<Item>, limits: Limits, x: Item)
    requires ItemsRead(page, items, limits) && |items| < |page.entries|
    requires ReadItem(page.entries[|items|], page.prefix, limits) == Some(x)
    requires items != [] ==> Less(items[|items| - 1].key, x.key)
    ensures ItemsRead(page, items + [x], limits)
  {
    ItemsAscend(items, x);
    var more := items + [x];
    forall i | 0 <= i < |more| ensures ReadItem(page.entries[i], page.prefix, limits) == Some(more[i]) {
      assert i < |items| ==> more[i] == items[i];
    }
  }

  lemma {:induction false} LeafImageEntered(payload: Bytes, page: Page, items: seq<Item>, limits: Limits)
    requires LimitsOk(limits) && LeafImage(payload, items, limits) && IsImage(payload, page)
    ensures page == LeafFor(items, limits) && ItemsEntered(page, items, limits) && |page.prefix| == LeafPrefix(items)
  {
    SameImage(payload, page, LeafFor(items, limits));
    LeafForExact(page, items, limits);
  }

  lemma {:induction false} AllItemsRead(payload: Bytes, page: Page, items: seq<Item>, limits: Limits)
    requires LimitsOk(limits) && IsImage(payload, page) && ItemsRead(page, items, limits) && items != [] && |items| == |page.entries|
    requires page.kind == 1 && page.role == 1 && page.level == 0 && page.leftmost == Zeros(32)
    ensures LeafImage(payload, items, limits) <==> |page.prefix| == LeafPrefix(items)
  {
    forall i | 0 <= i < |items| ensures ItemOk(items[i], limits) {
      ReadItemExact(page.entries[i], page.prefix, limits, items[i]);
    }
    LeafForExact(page, items, limits);
    if LeafImage(payload, items, limits) {
      LeafImageEntered(payload, page, items, limits);
    }
  }

  /** Read a leaf page.  It is accepted exactly if it is the image of strictly sorted
      items within the limits, and then they are returned. */
  method DecodeLeaf(payload: Bytes, limits: Limits) returns (r: Option<seq<Item>>)
    requires HEADER <= |payload| < U32 && LimitsOk(limits)
    ensures forall items :: r == Some(items) <==> LeafImage(payload, items, limits)
  {
    var parsed := ParsePage(payload);
    if parsed.None? {
      return None;
    }
    var page := parsed.value;
    forall all | LeafImage(payload, all, limits)
      ensures ItemsEntered(page, all, limits) && page == LeafFor(all, limits)
    {
      LeafImageEntered(payload, page, all, limits);
    }
    AllZeroIs(page.leftmost);
    if page.kind != 1 || page.role != 1 || page.level != 0 || !AllZero(page.leftmost) || page.entries == [] {
      return None;
    }
    var items: seq<Item> := [];
    for n := 0 to |page.entries|
      invariant |items| == n && ItemsRead(page, items, limits)
    {
      var x := ReadItem(page.entries[n], page.prefix, limits);
      forall all | LeafImage(payload, all, limits) ensures x.Some? && (n > 0 ==> Less(items[n - 1].key, x.value.key)) {
        assert ReadItem(page.entries[n], page.prefix, limits) == Some(all[n]);
        assert n > 0 ==> ReadItem(page.entries[n - 1], page.prefix, limits) == Some(all[n - 1]);
        assert n > 0 ==> Less(ItemKeys(all)[n - 1], ItemKeys(all)[n]);
      }
      if x.None? || (n > 0 && !Less(items[n - 1].key, x.value.key)) {
        return None;
      }
      ItemsReadMore(page, items, limits, x.value);
      items := items + [x.value];
    }
    forall all | LeafImage(payload, all, limits) ensures all == items {
      forall i | 0 <= i < |items| ensures all[i] == items[i] {
        assert ReadItem(page.entries[i], page.prefix, limits) == Some(all[i]);
      }
    }
    AllItemsRead(payload, page, items, limits);
    var p := CommonPrefixLength(items[0].key, items[|items| - 1].key);
    if p != |page.prefix| {
      return None;
    }
    r := Some(items);
  }

  /** Writing a leaf and reading it back. */
  method LeafRoundTrip(items: seq<Item>, size: nat, limits: Limits) returns (read: Option<seq<Item>>)
    requires LimitsOk(limits) && LeafOk(items, limits) && UsedLength(LeafFor(items, limits)) <= size < U32
    ensures read == Some(items)
  {
    var written := EncodeLeaf(items, size, limits);
    read := DecodeLeaf(written.value, limits);
  }
}
