/** The copy-on-write tree.  A node is a value: it owns its children. */
module OrderedTree {
  import opened ExtentRuns
  import opened Basics
  import opened ByteOrder
  import opened SortedEntries

  /** A leaf value; `overflow` is the extent that already stores it, if one does. */
  datatype Entry = Entry(key: Key, value: Value, overflow: Option<Run>)

  datatype Node = Node(ref: Option<Run>, minKey: Key, level: nat, dirty: bool, values: seq<Entry>, children: seq<Node>)

  function KvOf(e: Entry): KV { KV(e.key, e.value) }

  function KvsOf(values: seq<Entry>): (s: seq<KV>)
    ensures |s| == |values| && forall i :: 0 <= i < |values| ==> s[i] == KvOf(values[i])
  {
    seq(|values|, i requires 0 <= i < |values| => KvOf(values[i]))
  }

  /** The pairs in the subtree, from left to right. */
  ghost function Flatten(n: Node): seq<KV> {
    if n.level == 0 then KvsOf(n.values) else FlattenAll(n.children)
  }

  ghost function FlattenAll(nodes: seq<Node>): seq<KV> {
    if nodes == [] then [] else FlattenAll(nodes[..|nodes| - 1]) + Flatten(nodes[|nodes| - 1])
  }

  predicate Hollow(n: Node) { if n.level == 0 then n.values == [] else n.children == [] }

  /** Uniform depth, exact minimum keys, and no empty node below the top. */
  ghost predicate Shaped(n: Node) {
    if n.level == 0 then
      n.children == [] && (n.values != [] ==> n.minKey == n.values[0].key)
    else
      && n.values == []
      && (n.children != [] ==> n.minKey == n.children[0].minKey)
      && forall i :: 0 <= i < |n.children| ==>
           n.children[i].level + 1 == n.level && Shaped(n.children[i]) && !Hollow(n.children[i])
  }

  /** A row of siblings. */
  ghost predicate Row(nodes: seq<Node>, level: nat) {
    forall i :: 0 <= i < |nodes| ==> nodes[i].level == level && Shaped(nodes[i]) && !Hollow(nodes[i])
  }

  // ---------------------------------------------------------------- flattening

  lemma {:induction false} FlattenConcat(a: seq<Node>, c: seq<Node>)
    ensures FlattenAll(a + c) == FlattenAll(a) + FlattenAll(c)
  {
    if c == [] {
      assert a + c == a;
    } else {
      var n := |c| - 1;
      assert (a + c)[..|a + c| - 1] == a + c[..n];
      FlattenConcat(a, c[..n]);
    }
  }

  lemma {:induction false} FlattenPush(nodes: seq<Node>, n: Node)
    ensures FlattenAll(nodes + [n]) == FlattenAll(nodes) + Flatten(n)
  {
    assert (nodes + [n])[..|nodes|] == nodes;
  }

  lemma {:induction false} FlattenOne(n: Node)
    ensures FlattenAll([n]) == Flatten(n)
  {
    assert [n][..0] == [];
  }

  lemma {:induction false} FlattenSplit(nodes: seq<Node>, i: nat)
    requires i < |nodes|
    ensures FlattenAll(nodes) == FlattenAll(nodes[..i]) + Flatten(nodes[i]) + FlattenAll(nodes[i + 1..])
  {
    var m := |nodes| - 1;
    if i == m {
      assert nodes[i + 1..] == [];
    } else {
      FlattenSplit(nodes[..m], i);
      assert nodes[..m][..i] == nodes[..i];
      assert nodes[i + 1..][..m - i - 1] == nodes[..m][i + 1..];
    }
  }

  /** A row begins with its first minimum key. */
  lemma {:induction false} FirstKey(n: Node)
    requires Shaped(n) && !Hollow(n)
    ensures Flatten(n) != [] && Flatten(n)[0].key == n.minKey
  {
    if n.level > 0 {
      FirstKey(n.children[0]);
      FlattenSplit(n.children, 0);
    }
  }

  lemma {:induction false} RowFirst(nodes: seq<Node>, level: nat)
    requires Row(nodes, level) && nodes != []
    ensures FlattenAll(nodes) != [] && FlattenAll(nodes)[0].key == nodes[0].minKey
  {
    FirstKey(nodes[0]);
    FlattenSplit(nodes, 0);
  }

  lemma {:induction false} FirstIsLeast(s: seq<KV>)
    requires Sorted(s) && s != []
    ensures forall e :: e in s ==> Le(s[0].key, e.key)
  {
    forall e | e in s ensures Le(s[0].key, e.key) {
      var i :| 0 <= i < |s| && s[i] == e;
      if i == 0 {
        LessIrreflexive(e.key);
      } else {
        LessAsymmetric(s[0].key, e.key);
      }
    }
  }

  /** A separator key divides a row: everything left of node `i` is below its minimum,
      and nothing from node `i` on is. */
  lemma {:induction false} RowBounds(nodes: seq<Node>, level: nat, i: nat)
    requires Row(nodes, level) && i < |nodes| && Sorted(FlattenAll(nodes))
    ensures AllBelow(FlattenAll(nodes[..i]), nodes[i].minKey)
    ensures forall e :: e in FlattenAll(nodes[i..]) ==> Le(nodes[i].minKey, e.key)
  {
    assert nodes == nodes[..i] + nodes[i..];
    FlattenConcat(nodes[..i], nodes[i..]);
    SortedConcat(FlattenAll(nodes[..i]), FlattenAll(nodes[i..]));
    RowFirst(nodes[i..], level);
    FirstIsLeast(FlattenAll(nodes[i..]));
    assert FlattenAll(nodes[i..])[0] in FlattenAll(nodes[i..]);
  }

  // ---------------------------------------------------------------- stored pages

  datatype TreeLimits = TreeLimits(maxKey: nat, maxValue: nat, maxInline: nat, maxLevel: nat)

  datatype Slot =
    | Inline(key: Key, value: Value)
    | Overflow(key: Key, length: nat, at: Run)

  datatype Separator = Separator(key: Key, at: Run)

  /** The content of one extent of the tree. */
  datatype Unit =
    | LeafPage(slots: seq<Slot>)
    | InternalPage(level: nat, leftmost: Run, rest: seq<Separator>)
    | OverflowValue(value: Value)

  type Disk = map<Run, Unit>

  predicate Storable(key: Key, value: Value, limits: TreeLimits) {
    |key| <= limits.maxKey && |value| <= limits.maxValue
  }

  /** An overflow reference, where there is one, leads to the value. */
  predicate KeptEntry(disk: Disk, e: Entry, limits: TreeLimits) {
    && Storable(e.key, e.value, limits)
    && (e.overflow.Some? ==>
          |e.value| > limits.maxInline && e.overflow.value in disk && disk[e.overflow.value] == OverflowValue(e.value))
  }

  /** Exactly the values too long for a page have an overflow extent. */
  predicate StoredEntry(disk: Disk, e: Entry, limits: TreeLimits) {
    KeptEntry(disk, e, limits) && (|e.value| > limits.maxInline ==> e.overflow.Some?)
  }

  function SlotOf(e: Entry): Slot {
    if e.overflow.Some? then Overflow(e.key, |e.value|, e.overflow.value) else Inline(e.key, e.value)
  }

  function SlotsOf(values: seq<Entry>): (s: seq<Slot>)
    ensures |s| == |values| && forall i :: 0 <= i < |values| ==> s[i] == SlotOf(values[i])
  {
    seq(|values|, i requires 0 <= i < |values| => SlotOf(values[i]))
  }

  function RefOf(n: Node): Run { if n.ref.Some? then n.ref.value else Run(0, 0, 0) }

  function SeparatorsOf(nodes: seq<Node>): (s: seq<Separator>)
    ensures |s| == |nodes| && forall i :: 0 <= i < |nodes| ==> s[i] == Separator(nodes[i].minKey, RefOf(nodes[i]))
  {
    seq(|nodes|, i requires 0 <= i < |nodes| => Separator(nodes[i].minKey, RefOf(nodes[i])))
  }

  function PageOf(n: Node): Unit
    requires !Hollow(n)
  {
    if n.level == 0 then LeafPage(SlotsOf(n.values))
    else InternalPage(n.level, RefOf(n.children[0]), SeparatorsOf(n.children[1..]))
  }

  /** The whole subtree is on disk exactly as it is in memory. */
  ghost predicate OnDisk(disk: Disk, n: Node, limits: TreeLimits) {
    && !n.dirty && !Hollow(n)
    && n.ref.Some? && n.ref.value in disk && disk[n.ref.value] == PageOf(n)
    && (forall i :: 0 <= i < |n.values| ==> StoredEntry(disk, n.values[i], limits))
    && (forall i :: 0 <= i < |n.children| ==> OnDisk(disk, n.children[i], limits))
  }

  /** What is marked clean is on disk; the rest will be written. */
  ghost predicate Tracks(disk: Disk, n: Node, limits: TreeLimits) {
    && (!n.dirty ==> OnDisk(disk, n, limits))
    && (forall i :: 0 <= i < |n.values| ==> KeptEntry(disk, n.values[i], limits))
    && (forall i :: 0 <= i < |n.children| ==> Tracks(disk, n.children[i], limits))
  }

  lemma {:induction false} StoredTracks(disk: Disk, n: Node, limits: TreeLimits)
    requires OnDisk(disk, n, limits)
    ensures Tracks(disk, n, limits)
  {
    forall i | 0 <= i < |n.children| ensures Tracks(disk, n.children[i], limits) {
      StoredTracks(disk, n.children[i], limits);
    }
  }

  // ---------------------------------------------------------------- references

  function At(r: Option<Run>, b: int): nat { One(r.Some? && r.value.Has(b)) }

  function ValuesAt(values: seq<Entry>, b: int): nat {
    if values == [] then 0 else ValuesAt(values[..|values| - 1], b) + At(values[|values| - 1].overflow, b)
  }

  /** How many of the extents a subtree refers to, pages and overflow values, cover a block. */
  function UsesAt(n: Node, b: int): nat {
    At(n.ref, b) + ValuesAt(n.values, b) + AllAt(n.children, b)
  }

  function AllAt(nodes: seq<Node>, b: int): nat {
    if nodes == [] then 0 else AllAt(nodes[..|nodes| - 1], b) + UsesAt(nodes[|nodes| - 1], b)
  }

  /** The part of that which a commit can keep: all of a clean subtree, and of a dirty one
      the overflow values it still names and the clean parts below it. */
  function CleanUses(n: Node, b: int): nat {
    if !n.dirty then UsesAt(n, b) else ValuesAt(n.values, b) + CleanAll(n.children, b)
  }

  function CleanAll(nodes: seq<Node>, b: int): nat {
    if nodes == [] then 0 else CleanAll(nodes[..|nodes| - 1], b) + CleanUses(nodes[|nodes| - 1], b)
  }

  lemma {:induction false} CleanPush(nodes: seq<Node>, n: Node, b: int)
    ensures CleanAll(nodes + [n], b) == CleanAll(nodes, b) + CleanUses(n, b)
  {
    assert (nodes + [n])[..|nodes|] == nodes;
  }

  lemma {:induction false} CleanOne(n: Node, b: int)
    ensures CleanAll([n], b) == CleanUses(n, b)
  {
    assert [n][..0] == [];
  }

  lemma {:induction false} CleanWithin(n: Node, b: int)
    ensures CleanUses(n, b) <= UsesAt(n, b)
    decreases n, 1
  {
    if n.dirty {
      CleanAllWithin(n, |n.children|, b);
      assert n.children[..|n.children|] == n.children;
    }
  }

  lemma {:induction false} CleanAllWithin(n: Node, k: nat, b: int)
    requires k <= |n.children|
    ensures CleanAll(n.children[..k], b) <= AllAt(n.children[..k], b)
    decreases n, 0, k
  {
    if k > 0 {
      assert n.children[..k][..k - 1] == n.children[..k - 1];
      CleanAllWithin(n, k - 1, b);
      CleanWithin(n.children[k - 1], b);
    }
  }

  lemma {:induction false} ValuesAtConcat(a: seq<Entry>, c: seq<Entry>, b: int)
    ensures ValuesAt(a + c, b) == ValuesAt(a, b) + ValuesAt(c, b)
  {
    if c == [] {
      assert a + c == a;
    } else {
      var n := |c| - 1;
      assert (a + c)[..|a + c| - 1] == a + c[..n];
      ValuesAtConcat(a, c[..n], b);
    }
  }

  lemma {:induction false} AllAtConcat(a: seq<Node>, c: seq<Node>, b: int)
    ensures AllAt(a + c, b) == AllAt(a, b) + AllAt(c, b)
  {
    if c == [] {
      assert a + c == a;
    } else {
      var n := |c| - 1;
      assert (a + c)[..|a + c| - 1] == a + c[..n];
      AllAtConcat(a, c[..n], b);
    }
  }

  lemma {:induction false} AllAtPush(nodes: seq<Node>, n: Node, b: int)
    ensures AllAt(nodes + [n], b) == AllAt(nodes, b) + UsesAt(n, b)
  {
    assert (nodes + [n])[..|nodes|] == nodes;
  }

  lemma {:induction false} AllAtOne(n: Node, b: int)
    ensures AllAt([n], b) == UsesAt(n, b)
  {
    assert [n][..0] == [];
  }

  lemma {:induction false} AllAtReplace(nodes: seq<Node>, i: nat, c: Node, b: int)
    requires i < |nodes|
    ensures AllAt(nodes[i := c], b) + UsesAt(nodes[i], b) == AllAt(nodes, b) + UsesAt(c, b)
  {
    var m := |nodes| - 1;
    if i == m {
      assert nodes[i := c][..m] == nodes[..m];
    } else {
      AllAtReplace(nodes[..m], i, c, b);
      assert nodes[i := c][..m] == nodes[..m][i := c];
    }
  }

  lemma {:induction false} AllAtDrop(nodes: seq<Node>, i: nat, b: int)
    requires i < |nodes|
    ensures AllAt(nodes, b) == AllAt(nodes[..i] + nodes[i + 1..], b) + UsesAt(nodes[i], b)
  {
    assert nodes == nodes[..i] + ([nodes[i]] + nodes[i + 1..]);
    AllAtConcat(nodes[..i], [nodes[i]] + nodes[i + 1..], b);
    AllAtConcat([nodes[i]], nodes[i + 1..], b);
    AllAtOne(nodes[i], b);
    AllAtConcat(nodes[..i], nodes[i + 1..], b);
  }

  /** The second tree refers to nothing the first does not. */
  ghost predicate NoNewUses(was: Node, now: Node) {
    forall b :: UsesAt(now, b) <= UsesAt(was, b)
  }

  // ---------------------------------------------------------------- searching

  /** The child whose range holds the key. */
  method ChildFor(n: Node, key: Key) returns (child: nat)
    requires n.children != []
    ensures child < |n.children|
    ensures child > 0 ==> Le(n.children[child].minKey, key)
    ensures child + 1 < |n.children| ==> Less(key, n.children[child + 1].minKey)
  {
    child := 0;
    while child + 1 != |n.children| && !Less(key, n.children[child + 1].minKey)
      invariant child < |n.children|
      invariant child > 0 ==> Le(n.children[child].minKey, key)
      decreases |n.children| - child
    {
      child := child + 1;
    }
  }

  /** First value whose key is not below the key sought. */
  method LowerBound(values: seq<Entry>, key: Key) returns (p: nat)
    requires Sorted(KvsOf(values))
    ensures p <= |values|
    ensures AllBelow(KvsOf(values[..p]), key)
    ensures forall i :: p <= i < |values| ==> Le(key, values[i].key)
  {
    var lo, hi := 0, |values|;
    while lo < hi
      invariant lo <= hi <= |values|
      invariant forall i :: 0 <= i < lo ==> Less(values[i].key, key)
      invariant forall i :: hi <= i < |values| ==> Le(key, values[i].key)
    {
      var mid := lo + (hi - lo) / 2;
      if Less(values[mid].key, key) {
        BelowTo(values, mid, key);
        lo := mid + 1;
      } else {
        AboveFrom(values, mid, key);
        hi := mid;
      }
    }
    p := lo;
  }

  lemma {:induction false} BelowTo(values: seq<Entry>, mid: nat, key: Key)
    requires Sorted(KvsOf(values)) && mid < |values| && Less(values[mid].key, key)
    ensures forall i :: 0 <= i <= mid ==> Less(values[i].key, key)
  {
    forall i | 0 <= i <= mid ensures Less(values[i].key, key) {
      if i < mid {
        assert Less(KvsOf(values)[i].key, KvsOf(values)[mid].key);
        LessTransitive(values[i].key, values[mid].key, key);
      }
    }
  }

  lemma {:induction false} AboveFrom(values: seq<Entry>, mid: nat, key: Key)
    requires Sorted(KvsOf(values)) && mid < |values| && !Less(values[mid].key, key)
    ensures forall i :: mid <= i < |values| ==> Le(key, values[i].key)
  {
    forall i | mid <= i < |values| ensures Le(key, values[i].key) {
      if mid < i {
        assert Less(KvsOf(values)[mid].key, KvsOf(values)[i].key);
        LeLess(key, values[mid].key, values[i].key);
        LessAsymmetric(key, values[i].key);
      }
    }
  }

  // ---------------------------------------------------------------- what one key touches

  /** Child `i` is the one whose range holds the key. */
  ghost predicate Routed(nodes: seq<Node>, i: nat, key: Key)
    requires i < |nodes|
  {
    (i > 0 ==> Le(nodes[i].minKey, key)) && (i + 1 < |nodes| ==> Less(key, nodes[i + 1].minKey))
  }

  /** The same entries, overflow extents included, but for those of one key. */
  ghost predicate SameBut(was: seq<Entry>, key: Key, now: seq<Entry>) {
    forall e: Entry :: e.key != key ==> (e in now <==> e in was)
  }

  /** An update touched only the path of one key: on every level the child whose range holds
      it is replaced, or left out if nothing remains of it, and the others stay as they are. */
  ghost predicate OnPath(n: Node, key: Key, out: Node) {
    if n.level == 0 then SameBut(n.values, key, out.values)
    else exists i: nat, c: Node ::
      i < |n.children| && Routed(n.children, i, key) && OnPath(n.children[i], key, c) && Spliced(n.children, i, c, out.children)
  }

  ghost predicate Spliced(nodes: seq<Node>, i: nat, c: Node, out: seq<Node>)
    requires i < |nodes|
  {
    out == nodes[i := c] || (Hollow(c) && out == nodes[..i] + nodes[i + 1..])
  }

  lemma {:induction false} PathUp(n: Node, i: nat, key: Key, c: Node, out: Node)
    requires n.level > 0 && i < |n.children| && Routed(n.children, i, key) && OnPath(n.children[i], key, c)
    requires Spliced(n.children, i, c, out.children)
    ensures OnPath(n, key, out)
  {
  }

  lemma {:induction false} SameSplice(a: seq<Entry>, was: seq<Entry>, now: seq<Entry>, c: seq<Entry>, key: Key)
    requires forall e :: e in was || e in now ==> e.key == key
    ensures SameBut(a + was + c, key, a + now + c)
  {
  }

  // ---------------------------------------------------------------- put

  lemma {:induction false} KvsConcat(a: seq<Entry>, c: seq<Entry>)
    ensures KvsOf(a + c) == KvsOf(a) + KvsOf(c)
  {
  }

  lemma {:induction false} KvsParts(a: seq<Entry>, e: Entry, c: seq<Entry>)
    ensures KvsOf(a + [e] + c) == KvsOf(a) + [KvOf(e)] + KvsOf(c)
  {
    KvsConcat(a + [e], c);
    KvsConcat(a, [e]);
    assert KvsOf([e]) == [KvOf(e)];
  }

  /** From the lower bound on, only the bound itself can have the key sought. */
  lemma {:induction false} LeafAbove(values: seq<Entry>, p: nat, i: nat, key: Key)
    requires Sorted(KvsOf(values)) && p <= i < |values| && Le(key, values[p].key)
    ensures i > p || values[p].key != key ==> Less(key, values[i].key)
  {
    LessTotal(key, values[p].key);
    if p < i {
      assert Less(KvsOf(values)[p].key, KvsOf(values)[i].key);
      LeLess(key, values[p].key, values[i].key);
    }
  }

  lemma {:induction false} TailAbove(values: seq<Entry>, p: nat, from: nat, key: Key)
    requires Sorted(KvsOf(values)) && p <= from <= |values| && (p < |values| ==> Le(key, values[p].key))
    requires from > p || p == |values| || values[p].key != key
    ensures AllAbove(KvsOf(values[from..]), key)
  {
    var s := KvsOf(values[from..]);
    forall e | e in s ensures Less(key, e.key) {
      var i :| 0 <= i < |s| && s[i] == e;
      LeafAbove(values, p, from + i, key);
    }
  }

  lemma {:induction false} Replaced(values: seq<Entry>, p: nat, e: Entry)
    requires Sorted(KvsOf(values)) && p < |values| && values[p].key == e.key && AllBelow(KvsOf(values[..p]), e.key)
    ensures Sorted(KvsOf(values[p := e])) && PutRel(KvsOf(values), e.key, e.value, KvsOf(values[p := e]))
  {
    var a, c := values[..p], values[p + 1..];
    assert values == a + [values[p]] + c && values[p := e] == a + [e] + c;
    KvsParts(a, values[p], c);
    KvsParts(a, e, c);
    LessIrreflexive(e.key);
    TailAbove(values, p, p + 1, e.key);
    SplicePut(KvsOf(a), [KvOf(values[p])], KvsOf(c), e.key, e.value, [KvOf(e)]);
  }

  lemma {:induction false} Inserted(values: seq<Entry>, p: nat, e: Entry)
    requires Sorted(KvsOf(values)) && p <= |values| && AllBelow(KvsOf(values[..p]), e.key)
    requires p < |values| ==> Less(e.key, values[p].key)
    ensures Sorted(KvsOf(values[..p] + [e] + values[p..]))
    ensures PutRel(KvsOf(values), e.key, e.value, KvsOf(values[..p] + [e] + values[p..]))
  {
    var a, c := values[..p], values[p..];
    assert values == a + c;
    KvsConcat(a, c);
    KvsParts(a, e, c);
    if p < |values| {
      LessAsymmetric(e.key, values[p].key);
    }
    TailAbove(values, p, p, e.key);
    SpliceInsert(KvsOf(a), KvsOf(c), e.key, e.value);
  }

  lemma {:induction false} ValuesAtParts(a: seq<Entry>, e: Entry, c: seq<Entry>, b: int)
    ensures ValuesAt(a + [e] + c, b) == ValuesAt(a, b) + At(e.overflow, b) + ValuesAt(c, b)
  {
    ValuesAtConcat(a + [e], c, b);
    assert (a + [e])[..|a|] == a;
  }

  lemma {:induction false} ReplacedUses(values: seq<Entry>, p: nat, e: Entry)
    requires p < |values| && e.overflow.None?
    ensures forall b :: ValuesAt(values[p := e], b) <= ValuesAt(values, b)
    ensures forall x :: x in values[p := e] ==> x in values || x == e
  {
    var a, c := values[..p], values[p + 1..];
    assert values == a + [values[p]] + c && values[p := e] == a + [e] + c;
    forall b ensures ValuesAt(values[p := e], b) <= ValuesAt(values, b) {
      ValuesAtParts(a, values[p], c, b);
      ValuesAtParts(a, e, c, b);
    }
  }

  lemma {:induction false} InsertedUses(values: seq<Entry>, p: nat, e: Entry)
    requires p <= |values| && e.overflow.None?
    ensures forall b :: ValuesAt(values[..p] + [e] + values[p..], b) <= ValuesAt(values, b)
    ensures forall x :: x in values[..p] + [e] + values[p..] ==> x in values || x == e
  {
    assert values == values[..p] + values[p..];
    forall b ensures ValuesAt(values[..p] + [e] + values[p..], b) <= ValuesAt(values, b) {
      ValuesAtConcat(values[..p], values[p..], b);
      ValuesAtParts(values[..p], e, values[p..], b);
    }
  }

  lemma {:induction false} ReplacedSame(values: seq<Entry>, p: nat, e: Entry)
    requires p < |values| && values[p].key == e.key
    ensures SameBut(values, e.key, values[p := e])
  {
    SameSplice(values[..p], [values[p]], [e], values[p + 1..], e.key);
    assert values == values[..p] + [values[p]] + values[p + 1..];
    assert values[p := e] == values[..p] + [e] + values[p + 1..];
  }

  lemma {:induction false} InsertedSame(values: seq<Entry>, p: nat, e: Entry)
    requires p <= |values|
    ensures SameBut(values, e.key, values[..p] + [e] + values[p..])
  {
    SameSplice(values[..p], [], [e], values[p..], e.key);
    assert values == values[..p] + [] + values[p..];
  }

  /** Insert or replace in a leaf. */
  method PutLeaf(values: seq<Entry>, key: Key, value: Value) returns (out: seq<Entry>)
    requires Sorted(KvsOf(values))
    ensures Sorted(KvsOf(out)) && PutRel(KvsOf(values), key, value, KvsOf(out)) && out != []
    ensures forall e :: e in out ==> e in values || e == Entry(key, value, None)
    ensures SameBut(values, key, out)
    ensures forall b :: ValuesAt(out, b) <= ValuesAt(values, b)
  {
    var p := LowerBound(values, key);
    var e := Entry(key, value, None);
    if p != |values| && !Less(key, values[p].key) {
      LessTotal(key, values[p].key);
      Replaced(values, p, e);
      ReplacedUses(values, p, e);
      out := values[p := e];
      ReplacedSame(values, p, e);
    } else {
      Inserted(values, p, e);
      InsertedUses(values, p, e);
      out := values[..p] + [e] + values[p..];
      InsertedSame(values, p, e);
    }
  }

  /** The child found by a search holds every occurrence of the key. */
  lemma {:induction false} ChildHolds(nodes: seq<Node>, level: nat, i: nat, key: Key)
    requires Row(nodes, level) && i < |nodes| && Sorted(FlattenAll(nodes))
    requires i > 0 ==> Le(nodes[i].minKey, key)
    requires i + 1 < |nodes| ==> Less(key, nodes[i + 1].minKey)
    ensures AllBelow(FlattenAll(nodes[..i]), key)
    ensures AllAbove(FlattenAll(nodes[i + 1..]), key)
  {
    if i > 0 {
      RowBounds(nodes, level, i);
      forall e | e in FlattenAll(nodes[..i]) ensures Less(e.key, key) {
        LessLe(e.key, nodes[i].minKey, key);
      }
    }
    if i + 1 < |nodes| {
      RowBounds(nodes, level, i + 1);
      forall e | e in FlattenAll(nodes[i + 1..]) ensures Less(key, e.key) {
        LessLe(key, nodes[i + 1].minKey, e.key);
      }
    }
  }

  /** Replacing one node of a row replaces its part of the row's content. */
  lemma {:induction false} FlattenReplace(nodes: seq<Node>, i: nat, c: Node)
    requires i < |nodes|
    ensures FlattenAll(nodes[i := c]) == FlattenAll(nodes[..i]) + Flatten(c) + FlattenAll(nodes[i + 1..])
  {
    FlattenSplit(nodes[i := c], i);
    assert nodes[i := c][..i] == nodes[..i] && nodes[i := c][i + 1..] == nodes[i + 1..];
  }

  lemma {:induction false} PutChild(nodes: seq<Node>, level: nat, i: nat, key: Key, value: Value, c: Node)
    requires Row(nodes, level) && i < |nodes| && Sorted(FlattenAll(nodes))
    requires i > 0 ==> Le(nodes[i].minKey, key)
    requires i + 1 < |nodes| ==> Less(key, nodes[i + 1].minKey)
    requires Sorted(Flatten(c)) && PutRel(Flatten(nodes[i]), key, value, Flatten(c))
    ensures Sorted(FlattenAll(nodes[i := c])) && PutRel(FlattenAll(nodes), key, value, FlattenAll(nodes[i := c]))
  {
    ChildHolds(nodes, level, i, key);
    FlattenSplit(nodes, i);
    FlattenReplace(nodes, i, c);
    SplicePut(FlattenAll(nodes[..i]), Flatten(nodes[i]), FlattenAll(nodes[i + 1..]), key, value, Flatten(c));
  }

  lemma {:induction false} ChildSorted(n: Node, i: nat)
    requires n.level > 0 && i < |n.children| && Sorted(Flatten(n))
    ensures Sorted(Flatten(n.children[i]))
  {
    FlattenSplit(n.children, i);
    SortedParts(FlattenAll(n.children[..i]), Flatten(n.children[i]), FlattenAll(n.children[i + 1..]));
  }

  /** An internal node with new children. */
  function Regrown(n: Node, children: seq<Node>): Node {
    n.(dirty := true, children := children, minKey := if children == [] then n.minKey else children[0].minKey)
  }

  ghost predicate AllTrack(disk: Disk, nodes: seq<Node>, limits: TreeLimits) {
    forall i :: 0 <= i < |nodes| ==> Tracks(disk, nodes[i], limits)
  }

  lemma {:induction false} RegrownShape(n: Node, children: seq<Node>)
    requires n.level > 0 && n.values == [] && Row(children, n.level - 1)
    ensures Shaped(Regrown(n, children))
  {
  }

  lemma {:induction false} RegrownUses(n: Node, children: seq<Node>)
    requires forall b :: AllAt(children, b) <= AllAt(n.children, b)
    ensures NoNewUses(n, Regrown(n, children))
  {
  }

  /** What clean parts there are stay backed by the disk. */
  ghost predicate StillTracks(n: Node, out: Node, disk: Disk, limits: TreeLimits) {
    Tracks(disk, n, limits) ==> Tracks(disk, out, limits)
  }

  lemma {:induction false} RegrownTracks(n: Node, i: nat, c: Node, disk: Disk, limits: TreeLimits)
    requires n.level > 0 && i < |n.children| && n.values == [] && StillTracks(n.children[i], c, disk, limits)
    ensures StillTracks(n, Regrown(n, n.children[i := c]), disk, limits)
  {
  }

  lemma {:induction false} LeafTracks(n: Node, values: seq<Entry>, minKey: Key, disk: Disk, limits: TreeLimits)
    requires n.level == 0 && n.children == []
    requires forall e :: e in values ==> e in n.values || (e.overflow.None? && Storable(e.key, e.value, limits))
    ensures StillTracks(n, n.(dirty := true, values := values, minKey := minKey), disk, limits)
  {
    if Tracks(disk, n, limits) {
      forall i | 0 <= i < |values| ensures KeptEntry(disk, values[i], limits) {
        assert values[i] in values;
      }
    }
  }

  /** Put refines put on the ordered map, keeps the shape, and leaves a node clean only
      where nothing below it changed. */
  ghost predicate PutOk(n: Node, key: Key, value: Value, out: Node, disk: Disk, limits: TreeLimits) {
    && Shaped(out) && !Hollow(out) && out.level == n.level && out.dirty
    && Sorted(Flatten(out)) && PutRel(Flatten(n), key, value, Flatten(out))
    && (Storable(key, value, limits) ==> StillTracks(n, out, disk, limits))
    && NoNewUses(n, out)
  }

  lemma {:induction false} PutInner(n: Node, i: nat, key: Key, value: Value, c: Node, disk: Disk, limits: TreeLimits)
    requires Shaped(n) && n.level > 0 && Sorted(Flatten(n)) && i < |n.children|
    requires i > 0 ==> Le(n.children[i].minKey, key)
    requires i + 1 < |n.children| ==> Less(key, n.children[i + 1].minKey)
    requires PutOk(n.children[i], key, value, c, disk, limits)
    ensures PutOk(n, key, value, Regrown(n, n.children[i := c]), disk, limits)
  {
    PutChild(n.children, n.level - 1, i, key, value, c);
    RegrownShape(n, n.children[i := c]);
    if Storable(key, value, limits) {
      RegrownTracks(n, i, c, disk, limits);
    }
    forall b ensures AllAt(n.children[i := c], b) <= AllAt(n.children, b) {
      AllAtReplace(n.children, i, c, b);
    }
    RegrownUses(n, n.children[i := c]);
  }

  method Put(n: Node, key: Key, value: Value, ghost disk: Disk, ghost limits: TreeLimits) returns (out: Node)
    requires Shaped(n) && Sorted(Flatten(n)) && (n.level > 0 ==> !Hollow(n))
    ensures PutOk(n, key, value, out, disk, limits) && OnPath(n, key, out)
    decreases n
  {
    if n.level == 0 {
      var values := PutLeaf(n.values, key, value);
      out := n.(dirty := true, values := values, minKey := values[0].key);
      if Storable(key, value, limits) {
        LeafTracks(n, values, values[0].key, disk, limits);
      }
    } else {
      var i := ChildFor(n, key);
      ChildSorted(n, i);
      var c := Put(n.children[i], key, value, disk, limits);
      PutInner(n, i, key, value, c, disk, limits);
      out := Regrown(n, n.children[i := c]);
      PathUp(n, i, key, c, out);
    }
  }

  // ---------------------------------------------------------------- erase

  lemma {:induction false} Erased(values: seq<Entry>, p: nat)
    requires Sorted(KvsOf(values)) && p < |values| && AllBelow(KvsOf(values[..p]), values[p].key)
    ensures Sorted(KvsOf(values[..p] + values[p + 1..]))
    ensures EraseRel(KvsOf(values), values[p].key, KvsOf(values[..p] + values[p + 1..]))
    ensures HasKey(KvsOf(values), values[p].key)
  {
    var a, c, key := values[..p], values[p + 1..], values[p].key;
    assert values == a + [values[p]] + c;
    KvsParts(a, values[p], c);
    KvsConcat(a, c);
    LessIrreflexive(key);
    TailAbove(values, p, p + 1, key);
    SpliceRemove(KvsOf(a), [KvOf(values[p])], KvsOf(c), key);
  }

  lemma {:induction false} NotThere(values: seq<Entry>, p: nat, key: Key)
    requires Sorted(KvsOf(values)) && p <= |values| && AllBelow(KvsOf(values[..p]), key)
    requires p < |values| ==> Less(key, values[p].key)
    ensures !HasKey(KvsOf(values), key)
  {
    if p < |values| {
      LessAsymmetric(key, values[p].key);
    }
    TailAbove(values, p, p, key);
    assert values == values[..p] + values[p..];
    KvsConcat(values[..p], values[p..]);
    AwayFrom(KvsOf(values[..p]), key);
    AwayFrom(KvsOf(values[p..]), key);
  }

  lemma {:induction false} ErasedUses(values: seq<Entry>, p: nat, b: int)
    requires p < |values|
    ensures ValuesAt(values[..p] + values[p + 1..], b) <= ValuesAt(values, b)
  {
    assert values == values[..p] + [values[p]] + values[p + 1..];
    ValuesAtParts(values[..p], values[p], values[p + 1..], b);
    ValuesAtConcat(values[..p], values[p + 1..], b);
  }

  lemma {:induction false} ErasedSame(values: seq<Entry>, p: nat)
    requires p < |values|
    ensures SameBut(values, values[p].key, values[..p] + values[p + 1..])
    ensures forall e :: e in values[..p] + values[p + 1..] ==> e in values
  {
    SameSplice(values[..p], [values[p]], [], values[p + 1..], values[p].key);
    assert values == values[..p] + [values[p]] + values[p + 1..];
    assert values[..p] + values[p + 1..] == values[..p] + [] + values[p + 1..];
  }

  method EraseLeaf(values: seq<Entry>, key: Key) returns (erased: bool, out: seq<Entry>)
    requires Sorted(KvsOf(values))
    ensures erased <==> HasKey(KvsOf(values), key)
    ensures Sorted(KvsOf(out)) && EraseRel(KvsOf(values), key, KvsOf(out))
    ensures !erased ==> out == values
    ensures SameBut(values, key, out) && forall e :: e in out ==> e in values
    ensures forall b :: ValuesAt(out, b) <= ValuesAt(values, b)
  {
    var p := LowerBound(values, key);
    if p == |values| || Less(key, values[p].key) {
      NotThere(values, p, key);
      return false, values;
    }
    LessTotal(key, values[p].key);
    Erased(values, p);
    erased, out := true, values[..p] + values[p + 1..];
    ErasedSame(values, p);
    forall b ensures ValuesAt(out, b) <= ValuesAt(values, b) { ErasedUses(values, p, b); }
  }

  lemma {:induction false} EraseChild(nodes: seq<Node>, level: nat, i: nat, key: Key, c: Node)
    requires Row(nodes, level) && i < |nodes| && Sorted(FlattenAll(nodes))
    requires i > 0 ==> Le(nodes[i].minKey, key)
    requires i + 1 < |nodes| ==> Less(key, nodes[i + 1].minKey)
    requires Sorted(Flatten(c)) && EraseRel(Flatten(nodes[i]), key, Flatten(c))
    ensures Sorted(FlattenAll(nodes[i := c])) && EraseRel(FlattenAll(nodes), key, FlattenAll(nodes[i := c]))
    ensures HasKey(FlattenAll(nodes), key) <==> HasKey(Flatten(nodes[i]), key)
  {
    ChildHolds(nodes, level, i, key);
    FlattenSplit(nodes, i);
    FlattenReplace(nodes, i, c);
    SpliceErase(FlattenAll(nodes[..i]), Flatten(nodes[i]), FlattenAll(nodes[i + 1..]), key, Flatten(c));
  }

  /** A child that holds nothing can be left out. */
  lemma {:induction false} FlattenDrop(nodes: seq<Node>, i: nat)
    requires i < |nodes| && Hollow(nodes[i])
    ensures FlattenAll(nodes[..i] + nodes[i + 1..]) == FlattenAll(nodes)
  {
    assert Flatten(nodes[i]) == [];
    FlattenSplit(nodes, i);
    FlattenConcat(nodes[..i], nodes[i + 1..]);
  }

  /** The children after an erase below child `i`. */
  function AfterErase(nodes: seq<Node>, i: nat, c: Node): seq<Node>
    requires i < |nodes|
  {
    if Hollow(c) then nodes[..i] + nodes[i + 1..] else nodes[i := c]
  }

  lemma {:induction false} AfterEraseRow(nodes: seq<Node>, level: nat, i: nat, c: Node)
    requires Row(nodes, level) && i < |nodes| && c.level == level && Shaped(c)
    ensures Row(AfterErase(nodes, i, c), level)
  {
  }

  lemma {:induction false} AfterEraseTracks(n: Node, i: nat, c: Node, disk: Disk, limits: TreeLimits)
    requires n.level > 0 && i < |n.children| && n.values == [] && StillTracks(n.children[i], c, disk, limits)
    ensures StillTracks(n, Regrown(n, AfterErase(n.children, i, c)), disk, limits)
  {
  }

  lemma {:induction false} AfterEraseFlat(nodes: seq<Node>, i: nat, c: Node)
    requires i < |nodes|
    ensures FlattenAll(AfterErase(nodes, i, c)) == FlattenAll(nodes[i := c])
  {
    if Hollow(c) {
      FlattenDrop(nodes[i := c], i);
      assert nodes[i := c][..i] == nodes[..i] && nodes[i := c][i + 1..] == nodes[i + 1..];
    }
  }

  lemma {:induction false} AfterEraseUses(nodes: seq<Node>, i: nat, c: Node, b: int)
    requires i < |nodes| && UsesAt(c, b) <= UsesAt(nodes[i], b)
    ensures AllAt(AfterErase(nodes, i, c), b) <= AllAt(nodes, b)
  {
    if Hollow(c) {
      AllAtDrop(nodes, i, b);
    } else {
      AllAtReplace(nodes, i, c, b);
    }
  }

  /** Erase refines erase on the ordered map and keeps the shape; nothing changes if the
      key is not there. */
  ghost predicate EraseOk(n: Node, key: Key, erased: bool, out: Node, disk: Disk, limits: TreeLimits) {
    && (erased <==> HasKey(Flatten(n), key))
    && (if erased then out.dirty else out == n)
    && Shaped(out) && out.level == n.level
    && Sorted(Flatten(out)) && EraseRel(Flatten(n), key, Flatten(out))
    && StillTracks(n, out, disk, limits) && NoNewUses(n, out)
  }

  lemma {:induction false} EraseInner(n: Node, i: nat, key: Key, c: Node, disk: Disk, limits: TreeLimits)
    requires Shaped(n) && n.level > 0 && Sorted(Flatten(n)) && i < |n.children|
    requires i > 0 ==> Le(n.children[i].minKey, key)
    requires i + 1 < |n.children| ==> Less(key, n.children[i + 1].minKey)
    requires EraseOk(n.children[i], key, true, c, disk, limits)
    ensures EraseOk(n, key, true, Regrown(n, AfterErase(n.children, i, c)), disk, limits)
  {
    EraseChild(n.children, n.level - 1, i, key, c);
    AfterEraseRow(n.children, n.level - 1, i, c);
    AfterEraseFlat(n.children, i, c);
    AfterEraseTracks(n, i, c, disk, limits);
    RegrownShape(n, AfterErase(n.children, i, c));
    forall b ensures AllAt(AfterErase(n.children, i, c), b) <= AllAt(n.children, b) {
      assert UsesAt(c, b) <= UsesAt(n.children[i], b);
      AfterEraseUses(n.children, i, c, b);
    }
    RegrownUses(n, AfterErase(n.children, i, c));
  }

  lemma {:induction false} NothingErased(n: Node, i: nat, key: Key, c: Node, disk: Disk, limits: TreeLimits)
    requires Shaped(n) && n.level > 0 && Sorted(Flatten(n)) && i < |n.children|
    requires i > 0 ==> Le(n.children[i].minKey, key)
    requires i + 1 < |n.children| ==> Less(key, n.children[i + 1].minKey)
    requires EraseOk(n.children[i], key, false, c, disk, limits)
    ensures EraseOk(n, key, false, n, disk, limits)
  {
    EraseChild(n.children, n.level - 1, i, key, c);
    assert n.children[i := c] == n.children;
  }

  /** Erase a key.  A node that becomes empty leaves its parent. */
  method Erase(n: Node, key: Key, ghost disk: Disk, ghost limits: TreeLimits) returns (erased: bool, out: Node)
    requires Shaped(n) && Sorted(Flatten(n)) && (n.level > 0 ==> !Hollow(n))
    ensures EraseOk(n, key, erased, out, disk, limits) && (erased ==> OnPath(n, key, out))
    decreases n
  {
    if n.level == 0 {
      var values;
      erased, values := EraseLeaf(n.values, key);
      if !erased {
        return false, n;
      }
      var minKey := if values == [] then n.minKey else values[0].key;
      out := n.(dirty := true, values := values, minKey := minKey);
      LeafTracks(n, values, minKey, disk, limits);
    } else {
      var i := ChildFor(n, key);
      ChildSorted(n, i);
      var c;
      erased, c := Erase(n.children[i], key, disk, limits);
      if !erased {
        NothingErased(n, i, key, c, disk, limits);
        return false, n;
      }
      EraseInner(n, i, key, c, disk, limits);
      out := Regrown(n, AfterErase(n.children, i, c));
      PathUp(n, i, key, c, out);
    }
  }
}
