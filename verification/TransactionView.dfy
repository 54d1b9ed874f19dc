/** The key-value side of a write transaction: its own ordered values, the tree that
    cursors walk, and the epoch that retires cursors when a key changes. */
module TransactionView {
  import opened Basics
  import opened ExtentRuns
  import opened ByteOrder
  import opened SortedEntries
  import opened OrderedTree
  import opened PageRanges
  import opened TreeWriting

  function EntriesOf(s: seq<KV>): (out: seq<Entry>)
    ensures |out| == |s| && forall i :: 0 <= i < |s| ==> out[i] == Entry(s[i].key, s[i].value, None)
  {
    seq(|s|, i requires 0 <= i < |s| => Entry(s[i].key, s[i].value, None))
  }

  lemma {:induction false} EntriesKvs(s: seq<KV>)
    ensures KvsOf(EntriesOf(s)) == s
  {
  }

  // ---------------------------------------------------------------- building a tree

  /** How a value would be laid out on a leaf page, for measuring only. */
  function Measured(e: KV, limits: TreeLimits): Slot {
    if |e.value| > limits.maxInline then Overflow(e.key, |e.value|, Run(1, 1, 1)) else Inline(e.key, e.value)
  }

  function MeasuredAll(s: seq<KV>, limits: TreeLimits): (out: seq<Slot>)
    ensures |out| == |s| && forall i :: 0 <= i < |s| ==> out[i] == Measured(s[i], limits)
  {
    seq(|s|, i requires 0 <= i < |s| => Measured(s[i], limits))
  }

  ghost predicate AllStorable(s: seq<KV>, limits: TreeLimits) {
    forall i :: 0 <= i < |s| ==> Storable(s[i].key, s[i].value, limits)
  }

  lemma {:induction false} MeasuredFit(s: seq<KV>, layout: Layout, limits: TreeLimits)
    requires Fits(layout, limits) && AllStorable(s, limits)
    ensures SinglesFit(|s|, layout.page, (b: nat, e: nat) => LeafUsed(layout, MeasuredAll(s, limits), b, e))
  {
    var slots := MeasuredAll(s, limits);
    var used := (b: nat, e: nat) => LeafUsed(layout, slots, b, e);
    forall i | 0 <= i < |s| ensures SingleFits(layout.page, used, i) {
      assert Storable(s[i].key, s[i].value, limits);
      assert slots[i..i + 1] == [slots[i]] && SlotFits(slots[i], limits);
    }
  }

  function PlainLeaf(part: seq<KV>): Node
    requires part != []
  {
    Node(None, part[0].key, 0, false, EntriesOf(part), [])
  }

  function PlainParent(children: seq<Node>): Node
    requires children != []
  {
    Node(None, children[0].minKey, children[0].level + 1, false, [], children)
  }

  ghost predicate ShortKeys(nodes: seq<Node>, limits: TreeLimits) {
    forall i :: 0 <= i < |nodes| ==> |nodes[i].minKey| <= limits.maxKey
  }

  /** A row of nodes over these pairs. */
  ghost predicate Over(nodes: seq<Node>, level: nat, s: seq<KV>, limits: TreeLimits) {
    Row(nodes, level) && FlattenAll(nodes) == s && ShortKeys(nodes, limits)
  }

  lemma {:induction false} OverLeaf(nodes: seq<Node>, s: seq<KV>, r: Range, limits: TreeLimits)
    requires r.begin < r.end <= |s| && Over(nodes, 0, s[..r.begin], limits) && AllStorable(s, limits)
    ensures Over(nodes + [PlainLeaf(s[r.begin..r.end])], 0, s[..r.end], limits)
  {
    var leaf := PlainLeaf(s[r.begin..r.end]);
    EntriesKvs(s[r.begin..r.end]);
    FlattenPush(nodes, leaf);
    assert s[..r.begin] + s[r.begin..r.end] == s[..r.end];
    assert Storable(s[r.begin].key, s[r.begin].value, limits);
  }

  lemma {:induction false} OverParent(parents: seq<Node>, nodes: seq<Node>, level: nat, r: Range, limits: TreeLimits)
    requires r.begin < r.end <= |nodes| && Row(nodes, level) && ShortKeys(nodes, limits)
    requires Over(parents, level + 1, FlattenAll(nodes[..r.begin]), limits)
    ensures Over(parents + [PlainParent(nodes[r.begin..r.end])], level + 1, FlattenAll(nodes[..r.end]), limits)
  {
    var part := nodes[r.begin..r.end];
    RowSlice(nodes, level, r, limits);
    OverMore(parents, nodes[..r.begin], part, level, limits);
    assert nodes[..r.begin] + part == nodes[..r.end];
  }

  lemma {:induction false} RowSlice(nodes: seq<Node>, level: nat, r: Range, limits: TreeLimits)
    requires r.begin < r.end <= |nodes| && Row(nodes, level) && ShortKeys(nodes, limits)
    ensures Row(nodes[r.begin..r.end], level) && |nodes[r.begin..r.end][0].minKey| <= limits.maxKey
  {
  }

  lemma {:induction false} OverMore(parents: seq<Node>, done: seq<Node>, part: seq<Node>, level: nat, limits: TreeLimits)
    requires part != [] && Row(part, level) && |part[0].minKey| <= limits.maxKey
    requires Over(parents, level + 1, FlattenAll(done), limits)
    ensures Over(parents + [PlainParent(part)], level + 1, FlattenAll(done + part), limits)
  {
    ParentShaped(part, level);
    RowConcat(parents, [PlainParent(part)], level + 1);
    ParentFlat(parents, done, part);
  }

  lemma {:induction false} ParentShaped(part: seq<Node>, level: nat)
    requires part != [] && Row(part, level)
    ensures Row([PlainParent(part)], level + 1)
  {
  }

  lemma {:induction false} ParentFlat(parents: seq<Node>, done: seq<Node>, part: seq<Node>)
    requires part != [] && FlattenAll(parents) == FlattenAll(done)
    ensures FlattenAll(parents + [PlainParent(part)]) == FlattenAll(done + part)
  {
    FlattenPush(parents, PlainParent(part));
    FlattenConcat(done, part);
    assert Flatten(PlainParent(part)) == FlattenAll(part);
  }

  method BuildLeaves(s: seq<KV>, layout: Layout, limits: TreeLimits) returns (nodes: seq<Node>)
    requires s != [] && Fits(layout, limits) && AllStorable(s, limits)
    ensures nodes != [] && Over(nodes, 0, s, limits)
  {
    var slots := MeasuredAll(s, limits);
    MeasuredFit(s, layout, limits);
    var ranges;
    ghost var cuts, ends;
    ranges, cuts, ends := BalancedPageRanges(|s|, layout.page, (b: nat, e: nat) => LeafUsed(layout, slots, b, e));
    nodes := [];
    for n := 0 to |ranges.value|
      invariant |nodes| == n && Position(ranges.value, n) <= |s|
      invariant Over(nodes, 0, s[..Position(ranges.value, n)], limits)
    {
      var r := ranges.value[n];
      RangeInside(ranges.value, |s|, n);
      OverLeaf(nodes, s, r, limits);
      nodes := nodes + [PlainLeaf(s[r.begin..r.end])];
    }
    assert s[..|s|] == s;
  }

  method BuildLevel(nodes: seq<Node>, layout: Layout, ghost limits: TreeLimits, ghost level: nat) returns (parents: seq<Node>)
    requires |nodes| > 1 && Fits(layout, limits) && Row(nodes, level) && ShortKeys(nodes, limits)
    ensures 0 < |parents| < |nodes| && Over(parents, level + 1, FlattenAll(nodes), limits)
  {
    var ranges := InnerRanges(PreparedAll(nodes), layout, limits);
    parents := [];
    for n := 0 to |ranges|
      invariant |parents| == n && Position(ranges, n) <= |nodes|
      invariant Over(parents, level + 1, FlattenAll(nodes[..Position(ranges, n)]), limits)
    {
      RangeInside(ranges, |nodes|, n);
      OverParent(parents, nodes, level, ranges[n], limits);
      parents := parents + [PlainParent(nodes[ranges[n].begin..ranges[n].end])];
    }
    assert nodes[..|nodes|] == nodes;
  }

  /** A tree over the values, built bottom up; each level has fewer nodes than the last. */
  method BuildTree(s: seq<KV>, layout: Layout, limits: TreeLimits) returns (root: Node)
    requires Fits(layout, limits) && AllStorable(s, limits)
    ensures Shaped(root) && Flatten(root) == s
  {
    if s == [] {
      return Node(None, [], 0, false, [], []);
    }
    var nodes := BuildLeaves(s, layout, limits);
    ghost var level := 0;
    while |nodes| != 1
      invariant nodes != [] && Over(nodes, level, s, limits)
      decreases |nodes|
    {
      nodes := BuildLevel(nodes, layout, limits, level);
      level := level + 1;
    }
    root := nodes[0];
    assert nodes == [root];
    FlattenOne(root);
  }

  // ---------------------------------------------------------------- the view

  lemma {:induction false} StorableAfterPut(s: seq<KV>, key: Key, value: Value, out: seq<KV>, limits: TreeLimits)
    requires AllStorable(s, limits) && Storable(key, value, limits) && PutRel(s, key, value, out)
    ensures AllStorable(out, limits)
  {
    forall i | 0 <= i < |out| ensures Storable(out[i].key, out[i].value, limits) {
      assert out[i] in out;
    }
  }

  lemma {:induction false} StorableAfterErase(s: seq<KV>, key: Key, out: seq<KV>, limits: TreeLimits)
    requires AllStorable(s, limits) && EraseRel(s, key, out)
    ensures AllStorable(out, limits)
  {
    forall i | 0 <= i < |out| ensures Storable(out[i].key, out[i].value, limits) {
      assert out[i] in out;
    }
  }

  /** The cursors that a transaction has handed out and that still work. */
  ghost function Functional(cursors: map<nat, nat>, epoch: nat): set<nat> {
    set id | id in cursors && cursors[id] == epoch
  }

  lemma {:induction false} ReleaseCount(cursors: map<nat, nat>, epoch: nat, id: nat)
    requires id in cursors
    ensures |Functional(cursors - {id}, epoch)| + One(cursors[id] == epoch) == |Functional(cursors, epoch)|
    ensures Functional(cursors - {id}, epoch) <= Functional(cursors, epoch)
  {
    assert Functional(cursors - {id}, epoch) == Functional(cursors, epoch) - {id};
    assert cursors[id] == epoch <==> id in Functional(cursors, epoch);
  }

  lemma {:induction false} ScanCount(cursors: map<nat, nat>, epoch: nat, id: nat)
    requires id !in cursors
    ensures |Functional(cursors[id := epoch], epoch)| == |Functional(cursors, epoch)| + 1
  {
    assert Functional(cursors[id := epoch], epoch) == Functional(cursors, epoch) + {id};
  }

  class WriteView {
    const layout: Layout
    const limits: TreeLimits
    const maxMutations: nat
    const maxCursors: nat
    var values: seq<KV>
    var tree: Node
    var treeCurrent: bool
    var epoch: nat
    var liveCursors: nat
    var mutations: nat
    /** Each cursor handed out and not yet released, with the epoch it belongs to. */
    var cursors: map<nat, nat>

    /** Whatever cursor still works reads a tree equal to the current values, and exactly
        the working cursors are counted. */
    ghost predicate Valid()
      reads this
    {
      && Fits(layout, limits) && Sorted(values) && AllStorable(values, limits)
      && (treeCurrent ==> Shaped(tree) && Flatten(tree) == values)
      && (forall id :: id in cursors ==> cursors[id] <= epoch)
      && (Functional(cursors, epoch) != {} ==> treeCurrent)
      && liveCursors == |Functional(cursors, epoch)|
    }

    constructor (layout: Layout, limits: TreeLimits, maxMutations: nat, maxCursors: nat, values: seq<KV>, tree: Node)
      requires Fits(layout, limits) && Sorted(values) && AllStorable(values, limits) && Shaped(tree) && Flatten(tree) == values
      ensures Valid() && this.values == values && cursors == map[] && mutations == 0 && liveCursors == 0
      ensures this.layout == layout && this.limits == limits && this.maxMutations == maxMutations && this.maxCursors == maxCursors
    {
      this.layout, this.limits, this.maxMutations, this.maxCursors := layout, limits, maxMutations, maxCursors;
      this.values, this.tree := values, tree;
      treeCurrent, epoch, liveCursors, mutations, cursors := true, 0, 0, 0, map[];
      new;
      assert Functional(cursors, epoch) == {};
    }

    /** A key change retires every cursor. */
    method Invalidate()
      modifies this`epoch, this`liveCursors, this`treeCurrent
      requires forall id :: id in cursors ==> cursors[id] <= epoch
      ensures epoch == old(epoch) + 1 && liveCursors == 0 && !treeCurrent && Functional(cursors, epoch) == {}
    {
      epoch, liveCursors, treeCurrent := epoch + 1, 0, false;
    }

    method Put(key: Key, value: Value) returns (ok: bool)
      requires Valid() && Storable(key, value, limits)
      modifies this
      ensures Valid() && cursors == old(cursors)
      ensures ok <==> old(mutations) != maxMutations
      ensures ok ==> PutRel(old(values), key, value, values) && Functional(cursors, epoch) == {}
      ensures !ok ==> values == old(values) && epoch == old(epoch)
      ensures mutations == old(mutations) + if ok then 1 else 0
    {
      if mutations == maxMutations {
        return false;
      }
      EntriesKvs(values);
      var entries := PutLeaf(EntriesOf(values), key, value);
      StorableAfterPut(values, key, value, KvsOf(entries), limits);
      values, mutations := KvsOf(entries), mutations + 1;
      Invalidate();
      ok := true;
    }

    method Erase(key: Key) returns (r: EraseResult)
      requires Valid()
      modifies this
      ensures Valid() && cursors == old(cursors)
      ensures r == Absent <==> !HasKey(old(values), key)
      ensures r == LimitReached <==> HasKey(old(values), key) && old(mutations) == maxMutations
      ensures r == Removed ==> EraseRel(old(values), key, values) && Functional(cursors, epoch) == {}
      ensures r != Removed ==> values == old(values) && epoch == old(epoch)
      ensures mutations == old(mutations) + if r == Removed then 1 else 0
    {
      EntriesKvs(values);
      var found, entries := EraseLeaf(EntriesOf(values), key);
      if !found {
        return Absent;
      }
      if mutations == maxMutations {
        return LimitReached;
      }
      StorableAfterErase(values, key, KvsOf(entries), limits);
      values, mutations := KvsOf(entries), mutations + 1;
      Invalidate();
      r := Removed;
    }

    /** Hand out a cursor, first rebuilding the tree if a key has changed. */
    method Scan(id: nat) returns (ok: bool)
      requires Valid() && id !in cursors
      modifies this
      ensures Valid() && values == old(values) && epoch == old(epoch) && mutations == old(mutations)
      ensures ok <==> old(liveCursors) != maxCursors
      ensures cursors == if ok then old(cursors)[id := epoch] else old(cursors)
    {
      if !treeCurrent {
        tree := BuildTree(values, layout, limits);
        treeCurrent := true;
      }
      if liveCursors == maxCursors {
        return false;
      }
      ScanCount(cursors, epoch, id);
      cursors, liveCursors := cursors[id := epoch], liveCursors + 1;
      ok := true;
    }

    method Release(id: nat)
      requires Valid() && id in cursors
      modifies this
      ensures Valid() && cursors == old(cursors) - {id} && values == old(values) && epoch == old(epoch) && mutations == old(mutations)
    {
      ReleaseCount(cursors, epoch, id);
      if cursors[id] == epoch {
        liveCursors := liveCursors - 1;
      }
      cursors := cursors - {id};
    }

    /** What a working cursor walks. */
    method CursorTree(id: nat) returns (root: Node)
      requires Valid() && id in Functional(cursors, epoch)
      ensures Shaped(root) && Sorted(Flatten(root)) && Flatten(root) == values
    {
      root := tree;
    }
  }

  datatype EraseResult = Absent | LimitReached | Removed
}
