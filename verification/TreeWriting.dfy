/** Writing the dirty part of a tree: clean subtrees are retained, dirty ones are laid
    out on new pages, and levels are added until one root remains. */
module TreeWriting {
  import opened ExtentRuns
  import opened Basics
  import opened ByteOrder
  import opened OrderedTree
  import opened PageRanges
  import opened MetadataReservation

  /** A page that has been written, as its parent will name it. */
  datatype Prepared = Prepared(at: Run, minKey: Key, level: nat)

  /** How much room things take: bytes on a page, and blocks once sealed.  Prefix
      compression and the codec decide this, so the functions are arbitrary. */
  datatype Layout = Layout(page: nat, leafUsed: seq<Slot> -> nat, innerUsed: seq<Separator> -> nat, blocks: Unit -> nat)

  ghost predicate SlotFits(s: Slot, limits: TreeLimits) {
    |s.key| <= limits.maxKey && (s.Inline? ==> |s.value| <= limits.maxInline)
  }

  /** Every entry fits a page on its own, and so do any two children. */
  ghost predicate Fits(layout: Layout, limits: TreeLimits) {
    && layout.page < U64_MAX
    && (forall u :: layout.blocks(u) > 0)
    && (forall s {:trigger layout.leafUsed([s])} :: SlotFits(s, limits) ==> layout.leafUsed([s]) <= layout.page)
    && layout.innerUsed([]) <= layout.page
    && (forall s: Separator {:trigger layout.innerUsed([s])} :: |s.key| <= limits.maxKey ==> layout.innerUsed([s]) <= layout.page)
  }

  /** What is put on a page takes no more than a page; an overflow value has its own extent. */
  ghost predicate UnitFits(layout: Layout, u: Unit) {
    match u
    case LeafPage(slots) => layout.leafUsed(slots) <= layout.page
    case InternalPage(_, _, rest) => layout.innerUsed(rest) <= layout.page
    case OverflowValue(_) => true
  }

  ghost predicate NewUnitsFit(layout: Layout, before: Disk, disk: Disk) {
    forall r :: r in disk && r !in before ==> UnitFits(layout, disk[r])
  }

  function PreparedOf(n: Node): Prepared { Prepared(RefOf(n), n.minKey, n.level) }

  function PreparedAll(nodes: seq<Node>): (s: seq<Prepared>)
    ensures |s| == |nodes| && forall i :: 0 <= i < |nodes| ==> s[i] == PreparedOf(nodes[i])
  {
    seq(|nodes|, i requires 0 <= i < |nodes| => PreparedOf(nodes[i]))
  }

  // ---------------------------------------------------------------- disks

  ghost predicate Extends(a: Disk, c: Disk) {
    forall r :: r in a ==> r in c && c[r] == a[r]
  }

  lemma {:induction false} StoredMore(a: Disk, c: Disk, n: Node, limits: TreeLimits)
    requires Extends(a, c) && OnDisk(a, n, limits)
    ensures OnDisk(c, n, limits)
  {
    forall i | 0 <= i < |n.children| ensures OnDisk(c, n.children[i], limits) {
      StoredMore(a, c, n.children[i], limits);
    }
    forall i | 0 <= i < |n.values| ensures StoredEntry(c, n.values[i], limits) {
      assert StoredEntry(a, n.values[i], limits);
    }
  }

  lemma {:induction false} TracksMore(a: Disk, c: Disk, n: Node, limits: TreeLimits)
    requires Extends(a, c) && Tracks(a, n, limits)
    ensures Tracks(c, n, limits)
  {
    if !n.dirty {
      StoredMore(a, c, n, limits);
    }
    forall i | 0 <= i < |n.children| ensures Tracks(c, n.children[i], limits) {
      TracksMore(a, c, n.children[i], limits);
    }
    forall i | 0 <= i < |n.values| ensures KeptEntry(c, n.values[i], limits) {
      assert KeptEntry(a, n.values[i], limits);
    }
  }

  ghost predicate AllStored(disk: Disk, nodes: seq<Node>, limits: TreeLimits) {
    forall i :: 0 <= i < |nodes| ==> OnDisk(disk, nodes[i], limits)
  }

  lemma {:induction false} AllStoredMore(a: Disk, c: Disk, nodes: seq<Node>, limits: TreeLimits)
    requires Extends(a, c) && AllStored(a, nodes, limits)
    ensures AllStored(c, nodes, limits)
  {
    forall i | 0 <= i < |nodes| ensures OnDisk(c, nodes[i], limits) {
      StoredMore(a, c, nodes[i], limits);
    }
  }

  /** Every extent on disk has blocks of its own, none of them in the pool. */
  ghost predicate Housed(disk: Disk, free: seq<Run>, next: nat) {
    forall r, b: int :: r in disk && r.Has(b) ==> Pool(free, next, b) == 0
  }

  ghost predicate NonEmptyRefs(disk: Disk) { forall r :: r in disk ==> r.count > 0 }

  // ---------------------------------------------------------------- the writer

  /** What has been written and retained so far. */
  datatype Progress = Progress(disk: Disk, written: seq<Run>, retained: seq<Run>)

  /** From `p` to `q`, every extent the nodes refer to was written or retained, once. */
  ghost predicate Grew(p: Progress, q: Progress, nodes: seq<Node>) {
    && Extends(p.disk, q.disk)
    && forall b :: Mult(q.written, b) + Mult(q.retained, b) == Mult(p.written, b) + Mult(p.retained, b) + AllAt(nodes, b)
  }

  /** What was retained is exactly what `nodes` have clean. */
  ghost predicate RetainsFrom(p: Progress, q: Progress, nodes: seq<Node>) {
    forall b :: Mult(q.retained, b) == Mult(p.retained, b) + CleanAll(nodes, b)
  }

  lemma {:induction false} ExtendsChain(a: Disk, c: Disk, d: Disk)
    requires Extends(a, c) && Extends(c, d)
    ensures Extends(a, d)
  {
  }

  lemma {:induction false} KeysFit(disk: Disk, n: Node, limits: TreeLimits)
    requires OnDisk(disk, n, limits) && Shaped(n)
    ensures |n.minKey| <= limits.maxKey
  {
    if n.level == 0 {
      assert StoredEntry(disk, n.values[0], limits);
    } else {
      KeysFit(disk, n.children[0], limits);
    }
  }

  // ---------------------------------------------------------------- leaves

  ghost predicate AllEntries(disk: Disk, entries: seq<Entry>, limits: TreeLimits) {
    forall i :: 0 <= i < |entries| ==> StoredEntry(disk, entries[i], limits)
  }

  function LeafUsed(layout: Layout, slots: seq<Slot>, begin: nat, end: nat): nat {
    if begin <= end <= |slots| then layout.leafUsed(slots[begin..end]) else 0
  }

  lemma {:induction false} SlotsFit(disk: Disk, entries: seq<Entry>, layout: Layout, limits: TreeLimits)
    requires Fits(layout, limits) && AllEntries(disk, entries, limits)
    ensures SinglesFit(|entries|, layout.page, (b: nat, e: nat) => LeafUsed(layout, SlotsOf(entries), b, e))
  {
    var slots := SlotsOf(entries);
    var used := (b: nat, e: nat) => LeafUsed(layout, slots, b, e);
    forall i | 0 <= i < |entries| ensures SingleFits(layout.page, used, i) {
      assert StoredEntry(disk, entries[i], limits);
      assert slots[i..i + 1] == [slots[i]] && SlotFits(slots[i], limits);
    }
  }

  /** Leaves laid out so far, holding exactly these entries. */
  ghost predicate Leaves(disk: Disk, entries: seq<Entry>, nodes: seq<Node>, limits: TreeLimits) {
    Row(nodes, 0) && AllStored(disk, nodes, limits) && FlattenAll(nodes) == KvsOf(entries)
  }

  /** Pages written since `before`: with the overflow extents, all that the leaves refer to. */
  ghost predicate LeavesPaid(before: seq<Run>, written: seq<Run>, entries: seq<Entry>, nodes: seq<Node>) {
    forall b :: Mult(written, b) + ValuesAt(entries, b) == Mult(before, b) + AllAt(nodes, b)
  }

  function LeafNode(at: Run, entries: seq<Entry>): Node
    requires entries != []
  {
    Node(Some(at), entries[0].key, 0, false, entries, [])
  }

  lemma {:induction false} LeafStored(disk: Disk, part: seq<Entry>, limits: TreeLimits, at: Run)
    requires part != [] && AllEntries(disk, part, limits) && at in disk && disk[at] == LeafPage(SlotsOf(part))
    ensures OnDisk(disk, LeafNode(at, part), limits) && Row([LeafNode(at, part)], 0)
  {
  }

  lemma {:induction false} OneMoreLeaf(disk: Disk, done: seq<Entry>, part: seq<Entry>, nodes: seq<Node>, limits: TreeLimits,
                                       node: Node)
    requires Leaves(disk, done, nodes, limits) && OnDisk(disk, node, limits) && Row([node], 0) && node.values == part
    ensures Leaves(disk, done + part, nodes + [node], limits)
  {
    KvsConcat(done, part);
    FlattenPush(nodes, node);
    assert node.level == 0 by { assert [node][0] == node; }
    assert Flatten(node) == KvsOf(part);
    RowConcat(nodes, [node], 0);
  }

  lemma {:induction false} RowConcat(a: seq<Node>, c: seq<Node>, level: nat)
    requires Row(a, level) && Row(c, level)
    ensures Row(a + c, level)
  {
  }

  lemma {:induction false} LeafPaid(before: seq<Run>, written: seq<Run>, done: seq<Entry>, part: seq<Entry>,
                                    nodes: seq<Node>, at: Run)
    requires part != [] && LeavesPaid(before, written, done, nodes)
    ensures LeavesPaid(before, written + [at], done + part, nodes + [LeafNode(at, part)])
  {
    var node := LeafNode(at, part);
    forall b
      ensures Mult(written + [at], b) + ValuesAt(done + part, b) == Mult(before, b) + AllAt(nodes + [node], b)
    {
      LeafAdds(nodes, node, done, part, written, at, b);
      assert Mult(written, b) + ValuesAt(done, b) == Mult(before, b) + AllAt(nodes, b);
    }
  }

  lemma {:induction false} LeafAdds(nodes: seq<Node>, node: Node, done: seq<Entry>, part: seq<Entry>, written: seq<Run>, at: Run, b: int)
    requires part != [] && node == LeafNode(at, part)
    ensures AllAt(nodes + [node], b) == AllAt(nodes, b) + One(at.Has(b)) + ValuesAt(part, b)
    ensures ValuesAt(done + part, b) == ValuesAt(done, b) + ValuesAt(part, b)
    ensures Mult(written + [at], b) == Mult(written, b) + One(at.Has(b))
  {
    AllAtPush(nodes, node, b);
    ValuesAtConcat(done, part, b);
    MultPush(written, at);
  }

  lemma {:induction false} LeafLaid(disk: Disk, entries: seq<Entry>, r: Range, nodes: seq<Node>, limits: TreeLimits, at: Run)
    requires r.begin < r.end <= |entries| && AllEntries(disk, entries, limits) && at !in disk
    requires Leaves(disk, entries[..r.begin], nodes, limits)
    ensures Leaves(disk[at := LeafPage(SlotsOf(entries[r.begin..r.end]))], entries[..r.end],
                   nodes + [LeafNode(at, entries[r.begin..r.end])], limits)
  {
    var part := entries[r.begin..r.end];
    var disk' := disk[at := LeafPage(SlotsOf(part))];
    StoredEntries(disk, disk', part, limits);
    AllStoredMore(disk, disk', nodes, limits);
    LeafStored(disk', part, limits, at);
    OneMoreLeaf(disk', entries[..r.begin], part, nodes, limits, LeafNode(at, part));
    assert entries[..r.begin] + part == entries[..r.end];
  }

  lemma {:induction false} LeafFits(layout: Layout, entries: seq<Entry>, r: Range)
    requires r.begin < r.end <= |entries| && LeafUsed(layout, SlotsOf(entries), r.begin, r.end) <= layout.page
    ensures UnitFits(layout, LeafPage(SlotsOf(entries[r.begin..r.end])))
  {
    assert SlotsOf(entries)[r.begin..r.end] == SlotsOf(entries[r.begin..r.end]);
  }

  /** Wherever the page for the next range goes, it makes one more leaf. */
  lemma {:induction false} LeafStep(disk: Disk, entries: seq<Entry>, r: Range, nodes: seq<Node>, limits: TreeLimits,
                                    before: seq<Run>, written: seq<Run>, page: Unit)
    requires r.begin < r.end <= |entries| && AllEntries(disk, entries, limits) && page == LeafPage(SlotsOf(entries[r.begin..r.end]))
    requires Leaves(disk, entries[..r.begin], nodes, limits) && LeavesPaid(before, written, entries[..r.begin], nodes)
    ensures forall at: Run {:trigger disk[at := page]} :: at !in disk ==>
              Leaves(disk[at := page], entries[..r.end], nodes + [LeafNode(at, entries[r.begin..r.end])], limits)
    ensures forall at: Run {:trigger written + [at]} ::
              LeavesPaid(before, written + [at], entries[..r.end], nodes + [LeafNode(at, entries[r.begin..r.end])])
  {
    var part := entries[r.begin..r.end];
    assert entries[..r.begin] + part == entries[..r.end];
    forall at: Run | at !in disk ensures Leaves(disk[at := page], entries[..r.end], nodes + [LeafNode(at, part)], limits) {
      LeafLaid(disk, entries, r, nodes, limits, at);
    }
    forall at: Run ensures LeavesPaid(before, written + [at], entries[..r.end], nodes + [LeafNode(at, part)]) {
      LeafPaid(before, written, entries[..r.begin], part, nodes, at);
    }
  }

  // ---------------------------------------------------------------- internal pages

  function InnerUsed(layout: Layout, row: seq<Prepared>, begin: nat, end: nat): nat {
    if begin < end <= |row| then layout.innerUsed(SeparatorsFrom(row[begin + 1..end])) else 0
  }

  ghost predicate RowKeysFit(row: seq<Prepared>, limits: TreeLimits) {
    forall i :: 0 <= i < |row| ==> |row[i].minKey| <= limits.maxKey
  }

  lemma {:induction false} StoredKeysFit(disk: Disk, nodes: seq<Node>, level: nat, limits: TreeLimits)
    requires AllStored(disk, nodes, limits) && Row(nodes, level)
    ensures RowKeysFit(PreparedAll(nodes), limits)
  {
    forall i | 0 <= i < |nodes| ensures |nodes[i].minKey| <= limits.maxKey {
      KeysFit(disk, nodes[i], limits);
    }
  }

  lemma {:induction false} ChildrenFit(row: seq<Prepared>, layout: Layout, limits: TreeLimits)
    requires Fits(layout, limits) && RowKeysFit(row, limits)
    ensures SinglesFit(|row|, layout.page, (b: nat, e: nat) => InnerUsed(layout, row, b, e))
    ensures |row| > 1 ==> InnerUsed(layout, row, 0, 2) <= layout.page
  {
    var used := (b: nat, e: nat) => InnerUsed(layout, row, b, e);
    forall i | 0 <= i < |row| ensures SingleFits(layout.page, used, i) {
      assert SeparatorsFrom(row[i + 1..i + 1]) == [];
    }
    if |row| > 1 {
      assert SeparatorsFrom(row[1..2]) == [Separator(row[1].minKey, row[1].at)];
    }
  }

  ghost predicate InnerRangesFit(layout: Layout, row: seq<Prepared>, ranges: seq<Range>) {
    forall i :: 0 <= i < |ranges| ==> InnerUsed(layout, row, ranges[i].begin, ranges[i].end) <= layout.page
  }

  /** The pages of the next level. */
  method InnerRanges(row: seq<Prepared>, layout: Layout, ghost limits: TreeLimits) returns (ranges: seq<Range>)
    requires row != [] && Fits(layout, limits) && RowKeysFit(row, limits)
    ensures Chained(ranges, |row|) && ranges != []
    ensures |row| > 1 ==> |ranges| < |row|
    ensures InnerRangesFit(layout, row, ranges)
  {
    ChildrenFit(row, layout, limits);
    var r;
    ghost var cuts, ends;
    r, cuts, ends := BalancedPageRanges(|row|, layout.page, (b: nat, e: nat) => InnerUsed(layout, row, b, e));
    ranges := r.value;
  }

  lemma {:induction false} ParentFits(layout: Layout, row: seq<Prepared>, r: Range)
    requires r.begin < r.end <= |row| && InnerUsed(layout, row, r.begin, r.end) <= layout.page
    ensures UnitFits(layout, ParentPage(row, r))
  {
    assert row[r.begin..r.end][1..] == row[r.begin + 1..r.end];
  }

  /** Parents laid out so far, over exactly these children. */
  ghost predicate Parents(disk: Disk, children: seq<Node>, parents: seq<Node>, level: nat, limits: TreeLimits) {
    && Row(parents, level) && AllStored(disk, parents, limits)
    && FlattenAll(parents) == FlattenAll(children) && Grandchildren(parents) == |children|
  }

  function Grandchildren(nodes: seq<Node>): nat {
    if nodes == [] then 0 else Grandchildren(nodes[..|nodes| - 1]) + |nodes[|nodes| - 1].children|
  }

  lemma {:induction false} GrandchildrenPush(nodes: seq<Node>, n: Node)
    ensures Grandchildren(nodes + [n]) == Grandchildren(nodes) + |n.children|
  {
    assert (nodes + [n])[..|nodes|] == nodes;
  }

  ghost predicate ParentsPaid(before: seq<Run>, written: seq<Run>, children: seq<Node>, parents: seq<Node>) {
    forall b :: Mult(written, b) + AllAt(children, b) == Mult(before, b) + AllAt(parents, b)
  }

  function InnerNode(at: Run, children: seq<Node>): Node
    requires children != []
  {
    Node(Some(at), children[0].minKey, children[0].level + 1, false, [], children)
  }

  function SeparatorsFrom(row: seq<Prepared>): (s: seq<Separator>)
    ensures |s| == |row| && forall i :: 0 <= i < |row| ==> s[i] == Separator(row[i].minKey, row[i].at)
  {
    seq(|row|, i requires 0 <= i < |row| => Separator(row[i].minKey, row[i].at))
  }

  lemma {:induction false} InnerStored(disk: Disk, part: seq<Node>, level: nat, limits: TreeLimits, at: Run)
    requires part != [] && AllStored(disk, part, limits) && Row(part, level) && at in disk
    requires disk[at] == InternalPage(level + 1, PreparedAll(part)[0].at, SeparatorsFrom(PreparedAll(part)[1..]))
    ensures OnDisk(disk, InnerNode(at, part), limits) && Row([InnerNode(at, part)], level + 1)
  {
    assert SeparatorsFrom(PreparedAll(part)[1..]) == SeparatorsOf(part[1..]);
  }

  lemma {:induction false} OneMoreParent(disk: Disk, done: seq<Node>, part: seq<Node>, parents: seq<Node>, level: nat,
                                         limits: TreeLimits, node: Node)
    requires Parents(disk, done, parents, level, limits) && OnDisk(disk, node, limits) && Row([node], level)
    requires level > 0 && node.children == part
    ensures Parents(disk, done + part, parents + [node], level, limits)
  {
    assert [node][0] == node;
    FlattenOver(done, part, parents, node);
    GrandchildrenPush(parents, node);
    RowConcat(parents, [node], level);
    StoredPush(disk, parents, node, limits);
  }

  lemma {:induction false} FlattenOver(done: seq<Node>, part: seq<Node>, parents: seq<Node>, node: Node)
    requires FlattenAll(parents) == FlattenAll(done) && node.level > 0 && node.children == part
    ensures FlattenAll(parents + [node]) == FlattenAll(done + part)
  {
    FlattenConcat(done, part);
    FlattenPush(parents, node);
    assert Flatten(node) == FlattenAll(part);
  }

  lemma {:induction false} StoredPush(disk: Disk, nodes: seq<Node>, node: Node, limits: TreeLimits)
    requires AllStored(disk, nodes, limits) && OnDisk(disk, node, limits)
    ensures AllStored(disk, nodes + [node], limits)
  {
  }

  lemma {:induction false} ParentPaid(before: seq<Run>, written: seq<Run>, done: seq<Node>, part: seq<Node>,
                                      parents: seq<Node>, at: Run)
    requires part != [] && ParentsPaid(before, written, done, parents)
    ensures ParentsPaid(before, written + [at], done + part, parents + [InnerNode(at, part)])
  {
    var node := InnerNode(at, part);
    forall b
      ensures Mult(written + [at], b) + AllAt(done + part, b) == Mult(before, b) + AllAt(parents + [node], b)
    {
      AllAtPush(parents, node, b);
      AllAtConcat(done, part, b);
      MultPush(written, at);
      assert Mult(written, b) + AllAt(done, b) == Mult(before, b) + AllAt(parents, b);
    }
  }

  lemma {:induction false} PartOfRow(disk: Disk, nodes: seq<Node>, begin: nat, end: nat, level: nat, limits: TreeLimits)
    requires AllStored(disk, nodes, limits) && Row(nodes, level) && begin < end <= |nodes|
    ensures AllStored(disk, nodes[begin..end], limits) && Row(nodes[begin..end], level)
    ensures nodes[..begin] + nodes[begin..end] == nodes[..end]
    ensures PreparedAll(nodes[begin..end]) == PreparedAll(nodes)[begin..end]
  {
  }

  function ParentPage(row: seq<Prepared>, r: Range): Unit
    requires r.begin < r.end <= |row|
  {
    InternalPage(row[r.begin].level + 1, row[r.begin].at, SeparatorsFrom(row[r.begin..r.end][1..]))
  }

  lemma {:induction false} ParentLaid(disk: Disk, nodes: seq<Node>, r: Range, level: nat, parents: seq<Node>, limits: TreeLimits,
                                      at: Run, page: Unit)
    requires r.begin < r.end <= |nodes| && Row(nodes, level) && AllStored(disk, nodes, limits) && at !in disk
    requires Parents(disk, nodes[..r.begin], parents, level + 1, limits) && page == ParentPage(PreparedAll(nodes), r)
    ensures Parents(disk[at := page], nodes[..r.end], parents + [InnerNode(at, nodes[r.begin..r.end])], level + 1, limits)
  {
    var part, disk' := nodes[r.begin..r.end], disk[at := page];
    PartOfRow(disk, nodes, r.begin, r.end, level, limits);
    PartLaid(disk, part, level, parents, limits, at, page);
    OneMoreParent(disk', nodes[..r.begin], part, parents, level + 1, limits, InnerNode(at, part));
  }

  lemma {:induction false} PartLaid(disk: Disk, part: seq<Node>, level: nat, parents: seq<Node>, limits: TreeLimits, at: Run, page: Unit)
    requires part != [] && Row(part, level) && AllStored(disk, part, limits) && AllStored(disk, parents, limits) && at !in disk
    requires page == InternalPage(level + 1, PreparedAll(part)[0].at, SeparatorsFrom(PreparedAll(part)[1..]))
    ensures AllStored(disk[at := page], parents, limits)
    ensures OnDisk(disk[at := page], InnerNode(at, part), limits) && Row([InnerNode(at, part)], level + 1)
  {
    var disk' := disk[at := page];
    AllStoredMore(disk, disk', part, limits);
    AllStoredMore(disk, disk', parents, limits);
    InnerStored(disk', part, level, limits, at);
  }

  /** Parents over the first `pos` nodes of a row. */
  ghost predicate ParentsSoFar(disk: Disk, nodes: seq<Node>, pos: nat, parents: seq<Node>, level: nat, limits: TreeLimits,
                               before: seq<Run>, written: seq<Run>)
  {
    && pos <= |nodes| && Row(nodes, level) && AllStored(disk, nodes, limits)
    && Parents(disk, nodes[..pos], parents, level + 1, limits)
    && ParentsPaid(before, written, nodes[..pos], parents)
  }

  /** The same, for the ranges before `n`. */
  ghost predicate ParentsAt(disk: Disk, nodes: seq<Node>, ranges: seq<Range>, n: nat, above: seq<Prepared>, parents: seq<Node>,
                            level: nat, limits: TreeLimits, before: seq<Run>, written: seq<Run>)
  {
    && n <= |ranges| && above == PreparedAll(parents) && |parents| == n
    && ParentsSoFar(disk, nodes, Position(ranges, n), parents, level, limits, before, written)
  }

  lemma {:induction false} ParentsNone(disk: Disk, nodes: seq<Node>, level: nat, limits: TreeLimits, written: seq<Run>)
    requires Row(nodes, level) && AllStored(disk, nodes, limits)
    ensures ParentsSoFar(disk, nodes, 0, [], level, limits, written, written)
  {
    assert nodes[..0] == [];
  }

  lemma {:induction false} ParentsMore(disk: Disk, nodes: seq<Node>, r: Range, parents: seq<Node>, level: nat, limits: TreeLimits,
                                       page: Unit)
    requires r.begin < r.end <= |nodes| && Row(nodes, level) && AllStored(disk, nodes, limits)
    requires Parents(disk, nodes[..r.begin], parents, level + 1, limits) && page == ParentPage(PreparedAll(nodes), r)
    ensures forall at: Run {:trigger disk[at := page]} :: at !in disk ==>
              && AllStored(disk[at := page], nodes, limits)
              && Parents(disk[at := page], nodes[..r.end], parents + [InnerNode(at, nodes[r.begin..r.end])], level + 1, limits)
  {
    forall at: Run | at !in disk
      ensures AllStored(disk[at := page], nodes, limits)
      ensures Parents(disk[at := page], nodes[..r.end], parents + [InnerNode(at, nodes[r.begin..r.end])], level + 1, limits)
    {
      AllStoredMore(disk, disk[at := page], nodes, limits);
      ParentLaid(disk, nodes, r, level, parents, limits, at, page);
    }
  }

  lemma {:induction false} ParentsPaidMore(before: seq<Run>, written: seq<Run>, nodes: seq<Node>, r: Range, parents: seq<Node>)
    requires r.begin < r.end <= |nodes| && ParentsPaid(before, written, nodes[..r.begin], parents)
    ensures forall at: Run {:trigger written + [at]} ::
              ParentsPaid(before, written + [at], nodes[..r.end], parents + [InnerNode(at, nodes[r.begin..r.end])])
  {
    assert nodes[..r.begin] + nodes[r.begin..r.end] == nodes[..r.end];
    forall at: Run
      ensures ParentsPaid(before, written + [at], nodes[..r.end], parents + [InnerNode(at, nodes[r.begin..r.end])])
    {
      ParentPaid(before, written, nodes[..r.begin], nodes[r.begin..r.end], parents, at);
    }
  }

  /** Wherever the page for the next range goes, it makes one more parent. */
  lemma {:induction false} ParentStep(disk: Disk, nodes: seq<Node>, r: Range, parents: seq<Node>, level: nat, limits: TreeLimits,
                                      before: seq<Run>, written: seq<Run>, page: Unit)
    requires ParentsSoFar(disk, nodes, r.begin, parents, level, limits, before, written)
    requires r.begin < r.end <= |nodes| && page == ParentPage(PreparedAll(nodes), r)
    ensures forall at: Run {:trigger disk[at := page]} :: at !in disk ==>
              ParentsSoFar(disk[at := page], nodes, r.end, parents + [InnerNode(at, nodes[r.begin..r.end])],
                           level, limits, before, written + [at])
  {
    ParentsMore(disk, nodes, r, parents, level, limits, page);
    ParentsPaidMore(before, written, nodes, r, parents);
  }

  /** The entries are the values, with overflow extents where they need them. */
  ghost predicate Overflowed(disk: Disk, values: seq<Entry>, entries: seq<Entry>, limits: TreeLimits) {
    |entries| == |values| && KvsOf(entries) == KvsOf(values) && AllEntries(disk, entries, limits)
  }

  /** Overflow extents were written or retained, each once; retained exactly where the
      value had one. */
  ghost predicate OverflowsPaid(p: Progress, q: Progress, values: seq<Entry>, entries: seq<Entry>) {
    && (forall b :: Mult(q.written, b) + Mult(q.retained, b) == Mult(p.written, b) + Mult(p.retained, b) + ValuesAt(entries, b))
    && (forall b :: Mult(q.retained, b) == Mult(p.retained, b) + ValuesAt(values, b))
  }

  lemma {:induction false} EntryAdds(entries: seq<Entry>, e: Entry, b: int)
    ensures ValuesAt(entries + [e], b) == ValuesAt(entries, b) + At(e.overflow, b)
  {
    assert (entries + [e])[..|entries|] == entries;
  }

  lemma {:induction false} StoredEntries(a: Disk, c: Disk, entries: seq<Entry>, limits: TreeLimits)
    requires Extends(a, c) && AllEntries(a, entries, limits)
    ensures AllEntries(c, entries, limits)
  {
    forall i | 0 <= i < |entries| ensures StoredEntry(c, entries[i], limits) {
      assert StoredEntry(a, entries[i], limits);
    }
  }

  lemma {:induction false} OneMoreEntry(disk: Disk, values: seq<Entry>, entries: seq<Entry>, limits: TreeLimits, v: Entry, e: Entry)
    requires Overflowed(disk, values, entries, limits) && KvOf(e) == KvOf(v) && StoredEntry(disk, e, limits)
    ensures Overflowed(disk, values + [v], entries + [e], limits)
  {
  }

  lemma {:induction false} OverflowPaid(p: Progress, q: Progress, q': Progress, values: seq<Entry>, entries: seq<Entry>, v: Entry, e: Entry)
    requires OverflowsPaid(p, q, values, entries)
    requires
      || (e.overflow.Some? && v.overflow.None? && q'.written == q.written + [e.overflow.value] && q'.retained == q.retained)
      || (e == v && e.overflow.Some? && q'.written == q.written && q'.retained == q.retained + [e.overflow.value])
      || (e == v && e.overflow.None? && q'.written == q.written && q'.retained == q.retained)
    ensures OverflowsPaid(p, q', values + [v], entries + [e])
  {
    if e.overflow.Some? {
      MultPush(q.written, e.overflow.value);
      MultPush(q.retained, e.overflow.value);
    }
    forall b
      ensures ValuesAt(entries + [e], b) == ValuesAt(entries, b) + At(e.overflow, b)
      ensures ValuesAt(values + [v], b) == ValuesAt(values, b) + At(v.overflow, b)
    {
      EntryAdds(entries, e, b);
      EntryAdds(values, v, b);
    }
  }

  /** The first `n` values have their overflow extents. */
  ghost predicate Stowed(p: Progress, q: Progress, values: seq<Entry>, n: nat, entries: seq<Entry>, limits: TreeLimits) {
    && n <= |values| && Extends(p.disk, q.disk) && Overflowed(q.disk, values[..n], entries, limits)
    && OverflowsPaid(p, q, values[..n], entries)
  }

  ghost predicate AllKept(disk: Disk, values: seq<Entry>, limits: TreeLimits) {
    forall i :: 0 <= i < |values| ==> KeptEntry(disk, values[i], limits)
  }

  lemma {:induction false} KeptMore(a: Disk, c: Disk, values: seq<Entry>, limits: TreeLimits)
    requires Extends(a, c) && AllKept(a, values, limits)
    ensures AllKept(c, values, limits)
  {
    forall i | 0 <= i < |values| ensures KeptEntry(c, values[i], limits) {
      assert KeptEntry(a, values[i], limits);
    }
  }

  /** Where range `n` begins. */
  function Position(ranges: seq<Range>, n: nat): nat
    requires n <= |ranges|
  {
    if n == 0 then 0 else ranges[n - 1].end
  }

  lemma {:induction false} RangeInside(ranges: seq<Range>, count: nat, n: nat)
    requires Chained(ranges, count) && n < |ranges|
    ensures Position(ranges, n) == ranges[n].begin < ranges[n].end <= count
    decreases |ranges| - n
  {
    if n + 1 < |ranges| {
      RangeInside(ranges, count, n + 1);
    }
  }

  // ---------------------------------------------------------------- persisting

  /** A subtree has become a row of stored nodes with the same content; everything the
      row refers to was written or retained, and exactly what the subtree had clean was
      retained. */
  ghost predicate Persisted(p: Progress, q: Progress, n: Node, nodes: seq<Node>, limits: TreeLimits) {
    && Grew(p, q, nodes) && RetainsFrom(p, q, [n])
    && nodes != [] && Row(nodes, n.level) && AllStored(q.disk, nodes, limits) && FlattenAll(nodes) == Flatten(n)
    && (|nodes| == 1 && n.level > 0 && |n.children| >= 2 ==> |nodes[0].children| >= 2)
  }

  /** Nothing was written for the subtree. */
  ghost predicate LeftAlone(p: Progress, q: Progress, n: Node, nodes: seq<Node>) {
    nodes == [n] && q.written == p.written && q.disk == p.disk
  }

  ghost predicate PersistedAll(p: Progress, q: Progress, children: seq<Node>, nodes: seq<Node>, level: nat, limits: TreeLimits) {
    && Grew(p, q, nodes) && RetainsFrom(p, q, children)
    && |nodes| >= |children| && Row(nodes, level) && AllStored(q.disk, nodes, limits) && FlattenAll(nodes) == FlattenAll(children)
  }

  lemma {:induction false} PersistedNone(p: Progress, level: nat, limits: TreeLimits)
    ensures PersistedAll(p, p, [], [], level, limits)
  {
  }

  lemma {:induction false} PersistedOne(p: Progress, q: Progress, r: Progress, children: seq<Node>, nodes: seq<Node>, level: nat,
                                        c: Node, more: seq<Node>, limits: TreeLimits)
    requires PersistedAll(p, q, children, nodes, level, limits) && c.level == level && Persisted(q, r, c, more, limits)
    ensures PersistedAll(p, r, children + [c], nodes + more, level, limits)
  {
    AllStoredMore(q.disk, r.disk, nodes, limits);
    FlattenConcat(nodes, more);
    FlattenPush(children, c);
    RowConcat(nodes, more, level);
    GrewChain(p, q, r, nodes, more);
    RetainsChain(p, q, r, children, c);
  }

  lemma {:induction false} GrewChain(p: Progress, q: Progress, r: Progress, nodes: seq<Node>, more: seq<Node>)
    requires Grew(p, q, nodes) && Grew(q, r, more)
    ensures Grew(p, r, nodes + more)
  {
    forall b
      ensures Mult(r.written, b) + Mult(r.retained, b) == Mult(p.written, b) + Mult(p.retained, b) + AllAt(nodes + more, b)
    {
      AllAtConcat(nodes, more, b);
      assert Mult(q.written, b) + Mult(q.retained, b) == Mult(p.written, b) + Mult(p.retained, b) + AllAt(nodes, b);
    }
  }

  lemma {:induction false} RetainsChain(p: Progress, q: Progress, r: Progress, children: seq<Node>, c: Node)
    requires RetainsFrom(p, q, children) && RetainsFrom(q, r, [c])
    ensures RetainsFrom(p, r, children + [c])
  {
    forall b ensures Mult(r.retained, b) == Mult(p.retained, b) + CleanAll(children + [c], b) {
      CleanPush(children, c, b);
      CleanOne(c, b);
      assert Mult(q.retained, b) == Mult(p.retained, b) + CleanAll(children, b);
    }
  }

  lemma {:induction false} InnerPersisted(p: Progress, q: Progress, r: Progress, n: Node, nodes: seq<Node>, parents: seq<Node>,
                                          limits: TreeLimits)
    requires n.level > 0 && Shaped(n) && !Hollow(n) && n.dirty && parents != []
    requires PersistedAll(p, q, n.children, nodes, n.level - 1, limits)
    requires Extends(q.disk, r.disk) && r.retained == q.retained
    requires Parents(r.disk, nodes, parents, n.level, limits) && ParentsPaid(q.written, r.written, nodes, parents)
    ensures Persisted(p, r, n, parents, limits)
  {
    OnlyParent(parents);
    forall b
      ensures Mult(r.written, b) + Mult(r.retained, b) == Mult(p.written, b) + Mult(p.retained, b) + AllAt(parents, b)
      ensures Mult(r.retained, b) == Mult(p.retained, b) + CleanAll([n], b)
    {
      CleanOne(n, b);
      assert Mult(q.written, b) + Mult(q.retained, b) == Mult(p.written, b) + Mult(p.retained, b) + AllAt(nodes, b);
      assert Mult(r.written, b) + AllAt(nodes, b) == Mult(q.written, b) + AllAt(parents, b);
      assert Mult(q.retained, b) == Mult(p.retained, b) + CleanAll(n.children, b);
    }
  }

  lemma {:induction false} LeafPersisted(p: Progress, q: Progress, r: Progress, n: Node, entries: seq<Entry>, nodes: seq<Node>,
                                         limits: TreeLimits)
    requires n.level == 0 && Shaped(n) && n.dirty && nodes != []
    requires Extends(p.disk, q.disk) && KvsOf(entries) == KvsOf(n.values) && OverflowsPaid(p, q, n.values, entries)
    requires Extends(q.disk, r.disk) && r.retained == q.retained
    requires Leaves(r.disk, entries, nodes, limits) && LeavesPaid(q.written, r.written, entries, nodes)
    ensures Persisted(p, r, n, nodes, limits)
  {
    forall b
      ensures Mult(r.written, b) + Mult(r.retained, b) == Mult(p.written, b) + Mult(p.retained, b) + AllAt(nodes, b)
      ensures Mult(r.retained, b) == Mult(p.retained, b) + CleanAll([n], b)
    {
      CleanOne(n, b);
      assert Mult(q.written, b) + Mult(q.retained, b) == Mult(p.written, b) + Mult(p.retained, b) + ValuesAt(entries, b);
      assert Mult(r.written, b) + ValuesAt(entries, b) == Mult(q.written, b) + AllAt(nodes, b);
      assert Mult(q.retained, b) == Mult(p.retained, b) + ValuesAt(n.values, b);
    }
  }

  lemma {:induction false} CleanPersisted(p: Progress, q: Progress, n: Node, limits: TreeLimits)
    requires Shaped(n) && OnDisk(p.disk, n, limits)
    requires q.disk == p.disk && q.written == p.written && forall b :: Mult(q.retained, b) == Mult(p.retained, b) + UsesAt(n, b)
    ensures Persisted(p, q, n, [n], limits)
  {
    FlattenOne(n);
    forall b
      ensures AllAt([n], b) == UsesAt(n, b) && CleanAll([n], b) == UsesAt(n, b)
    {
      AllAtOne(n, b);
      CleanOne(n, b);
    }
  }

  /** Everything written came from the pool, and nothing written or retained is empty. */
  ghost predicate Ledger(free0: seq<Run>, next0: nat, free: seq<Run>, next: nat, written: seq<Run>, retained: seq<Run>) {
    TakenFrom(free0, next0, written, free, next) && Positive(written) && Positive(retained)
  }

  lemma {:induction false} LedgerMore(free0: seq<Run>, next0: nat, free: seq<Run>, next: nat, written: seq<Run>, retained: seq<Run>,
                                      at: Run, free': seq<Run>, next': nat)
    requires Ledger(free0, next0, free, next, written, retained) && at.count > 0 && next <= next'
    requires forall b :: Mult(free, b) + One(b >= next) == Mult(free', b) + One(b >= next') + One(at.start <= b < at.start + at.count)
    requires AllGen(free, 0) ==> AllGen(free', 0)
    ensures Ledger(free0, next0, free', next', written + [at], retained)
  {
    MultPush(written, at);
    forall b ensures Pool(free0, next0, b) == Pool(free', next', b) + Mult(written + [at], b) {
      assert Pool(free0, next0, b) == Pool(free, next, b) + Mult(written, b);
    }
  }

  class PageWriter {
    const layout: Layout
    const limits: TreeLimits
    var disk: Disk
    var free: seq<Run>
    var next: nat
    var written: seq<Run>
    var retained: seq<Run>
    ghost const free0: seq<Run>
    ghost const next0: nat
    ghost const disk0: Disk

    function Now(): Progress
      reads this
    {
      Progress(disk, written, retained)
    }

    ghost predicate Valid()
      reads this
    {
      && Fits(layout, limits)
      && PoolOnce(free, next) && Housed(disk, free, next) && NonEmptyRefs(disk)
      && Ledger(free0, next0, free, next, written, retained)
      && NewUnitsFit(layout, disk0, disk)
    }

    constructor (layout: Layout, limits: TreeLimits, disk: Disk, free: seq<Run>, next: nat)
      requires Fits(layout, limits) && PoolOnce(free, next) && Housed(disk, free, next) && NonEmptyRefs(disk)
      ensures Valid() && Now() == Progress(disk, [], []) && this.layout == layout && this.limits == limits
      ensures free0 == free && next0 == next && disk0 == disk
    {
      this.layout, this.limits, this.disk, this.free, this.next := layout, limits, disk, free, next;
      free0, next0, disk0 := free, next, disk;
      written, retained := [], [];
    }

    /** Write one extent into blocks of the pool, the first that fit; nothing on disk is
        disturbed. */
    method Prepare(unit: Unit) returns (at: Run)
      requires Valid() && UnitFits(layout, unit)
      modifies this
      ensures Valid() && at == Run(FitStart(old(free), old(next), layout.blocks(unit)), layout.blocks(unit), 0)
      ensures at !in old(disk) && disk == old(disk)[at := unit]
      ensures written == old(written) + [at] && retained == old(retained)
    {
      var start, free', next' := AllocateBlocks(free, next, layout.blocks(unit));
      at := Run(start, layout.blocks(unit), 0);
      PreparedHoused(disk, free, next, at, free', next');
      LedgerMore(free0, next0, free, next, written, retained, at, free', next');
      free, next := free', next';
      disk := disk[at := unit];
      written := written + [at];
    }

    /** Give a value that is too long for a page an overflow extent. */
    method StoreOverflow(v: Entry, ghost p: Progress, ghost values: seq<Entry>, ghost entries: seq<Entry>) returns (e: Entry)
      requires Valid() && KeptEntry(disk, v, limits)
      requires Overflowed(disk, values, entries, limits) && OverflowsPaid(p, Now(), values, entries)
      modifies this
      ensures Valid() && Extends(old(disk), disk)
      ensures Overflowed(disk, values + [v], entries + [e], limits) && OverflowsPaid(p, Now(), values + [v], entries + [e])
    {
      ghost var q := Now();
      e := v;
      if |v.value| > limits.maxInline && v.overflow.None? {
        var at := Prepare(OverflowValue(v.value));
        e := v.(overflow := Some(at));
        StoredEntries(q.disk, disk, entries, limits);
      } else if v.overflow.Some? {
        retained := retained + [v.overflow.value];
      }
      OneMoreEntry(disk, values, entries, limits, v, e);
      OverflowPaid(p, q, Now(), values, entries, v, e);
    }

    method StoreOverflows(values: seq<Entry>) returns (entries: seq<Entry>)
      requires Valid() && AllKept(disk, values, limits)
      modifies this
      ensures Valid() && Extends(old(disk), disk)
      ensures Overflowed(disk, values, entries, limits) && OverflowsPaid(old(Now()), Now(), values, entries)
    {
      entries := [];
      assert values[..0] == [];
      for n := 0 to |values|
        invariant Valid() && Stowed(old(Now()), Now(), values, n, entries, limits)
      {
        entries := StoreNextOverflow(values, n, entries, old(Now()));
      }
      assert values[..|values|] == values;
    }

    method StoreNextOverflow(values: seq<Entry>, n: nat, entries: seq<Entry>, ghost p: Progress) returns (entries': seq<Entry>)
      requires Valid() && n < |values| && AllKept(p.disk, values, limits) && Stowed(p, Now(), values, n, entries, limits)
      modifies this
      ensures Valid() && Stowed(p, Now(), values, n + 1, entries', limits)
    {
      ghost var was := disk;
      KeptMore(p.disk, disk, values, limits);
      var e := StoreOverflow(values[n], p, values[..n], entries);
      assert values[..n] + [values[n]] == values[..n + 1];
      ExtendsChain(p.disk, was, disk);
      entries' := entries + [e];
    }

    /** One leaf page, for the entries of one range. */
    method StoreLeaf(entries: seq<Entry>, r: Range, ghost nodes: seq<Node>, ghost before: seq<Run>)
      returns (p: Prepared, ghost node: Node)
      requires Valid() && r.begin < r.end <= |entries| && AllEntries(disk, entries, limits)
      requires LeafUsed(layout, SlotsOf(entries), r.begin, r.end) <= layout.page
      requires Leaves(disk, entries[..r.begin], nodes, limits) && LeavesPaid(before, written, entries[..r.begin], nodes)
      modifies this
      ensures Valid() && Extends(old(disk), disk) && retained == old(retained) && p == PreparedOf(node)
      ensures Leaves(disk, entries[..r.end], nodes + [node], limits)
      ensures LeavesPaid(before, written, entries[..r.end], nodes + [node])
    {
      var part := entries[r.begin..r.end];
      var page := LeafPage(SlotsOf(part));
      LeafFits(layout, entries, r);
      LeafStep(disk, entries, r, nodes, limits, before, written, page);
      var at := Prepare(page);
      p, node := Prepared(at, part[0].key, 0), LeafNode(at, part);
    }

    /** Lay entries out on leaf pages. */
    method StoreLeaves(entries: seq<Entry>) returns (row: seq<Prepared>, ghost nodes: seq<Node>)
      requires Valid() && entries != [] && AllEntries(disk, entries, limits)
      modifies this
      ensures Valid() && Extends(old(disk), disk) && retained == old(retained)
      ensures row == PreparedAll(nodes) && nodes != []
      ensures Leaves(disk, entries, nodes, limits) && LeavesPaid(old(written), written, entries, nodes)
    {
      var ranges := LeafRanges(disk, entries, layout, limits);
      row, nodes := [], [];
      for n := 0 to |ranges|
        invariant Valid() && Extends(old(disk), disk) && retained == old(retained)
        invariant row == PreparedAll(nodes) && |nodes| == n && Position(ranges, n) <= |entries|
        invariant Leaves(disk, entries[..Position(ranges, n)], nodes, limits)
        invariant LeavesPaid(old(written), written, entries[..Position(ranges, n)], nodes)
      {
        RangeInside(ranges, |entries|, n);
        StoredEntries(old(disk), disk, entries, limits);
        var p;
        ghost var node;
        p, node := StoreLeaf(entries, ranges[n], nodes, old(written));
        PreparedPush(nodes, node);
        row, nodes := row + [p], nodes + [node];
      }
      assert entries[..|entries|] == entries;
    }

    /** One internal page, for the children of one range. */
    method StoreParent(row: seq<Prepared>, r: Range, ghost nodes: seq<Node>, ghost level: nat,
                       ghost parents: seq<Node>, ghost before: seq<Run>)
      returns (p: Prepared, ghost node: Node)
      requires Valid() && r.begin < r.end <= |nodes| && row == PreparedAll(nodes)
      requires InnerUsed(layout, row, r.begin, r.end) <= layout.page
      requires ParentsSoFar(disk, nodes, r.begin, parents, level, limits, before, written)
      modifies this
      ensures Valid() && Extends(old(disk), disk) && retained == old(retained)
      ensures ParentsSoFar(disk, nodes, r.end, parents + [node], level, limits, before, written)
      ensures p == PreparedOf(node)
    {
      var page := ParentPage(row, r);
      ParentFits(layout, row, r);
      ParentStep(disk, nodes, r, parents, level, limits, before, written, page);
      var at := Prepare(page);
      node := InnerNode(at, nodes[r.begin..r.end]);
      p := Prepared(at, row[r.begin].minKey, row[r.begin].level + 1);
    }

    /** One level up: fewer nodes, the same content. */
    method BuildParents(row: seq<Prepared>, ghost nodes: seq<Node>, ghost level: nat)
      returns (above: seq<Prepared>, ghost parents: seq<Node>)
      requires Valid() && nodes != [] && row == PreparedAll(nodes) && Row(nodes, level) && AllStored(disk, nodes, limits)
      modifies this
      ensures Valid() && Extends(old(disk), disk) && retained == old(retained)
      ensures above == PreparedAll(parents) && parents != []
      ensures Parents(disk, nodes, parents, level + 1, limits) && ParentsPaid(old(written), written, nodes, parents)
      ensures |nodes| > 1 ==> |parents| < |nodes|
    {
      StoredKeysFit(disk, nodes, level, limits);
      var ranges := InnerRanges(row, layout, limits);
      above, parents := StoreParents(row, ranges, nodes, level);
    }

    method StoreParents(row: seq<Prepared>, ranges: seq<Range>, ghost nodes: seq<Node>, ghost level: nat)
      returns (above: seq<Prepared>, ghost parents: seq<Node>)
      requires Valid() && row == PreparedAll(nodes) && Row(nodes, level) && AllStored(disk, nodes, limits)
      requires Chained(ranges, |nodes|) && ranges != [] && InnerRangesFit(layout, row, ranges)
      modifies this
      ensures Valid() && Extends(old(disk), disk) && retained == old(retained)
      ensures above == PreparedAll(parents) && |parents| == |ranges|
      ensures Parents(disk, nodes, parents, level + 1, limits) && ParentsPaid(old(written), written, nodes, parents)
    {
      above, parents := [], [];
      ParentsNone(disk, nodes, level, limits, written);
      for n := 0 to |ranges|
        invariant Valid() && Extends(old(disk), disk) && retained == old(retained)
        invariant ParentsAt(disk, nodes, ranges, n, above, parents, level, limits, old(written), written)
      {
        ghost var was := disk;
        above, parents := StoreNext(row, ranges, n, above, nodes, level, parents, old(written));
        ExtendsChain(old(disk), was, disk);
      }
      assert nodes[..|nodes|] == nodes;
    }

    method StoreNext(row: seq<Prepared>, ranges: seq<Range>, n: nat, above: seq<Prepared>, ghost nodes: seq<Node>, ghost level: nat,
                     ghost parents: seq<Node>, ghost before: seq<Run>)
      returns (above': seq<Prepared>, ghost parents': seq<Node>)
      requires Valid() && row == PreparedAll(nodes) && Chained(ranges, |nodes|) && n < |ranges|
      requires InnerRangesFit(layout, row, ranges)
      requires ParentsAt(disk, nodes, ranges, n, above, parents, level, limits, before, written)
      modifies this
      ensures Valid() && Extends(old(disk), disk) && retained == old(retained)
      ensures ParentsAt(disk, nodes, ranges, n + 1, above', parents', level, limits, before, written)
    {
      RangeInside(ranges, |nodes|, n);
      var p;
      ghost var node;
      p, node := StoreParent(row, ranges[n], nodes, level, parents, before);
      PreparedPush(parents, node);
      above', parents' := above + [p], parents + [node];
    }

    method RetainValues(values: seq<Entry>)
      requires NonEmptyRefs(disk) && Positive(retained) && AllEntries(disk, values, limits)
      modifies this`retained
      ensures Positive(retained)
      ensures forall b :: Mult(retained, b) == Mult(old(retained), b) + ValuesAt(values, b)
    {
      for i := 0 to |values|
        invariant Positive(retained)
        invariant forall b :: Mult(retained, b) == Mult(old(retained), b) + ValuesAt(values[..i], b)
      {
        assert values[..i + 1][..i] == values[..i];
        assert StoredEntry(disk, values[i], limits);
        if values[i].overflow.Some? {
          MultPush(retained, values[i].overflow.value);
          retained := retained + [values[i].overflow.value];
        }
      }
      assert values[..|values|] == values;
    }

    method RetainChildren(n: Node)
      requires Shaped(n) && forall i :: 0 <= i < |n.children| ==> n.children[i].ref.Some? && OnDisk(disk, n.children[i], limits)
      requires NonEmptyRefs(disk) && Positive(retained)
      modifies this`retained
      ensures Positive(retained)
      ensures forall b :: Mult(retained, b) == Mult(old(retained), b) + AllAt(n.children, b)
      decreases n, 0
    {
      for i := 0 to |n.children|
        invariant Positive(retained)
        invariant forall b :: Mult(retained, b) == Mult(old(retained), b) + AllAt(n.children[..i], b)
      {
        assert n.children[..i + 1][..i] == n.children[..i];
        RetainSubtree(n.children[i]);
      }
      assert n.children[..|n.children|] == n.children;
    }

    /** Keep every extent of a clean subtree. */
    method RetainSubtree(n: Node)
      requires Shaped(n) && n.ref.Some? && OnDisk(disk, n, limits)
      requires NonEmptyRefs(disk) && Positive(retained)
      modifies this`retained
      ensures Positive(retained)
      ensures forall b :: Mult(retained, b) == Mult(old(retained), b) + UsesAt(n, b)
      decreases n, 1
    {
      MultPush(retained, n.ref.value);
      retained := retained + [n.ref.value];
      if n.level == 0 {
        RetainValues(n.values);
      } else {
        RetainChildren(n);
      }
    }

    method PersistClean(n: Node) returns (row: seq<Prepared>, ghost nodes: seq<Node>)
      requires Valid() && Shaped(n) && OnDisk(disk, n, limits)
      modifies this`retained
      ensures Valid() && Persisted(old(Now()), Now(), n, nodes, limits) && row == PreparedAll(nodes)
      ensures LeftAlone(old(Now()), Now(), n, nodes)
    {
      RetainSubtree(n);
      CleanPersisted(old(Now()), Now(), n, limits);
      row, nodes := [Prepared(n.ref.value, n.minKey, n.level)], [n];
      assert row == PreparedAll([n]);
    }

    /** Write a subtree: retain it if it is clean, else lay it out anew from the leaves up. */
    method Persist(n: Node) returns (row: seq<Prepared>, ghost nodes: seq<Node>)
      requires Valid() && Shaped(n) && !Hollow(n) && Tracks(disk, n, limits)
      modifies this
      ensures Valid() && Persisted(old(Now()), Now(), n, nodes, limits) && row == PreparedAll(nodes)
      ensures !n.dirty ==> LeftAlone(old(Now()), Now(), n, nodes)
      decreases n, 2
    {
      if !n.dirty {
        row, nodes := PersistClean(n);
      } else if n.level == 0 {
        row, nodes := PersistLeaf(n);
      } else {
        row, nodes := PersistInner(n);
      }
    }

    method PersistLeaf(n: Node) returns (row: seq<Prepared>, ghost nodes: seq<Node>)
      requires Valid() && Shaped(n) && !Hollow(n) && n.dirty && n.level == 0 && AllKept(disk, n.values, limits)
      modifies this
      ensures Valid() && Persisted(old(Now()), Now(), n, nodes, limits) && row == PreparedAll(nodes)
      decreases n, 1
    {
      var entries := StoreOverflows(n.values);
      ghost var q := Now();
      row, nodes := StoreLeaves(entries);
      LeafPersisted(old(Now()), q, Now(), n, entries, nodes, limits);
    }

    method PersistInner(n: Node) returns (row: seq<Prepared>, ghost nodes: seq<Node>)
      requires Valid() && Shaped(n) && !Hollow(n) && n.dirty && n.level > 0 && AllTrack(disk, n.children, limits)
      modifies this
      ensures Valid() && Persisted(old(Now()), Now(), n, nodes, limits) && row == PreparedAll(nodes)
      decreases n, 1
    {
      var below;
      ghost var children;
      below, children := PersistChildren(n);
      ghost var q := Now();
      row, nodes := BuildParents(below, children, n.level - 1);
      InnerPersisted(old(Now()), q, Now(), n, children, nodes, limits);
    }

    method PersistChildren(n: Node) returns (row: seq<Prepared>, ghost nodes: seq<Node>)
      requires Valid() && Shaped(n) && !Hollow(n) && n.level > 0 && AllTrack(disk, n.children, limits)
      modifies this
      ensures Valid() && PersistedAll(old(Now()), Now(), n.children, nodes, n.level - 1, limits) && row == PreparedAll(nodes)
      decreases n, 0, 1
    {
      row, nodes := [], [];
      PersistedNone(Now(), n.level - 1, limits);
      assert n.children[..0] == [];
      for i := 0 to |n.children|
        invariant Valid() && row == PreparedAll(nodes)
        invariant PersistedAll(old(Now()), Now(), n.children[..i], nodes, n.level - 1, limits)
      {
        var more;
        ghost var fresher;
        more, fresher := PersistChild(n, i, old(Now()), nodes);
        PreparedConcat(nodes, fresher);
        row, nodes := row + more, nodes + fresher;
      }
      assert n.children[..|n.children|] == n.children;
    }

    method PersistChild(n: Node, i: nat, ghost p: Progress, ghost nodes: seq<Node>)
      returns (row: seq<Prepared>, ghost fresher: seq<Node>)
      requires Valid() && Shaped(n) && n.level > 0 && i < |n.children| && AllTrack(p.disk, n.children, limits)
      requires PersistedAll(p, Now(), n.children[..i], nodes, n.level - 1, limits)
      modifies this
      ensures Valid() && PersistedAll(p, Now(), n.children[..i + 1], nodes + fresher, n.level - 1, limits)
      ensures row == PreparedAll(fresher)
      decreases n, 0, 0
    {
      ghost var q, done := Now(), n.children[..i];
      var c := n.children[i];
      assert done + [c] == n.children[..i + 1];
      TracksMore(p.disk, disk, c, limits);
      row, fresher := Persist(c);
      PersistedOne(p, q, Now(), done, nodes, n.level - 1, c, fresher, limits);
    }

    /** Add levels until one root is left. */
    method BuildRoot(row: seq<Prepared>, ghost nodes: seq<Node>, ghost level: nat) returns (root: Prepared, ghost top: Node)
      requires Valid() && nodes != [] && row == PreparedAll(nodes) && Row(nodes, level) && AllStored(disk, nodes, limits)
      modifies this
      ensures Valid() && Extends(old(disk), disk) && retained == old(retained) && root == PreparedOf(top)
      ensures Row([top], top.level) && OnDisk(disk, top, limits) && Flatten(top) == FlattenAll(nodes)
      ensures ParentsPaid(old(written), written, nodes, [top])
      ensures if |nodes| == 1 then top == nodes[0] && Now() == old(Now()) else top.level > 0 && |top.children| >= 2
      decreases |nodes|
    {
      if |row| == 1 {
        root, top := row[0], nodes[0];
        assert nodes == [top];
        FlattenOne(top);
        return;
      }
      var above;
      ghost var parents;
      above, parents := BuildParents(row, nodes, level);
      ghost var q := Now();
      OnlyParent(parents);
      root, top := BuildRoot(above, parents, level + 1);
      PaidChain(old(written), q.written, written, nodes, parents, [top]);
      ExtendsChain(old(disk), q.disk, disk);
    }
  }

  /** A single parent has all the children. */
  lemma {:induction false} OnlyParent(parents: seq<Node>)
    ensures |parents| == 1 ==> Grandchildren(parents) == |parents[0].children|
  {
    if |parents| == 1 {
      assert parents[..0] == [];
    }
  }

  lemma {:induction false} PaidChain(a: seq<Run>, c: seq<Run>, d: seq<Run>, nodes: seq<Node>, parents: seq<Node>, top: seq<Node>)
    requires ParentsPaid(a, c, nodes, parents) && ParentsPaid(c, d, parents, top)
    ensures ParentsPaid(a, d, nodes, top)
  {
    forall b ensures Mult(d, b) + AllAt(nodes, b) == Mult(a, b) + AllAt(top, b) {
      assert Mult(c, b) + AllAt(nodes, b) == Mult(a, b) + AllAt(parents, b);
      assert Mult(d, b) + AllAt(parents, b) == Mult(c, b) + AllAt(top, b);
    }
  }

  lemma {:induction false} PreparedConcat(a: seq<Node>, c: seq<Node>)
    ensures PreparedAll(a + c) == PreparedAll(a) + PreparedAll(c)
  {
  }

  lemma {:induction false} PreparedPush(nodes: seq<Node>, n: Node)
    ensures PreparedAll(nodes + [n]) == PreparedAll(nodes) + [PreparedOf(n)]
  {
  }

  /** The pages that hold these entries. */
  method LeafRanges(ghost disk: Disk, entries: seq<Entry>, layout: Layout, ghost limits: TreeLimits) returns (ranges: seq<Range>)
    requires entries != [] && Fits(layout, limits) && AllEntries(disk, entries, limits)
    ensures Chained(ranges, |entries|) && ranges != []
    ensures forall i :: 0 <= i < |ranges| ==> LeafUsed(layout, SlotsOf(entries), ranges[i].begin, ranges[i].end) <= layout.page
  {
    var slots := SlotsOf(entries);
    SlotsFit(disk, entries, layout, limits);
    var r;
    ghost var cuts, ends;
    r, cuts, ends := BalancedPageRanges(|slots|, layout.page, (b: nat, e: nat) => LeafUsed(layout, slots, b, e));
    ranges := r.value;
  }

  lemma {:induction false} PreparedHoused(disk: Disk, free: seq<Run>, next: nat, at: Run, free': seq<Run>, next': nat)
    requires PoolOnce(free, next) && Housed(disk, free, next) && NonEmptyRefs(disk) && at.count > 0
    requires forall b :: Mult(free, b) + One(b >= next) == Mult(free', b) + One(b >= next') + One(at.start <= b < at.start + at.count)
    ensures at !in disk && PoolOnce(free', next')
    ensures forall r, b: int :: (r in disk || r == at) && r.Has(b) ==> Pool(free', next', b) == 0
  {
    assert at.Has(at.start);
    assert Pool(free, next, at.start) >= 1;
    forall b ensures Pool(free', next', b) <= Pool(free, next, b) {
      assert Mult(free, b) + One(b >= next) == Mult(free', b) + One(b >= next') + One(at.start <= b < at.start + at.count);
    }
    forall b | at.Has(b) ensures Pool(free', next', b) == 0 {
      assert Pool(free, next, b) <= 1;
      assert Mult(free, b) + One(b >= next) == Mult(free', b) + One(b >= next') + One(at.start <= b < at.start + at.count);
    }
  }
}
