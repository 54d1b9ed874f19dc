/** How much room the pages of the ordered tree take, by the lengths that the page formats
    compute: which limits let every entry and any two children fit a page. */
module PageLayout {
  import opened Basics
  import opened ExtentRuns
  import opened ByteOrder
  import opened PageRanges
  import PageFormat
  import opened KeyPrefix
  import opened OrderedTree
  import opened TreeWriting
  import Codec = OrderedCodec
  import Internal = InternalCodec

  function RefOfRun(r: Run): Codec.Ref { Codec.Ref(r.start, r.count, 0, r.gen) }

  function ItemOf(s: Slot): Codec.Item {
    match s
    case Inline(key, value) => Codec.Item.Inline(key, value)
    case Overflow(key, length, at) => Codec.Item.Overflow(key, length, RefOfRun(at))
  }

  function ItemsOf(slots: seq<Slot>): (items: seq<Codec.Item>)
    ensures |items| == |slots| && forall i :: 0 <= i < |slots| ==> items[i] == ItemOf(slots[i])
  {
    seq(|slots|, i requires 0 <= i < |slots| => ItemOf(slots[i]))
  }

  function ChildrenOf(rest: seq<Separator>): (children: seq<Internal.Child>)
    ensures |children| == |rest| && forall i :: 0 <= i < |rest| ==> children[i] == Internal.Child(rest[i].key, RefOfRun(rest[i].at))
  {
    seq(|rest|, i requires 0 <= i < |rest| => Internal.Child(rest[i].key, RefOfRun(rest[i].at)))
  }

  function LeafRoom(slots: seq<Slot>): nat { Codec.LeafLength(ItemsOf(slots)) }

  /** The first child has no separator. */
  function InnerRoom(rest: seq<Separator>): nat { Internal.InnerLength(ChildrenOf(rest)) }

  /** The layout of the page formats; how far a page compresses is up to the codec. */
  function FormatLayout(page: nat, blocks: Unit -> nat): Layout {
    Layout(page, LeafRoom, InnerRoom, blocks)
  }

  lemma {:induction false} CommonSelf(a: Bytes)
    ensures Common(a, a) == |a|
  {
    CommonIs(a, a, |a|);
  }

  /** One entry: its key is the prefix, and its value or reference the rest. */
  lemma {:induction false} OneEntry(s: Slot)
    ensures LeafRoom([s]) == 124 + |s.key| + if s.Inline? then |s.value| else 32
  {
    var items := ItemsOf([s]);
    assert items == [ItemOf(s)] && items[..0] == [];
    CommonSelf(s.key);
    assert Codec.ItemsLength(items[..0], |s.key|) == 0;
  }

  lemma {:induction false} OneChild()
    ensures InnerRoom([]) == 96
  {
    assert ChildrenOf([]) == [];
  }

  /** Two children: one separator, which is the prefix, and one reference. */
  lemma {:induction false} TwoChildren(s: Separator)
    ensures InnerRoom([s]) == 140 + |s.key|
  {
    var children := ChildrenOf([s]);
    assert children == [Internal.Child(s.key, RefOfRun(s.at))] && children[..0] == [];
    assert Internal.ChildKeys(children) == [s.key];
    assert Internal.ChildrenLength(children[..0], |s.key|) == 0;
  }

  function Longest(limits: TreeLimits): nat { if limits.maxInline > 32 then limits.maxInline else 32 }

  /** The limits a layout can serve: the longest key with the longest inline value, or with
      an overflow reference, takes no more than a page. */
  predicate LimitsFit(page: nat, limits: TreeLimits) {
    page < U64_MAX && 124 + limits.maxKey + Longest(limits) <= page
  }

  /** Every entry and any two children fit a page if and only if the limits do. */
  lemma {:induction false} FitsIff(page: nat, blocks: Unit -> nat, limits: TreeLimits)
    requires forall u :: blocks(u) > 0
    ensures Fits(FormatLayout(page, blocks), limits) <==> LimitsFit(page, limits)
  {
    if Fits(FormatLayout(page, blocks), limits) {
      LongestFit(page, blocks, limits);
    }
    if LimitsFit(page, limits) {
      AllFits(page, blocks, limits);
    }
  }

  lemma {:induction false} LongestFit(page: nat, blocks: Unit -> nat, limits: TreeLimits)
    requires Fits(FormatLayout(page, blocks), limits)
    ensures LimitsFit(page, limits)
  {
    var layout := FormatLayout(page, blocks);
    var key: Key, value: Bytes := PageFormat.Zeros(limits.maxKey), PageFormat.Zeros(limits.maxInline);
    var long, far := Slot.Inline(key, value), Slot.Overflow(key, 0, Run(0, 0, 0));
    OneEntry(long);
    OneEntry(far);
    assert layout.leafUsed([long]) <= page && layout.leafUsed([far]) <= page;
  }

  lemma {:induction false} AllFits(page: nat, blocks: Unit -> nat, limits: TreeLimits)
    requires LimitsFit(page, limits) && forall u :: blocks(u) > 0
    ensures Fits(FormatLayout(page, blocks), limits)
  {
    var layout := FormatLayout(page, blocks);
    forall s | SlotFits(s, limits) ensures layout.leafUsed([s]) <= layout.page {
      OneEntry(s);
    }
    OneChild();
    forall s: Separator | |s.key| <= limits.maxKey ensures layout.innerUsed([s]) <= layout.page {
      TwoChildren(s);
    }
  }

  /** The default limits fit the default page: 16 KiB less a header and a tag. */
  lemma {:induction false} DefaultsFit()
    ensures LimitsFit(16384 - 160 - 16, TreeLimits(4096, 16 * 1024 * 1024, 1024, 64))
  {
  }

  /** What is measured is what is laid out: a range of entries that is said to fit can be
      encoded. */
  lemma {:induction false} LeafEncodes(slots: seq<Slot>, page: nat, limits: Codec.Limits)
    requires Codec.LeafOk(ItemsOf(slots), limits) && LeafRoom(slots) <= page
    ensures PageFormat.UsedLength(Codec.LeafFor(ItemsOf(slots), limits)) <= page
  {
    Codec.LeafLengthIs(ItemsOf(slots), limits);
  }

  lemma {:induction false} InnerEncodes(level: nat, leftmost: Run, rest: seq<Separator>, page: nat, limits: Codec.Limits)
    requires InnerRoom(rest) <= page
    requires Internal.InnerOk(Internal.Inner(level, RefOfRun(leftmost), ChildrenOf(rest)), limits)
    ensures PageFormat.UsedLength(Internal.InnerFor(Internal.Inner(level, RefOfRun(leftmost), ChildrenOf(rest)), limits)) <= page
  {
    Internal.InnerLengthIs(Internal.Inner(level, RefOfRun(leftmost), ChildrenOf(rest)), limits);
  }
}
