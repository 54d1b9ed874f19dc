/** Internal pages of the ordered tree: a leftmost child, then a separator and a child
    for each further subtree. */
module InternalCodec {
  import opened Basics
  import opened ByteOrder
  import opened LittleEndian
  import opened KeyPrefix
  import opened PageFormat
  import opened OrderedCodec

  datatype Child = Child(key: Key, ref: Ref)

  datatype Inner = Inner(level: nat, leftmost: Ref, children: seq<Child>)

  function ChildKeys(children: seq<Child>): (keys: seq<Key>)
    ensures |keys| == |children| && forall i :: 0 <= i < |children| ==> keys[i] == children[i].key
  {
    seq(|children|, i requires 0 <= i < |children| => children[i].key)
  }

  predicate ChildOk(c: Child, limits: Limits) { |c.key| <= limits.maxKey && RefFits(c.ref) }

  ghost predicate InnerOk(n: Inner, limits: Limits) {
    && 0 < n.level < U32 && RefFits(n.leftmost) && Ascending(ChildKeys(n.children))
    && forall i :: 0 <= i < |n.children| ==> ChildOk(n.children[i], limits)
  }

  // ---------------------------------------------------------------- entries

  function ChildEntry(c: Child, p: nat): Bytes
    requires p <= |c.key|
  {
    Encode(|c.key| - p, 4) + c.key[p..] + RefBytes(c.ref)
  }

  /** Read an entry behind a prefix.  What follows the reference is not looked at. */
  function ReadChild(e: Bytes, prefix: Bytes, limits: Limits): Option<Child> {
    if |e| < 36 || ReadAt(e, 0, 4) > |e| - 36 then None
    else
      var suffix := ReadAt(e, 0, 4);
      if |prefix| + suffix > limits.maxKey then None
      else Some(Child(prefix + e[4..4 + suffix], ReadRef(e[4 + suffix..36 + suffix])))
  }

  lemma {:induction false} ChildParts(e: Bytes, c: Child, p: nat, suffix: nat)
    requires p <= |c.key| && suffix == |c.key| - p < U32 && |e| == 36 + suffix
    ensures e == ChildEntry(c, p) <==>
            ReadAt(e, 0, 4) == suffix && e[4..4 + suffix] == c.key[p..] && e[4 + suffix..36 + suffix] == RefBytes(c.ref)
  {
    Bound4();
    FieldIs(e[0..4], suffix);
    FourParts(e, Encode(suffix, 4), c.key[p..], RefBytes(c.ref), []);
    assert e[..4] == e[0..4] && e[4 + suffix..|e|] == e[4 + suffix..36 + suffix];
    assert ChildEntry(c, p) == ChildEntry(c, p) + [];
  }

  /** The bytes of an entry that matter. */
  lemma {:induction false} ReadChildTrimmed(e: Bytes, slack: Bytes, prefix: Bytes, limits: Limits)
    requires |e| >= 36 && ReadAt(e, 0, 4) == |e| - 36
    ensures ReadChild(e + slack, prefix, limits) == ReadChild(e, prefix, limits)
  {
    var suffix := |e| - 36;
    assert (e + slack)[0..4] == e[0..4] && (e + slack)[4..4 + suffix] == e[4..4 + suffix];
    assert (e + slack)[4 + suffix..36 + suffix] == e[4 + suffix..36 + suffix];
  }

  /** An entry is read as a child exactly if it is that child's entry behind the prefix,
      possibly followed by further bytes: unlike a leaf entry, it may have slack. */
  lemma {:induction false} ReadChildExact(e: Bytes, prefix: Bytes, limits: Limits, c: Child)
    requires limits.maxKey < U32
    ensures ReadChild(e, prefix, limits) == Some(c) <==>
            && |prefix| <= |c.key| && c.key[..|prefix|] == prefix && ChildOk(c, limits)
            && |ChildEntry(c, |prefix|)| <= |e| && e[..|ChildEntry(c, |prefix|)|] == ChildEntry(c, |prefix|)
  {
    var p := |prefix|;
    if p <= |c.key| && |c.key| <= limits.maxKey {
      var suffix := |c.key| - p;
      var length := 36 + suffix;
      assert |ChildEntry(c, p)| == length;
      if length <= |e| {
        var head := e[..length];
        assert head[0..4] == e[0..4] && head[4..4 + suffix] == e[4..4 + suffix] && head[4 + suffix..length] == e[4 + suffix..length];
        ChildParts(head, c, p, suffix);
        RefExact(e[4 + suffix..length], c.ref);
        TwoParts(c.key, prefix, e[4..4 + suffix]);
      }
    }
    ReadChildKey(e, prefix, limits, c);
  }

  lemma {:induction false} ReadChildKey(e: Bytes, prefix: Bytes, limits: Limits, c: Child)
    ensures ReadChild(e, prefix, limits) == Some(c) ==>
              |prefix| <= |c.key| <= limits.maxKey && |e| >= 36 + |c.key| - |prefix| && ReadAt(e, 0, 4) == |c.key| - |prefix|
  {
  }

  // ---------------------------------------------------------------- pages

  /** What all separators have in common, nothing if there are none. */
  function InnerPrefix(children: seq<Child>): nat {
    if children == [] then 0 else Shared(ChildKeys(children))
  }

  lemma {:induction false} InnerPrefixFits(children: seq<Child>, i: nat)
    requires Ascending(ChildKeys(children)) && i < |children|
    ensures InnerPrefix(children) == Common(children[0].key, children[|children| - 1].key)
    ensures InnerPrefix(children) <= |children[i].key|
    ensures children[i].key[..InnerPrefix(children)] == children[0].key[..InnerPrefix(children)]
  {
    var keys := ChildKeys(children);
    FirstAndLast(keys);
    assert keys[i] == children[i].key && keys[0] == children[0].key;
  }

  ghost function InnerFor(n: Inner, limits: Limits): Page
    requires InnerOk(n, limits)
  {
    var p := InnerPrefix(n.children);
    assert forall i :: 0 <= i < |n.children| ==> p <= |n.children[i].key| by {
      forall i | 0 <= i < |n.children| ensures p <= |n.children[i].key| {
        InnerPrefixFits(n.children, i);
      }
    }
    Page(2, 1, n.level, if n.children == [] then [] else n.children[0].key[..p], RefBytes(n.leftmost),
         ChildEntries(n.children, p))
  }

  ghost function ChildEntries(children: seq<Child>, p: nat): (entries: seq<Bytes>)
    requires forall i :: 0 <= i < |children| ==> p <= |children[i].key|
    ensures |entries| == |children| && forall i :: 0 <= i < |children| ==> entries[i] == ChildEntry(children[i], p)
  {
    seq(|children|, i requires 0 <= i < |children| => ChildEntry(children[i], p))
  }

  /** The page of a node, with further bytes behind its entries. */
  ghost function SlackPage(n: Inner, limits: Limits, slack: seq<Bytes>): (page: Page)
    requires InnerOk(n, limits) && |slack| == |n.children|
    ensures |page.entries| == |slack|
    ensures forall i :: 0 <= i < |slack| ==> page.entries[i] == InnerFor(n, limits).entries[i] + slack[i]
  {
    var page := InnerFor(n, limits);
    page.(entries := seq(|slack|, i requires 0 <= i < |slack| => page.entries[i] + slack[i]))
  }

  /** The loader reads the page as this node. */
  ghost predicate Reads(page: Page, n: Inner, limits: Limits) {
    && page.kind == 2 && page.role == 1 && page.level == n.level > 0
    && |page.leftmost| == 32 && ReadRef(page.leftmost) == n.leftmost
    && ChildrenRead(page, n.children, limits) && |page.entries| == |n.children|
    && |page.prefix| == EndsPrefix(n.children)
  }

  /** What the first and the last separator have in common. */
  function EndsPrefix(children: seq<Child>): nat {
    if children == [] then 0 else Common(children[0].key, children[|children| - 1].key)
  }

  lemma {:induction false} EndsDecide(children: seq<Child>)
    requires Ascending(ChildKeys(children))
    ensures EndsPrefix(children) == InnerPrefix(children)
  {
    if children != [] {
      InnerPrefixFits(children, 0);
    }
  }

  ghost predicate ChildrenRead(page: Page, children: seq<Child>, limits: Limits) {
    && |children| <= |page.entries| && Ascending(ChildKeys(children))
    && forall i :: 0 <= i < |children| ==> ReadChild(page.entries[i], page.prefix, limits) == Some(children[i])
  }

  lemma {:induction false} ReadWritten(c: Child, prefix: Bytes, limits: Limits)
    requires limits.maxKey < U32 && ChildOk(c, limits) && |prefix| <= |c.key| && c.key[..|prefix|] == prefix
    ensures ReadChild(ChildEntry(c, |prefix|), prefix, limits) == Some(c)
  {
    var e := ChildEntry(c, |prefix|);
    assert e[..|e|] == e;
    ReadChildExact(e, prefix, limits, c);
  }

  lemma {:induction false} WrittenChildren(page: Page, children: seq<Child>, limits: Limits)
    requires limits.maxKey < U32 && Ascending(ChildKeys(children)) && |page.entries| == |children|
    requires children != [] ==> page.prefix == children[0].key[..InnerPrefix(children)]
    requires forall i :: 0 <= i < |children| ==> ChildOk(children[i], limits)
    requires forall i :: 0 <= i < |children| ==>
               InnerPrefix(children) <= |children[i].key| && page.entries[i] == ChildEntry(children[i], InnerPrefix(children))
    ensures ChildrenRead(page, children, limits)
  {
    forall i | 0 <= i < |children| ensures ReadChild(page.entries[i], page.prefix, limits) == Some(children[i]) {
      InnerPrefixFits(children, i);
      ReadWritten(children[i], page.prefix, limits);
    }
  }

  /** What was written is read back. */
  lemma {:induction false} WrittenReads(n: Inner, limits: Limits)
    requires InnerOk(n, limits) && limits.maxKey < U32
    ensures Reads(InnerFor(n, limits), n, limits)
  {
    var page := InnerFor(n, limits);
    assert ReadRef(page.leftmost) == n.leftmost by {
      RefExact(page.leftmost, n.leftmost);
    }
    forall i | 0 <= i < |n.children| ensures InnerPrefix(n.children) <= |n.children[i].key| {
      InnerPrefixFits(n.children, i);
    }
    WrittenChildren(page, n.children, limits);
    EndsDecide(n.children);
  }

  lemma {:induction false} ChildrenAscend(children: seq<Child>, c: Child)
    requires Ascending(ChildKeys(children)) && (children != [] ==> Less(children[|children| - 1].key, c.key))
    ensures Ascending(ChildKeys(children + [c]))
  {
    AscendingPush(ChildKeys(children), c.key);
    assert ChildKeys(children + [c]) == ChildKeys(children) + [c.key];
  }

  lemma {:induction false} ChildrenReadMore(page: Page, children: seq<Child>, limits: Limits, c: Child)
    requires ChildrenRead(page, children, limits) && |children| < |page.entries|
    requires ReadChild(page.entries[|children|], page.prefix, limits) == Some(c)
    requires children != [] ==> Less(children[|children| - 1].key, c.key)
    ensures ChildrenRead(page, children + [c], limits)
  {
    ChildrenAscend(children, c);
    var more := children + [c];
    forall i | 0 <= i < |more| ensures ReadChild(page.entries[i], page.prefix, limits) == Some(more[i]) {
      assert i < |children| ==> more[i] == children[i];
    }
  }

  /** Reading is deterministic: what has been read is the beginning of all there is. */
  lemma {:induction false} ReadSoFar(page: Page, all: seq<Child>, children: seq<Child>, limits: Limits)
    requires ChildrenRead(page, all, limits) && |all| == |page.entries| && ChildrenRead(page, children, limits)
    ensures children == all[..|children|]
    ensures |children| < |all| ==> ReadChild(page.entries[|children|], page.prefix, limits) == Some(all[|children|])
    ensures 0 < |children| < |all| ==> Less(children[|children| - 1].key, all[|children|].key)
  {
    var n := |children|;
    forall i | 0 <= i < n ensures children[i] == all[i] {
      assert ReadChild(page.entries[i], page.prefix, limits) == Some(all[i]);
    }
    if 0 < n < |all| {
      assert Less(ChildKeys(all)[n - 1], ChildKeys(all)[n]);
    }
  }

  /** All children of a page, if every entry can be read and their keys ascend. */
  method ReadChildren(page: Page, limits: Limits) returns (r: Option<seq<Child>>)
    ensures forall cs :: r == Some(cs) <==> ChildrenRead(page, cs, limits) && |cs| == |page.entries|
  {
    var children: seq<Child> := [];
    for n := 0 to |page.entries|
      invariant |children| == n && ChildrenRead(page, children, limits)
    {
      var c := ReadChild(page.entries[n], page.prefix, limits);
      if c.None? || (n > 0 && !Less(children[n - 1].key, c.value.key)) {
        forall all | ChildrenRead(page, all, limits) && |all| == |page.entries| ensures false {
          ReadSoFar(page, all, children, limits);
        }
        return None;
      }
      ChildrenReadMore(page, children, limits, c.value);
      children := children + [c.value];
    }
    forall all | ChildrenRead(page, all, limits) && |all| == |page.entries| ensures all == children {
      ReadSoFar(page, all, children, limits);
    }
    r := Some(children);
  }

  lemma {:induction false} EntrySplitAt(entry: Bytes, prefix: Bytes, limits: Limits, c: Child)
    requires limits.maxKey < U32 && ReadChild(entry, prefix, limits) == Some(c)
    ensures |prefix| <= |c.key| && c.key[..|prefix|] == prefix && ChildOk(c, limits)
    ensures var e := ChildEntry(c, |prefix|); |e| <= |entry| && entry == e + entry[|e|..]
  {
    ReadChildExact(entry, prefix, limits, c);
    var e := ChildEntry(c, |prefix|);
    assert entry == entry[..|e|] + entry[|e|..];
  }

  /** An entry read behind its prefix is the one written, and whatever is behind it. */
  lemma {:induction false} EntrySplit(page: Page, n: Inner, limits: Limits, i: nat)
    requires limits.maxKey < U32 && Reads(page, n, limits) && i < |n.children|
    ensures InnerPrefix(n.children) == |page.prefix| <= |n.children[i].key|
    ensures n.children[i].key[..|page.prefix|] == page.prefix && ChildOk(n.children[i], limits)
    ensures var e := ChildEntry(n.children[i], |page.prefix|);
            |e| <= |page.entries[i]| && page.entries[i] == e + page.entries[i][|e|..]
  {
    EndsDecide(n.children);
    EntrySplitAt(page.entries[i], page.prefix, limits, n.children[i]);
  }

  lemma {:induction false} ReadsOk(page: Page, n: Inner, limits: Limits)
    requires limits.maxKey < U32 && page.level < U32 && Reads(page, n, limits)
    ensures InnerOk(n, limits) && page.leftmost == RefBytes(n.leftmost)
  {
    RefExact(page.leftmost, n.leftmost);
    forall i | 0 <= i < |n.children| ensures ChildOk(n.children[i], limits) {
      EntrySplit(page, n, limits, i);
    }
  }

  ghost function SlackOf(page: Page, n: Inner): seq<Bytes>
    requires |page.entries| == |n.children|
  {
    seq(|n.children|, i requires 0 <= i < |n.children| =>
      var length := 36 + |n.children[i].key| - |page.prefix|;
      if 0 <= length <= |page.entries[i]| then page.entries[i][length..] else [])
  }

  lemma {:induction false} ReadsSlack(page: Page, n: Inner, limits: Limits)
    requires limits.maxKey < U32 && page.level < U32 && Reads(page, n, limits)
    ensures InnerOk(n, limits) && page == SlackPage(n, limits, SlackOf(page, n))
  {
    ReadsOk(page, n, limits);
    var written := InnerFor(n, limits);
    var slack := SlackOf(page, n);
    forall i | 0 <= i < |n.children| ensures page.entries[i] == written.entries[i] + slack[i] {
      EntrySplit(page, n, limits, i);
    }
    if n.children != [] {
      EntrySplit(page, n, limits, 0);
    }
    assert page.entries == SlackPage(n, limits, slack).entries;
  }

  /** What is behind an entry is not looked at. */
  lemma {:induction false} SlackReads(n: Inner, limits: Limits, slack: seq<Bytes>)
    requires InnerOk(n, limits) && limits.maxKey < U32 && |slack| == |n.children|
    ensures Reads(SlackPage(n, limits, slack), n, limits)
  {
    WrittenReads(n, limits);
    var written, page := InnerFor(n, limits), SlackPage(n, limits, slack);
    forall i | 0 <= i < |n.children| ensures ReadChild(page.entries[i], page.prefix, limits) == Some(n.children[i]) {
      EntryField(n, limits, i);
      ReadChildTrimmed(written.entries[i], slack[i], page.prefix, limits);
    }
  }

  /** The first field of a written entry says how long the entry is. */
  lemma {:induction false} EntryField(n: Inner, limits: Limits, i: nat)
    requires InnerOk(n, limits) && limits.maxKey < U32 && i < |n.children|
    ensures var e := InnerFor(n, limits).entries[i];
            |e| >= 36 && ReadAt(e, 0, 4) == |e| - 36
  {
    InnerPrefixFits(n.children, i);
    var c, p := n.children[i], InnerPrefix(n.children);
    ChildParts(ChildEntry(c, p), c, p, |c.key| - p);
  }

  /** The payload is the image of the node's page, with or without further bytes. */
  ghost predicate AcceptedAs(payload: Bytes, n: Inner, limits: Limits) {
    InnerOk(n, limits) && exists slack :: SlackImage(payload, n, limits, slack)
  }

  ghost predicate SlackImage(payload: Bytes, n: Inner, limits: Limits, slack: seq<Bytes>)
    requires InnerOk(n, limits)
  {
    |slack| == |n.children| && IsImage(payload, SlackPage(n, limits, slack))
  }

  lemma {:induction false} SlackImageReads(payload: Bytes, page: Page, n: Inner, limits: Limits, slack: seq<Bytes>)
    requires limits.maxKey < U32 && IsImage(payload, page) && InnerOk(n, limits) && SlackImage(payload, n, limits, slack)
    ensures page == SlackPage(n, limits, slack) && Reads(page, n, limits)
  {
    SameImage(payload, page, SlackPage(n, limits, slack));
    SlackReads(n, limits, slack);
  }

  lemma {:induction false} AcceptedIff(payload: Bytes, page: Page, n: Inner, limits: Limits)
    requires limits.maxKey < U32 && IsImage(payload, page)
    ensures AcceptedAs(payload, n, limits) <==> Reads(page, n, limits)
  {
    if Reads(page, n, limits) {
      ReadsSlack(page, n, limits);
      assert SlackImage(payload, n, limits, SlackOf(page, n));
    } else if AcceptedAs(payload, n, limits) {
      var slack :| SlackImage(payload, n, limits, slack);
      SlackImageReads(payload, page, n, limits, slack);
    }
  }

  /** Every slot is as long as the key suffix and the reference behind it need. */
  ghost predicate Tight(page: Page) {
    forall i :: 0 <= i < |page.entries| ==> |page.entries[i]| >= 4 && |page.entries[i]| == 36 + ReadAt(page.entries[i], 0, 4)
  }

  lemma {:induction false} TightIff(n: Inner, limits: Limits, slack: seq<Bytes>)
    requires InnerOk(n, limits) && limits.maxKey < U32 && |slack| == |n.children|
    ensures Tight(SlackPage(n, limits, slack)) <==> SlackPage(n, limits, slack) == InnerFor(n, limits)
  {
    var written, page := InnerFor(n, limits), SlackPage(n, limits, slack);
    forall i | 0 <= i < |slack|
      ensures |page.entries[i]| >= 4 && (|page.entries[i]| == 36 + ReadAt(page.entries[i], 0, 4) <==> slack[i] == [])
      ensures page.entries[i] == written.entries[i] <==> slack[i] == []
    {
      EntryField(n, limits, i);
      assert (written.entries[i] + slack[i])[0..4] == written.entries[i][0..4];
      assert |page.entries[i]| == |written.entries[i]| + |slack[i]|;
      if slack[i] == [] {
        assert written.entries[i] + [] == written.entries[i];
      }
    }
    if Tight(page) {
      assert page.entries == written.entries;
    }
  }

  /** An accepted page is the one that writing its node gives if and only if the length
      of every slot is that of its suffix and reference. */
  lemma {:induction false} WrittenIffTight(payload: Bytes, page: Page, n: Inner, limits: Limits)
    requires limits.maxKey < U32 && IsImage(payload, page) && AcceptedAs(payload, n, limits)
    ensures IsImage(payload, InnerFor(n, limits)) <==> Tight(page)
  {
    var slack :| SlackImage(payload, n, limits, slack);
    SlackImageReads(payload, page, n, limits, slack);
    TightIff(n, limits, slack);
    if IsImage(payload, InnerFor(n, limits)) {
      SameImage(payload, page, InnerFor(n, limits));
    }
  }

  /** Read an internal page: accepted exactly if it is the image of a node's page, with or
      without further bytes behind the entries, and then that node is returned. */
  method DecodeInner(payload: Bytes, limits: Limits) returns (r: Option<Inner>)
    requires HEADER <= |payload| < U32 && limits.maxKey < U32
    ensures forall n :: r == Some(n) <==> AcceptedAs(payload, n, limits)
  {
    var parsed := ParsePage(payload);
    if parsed.None? {
      return None;
    }
    var page := parsed.value;
    forall n ensures AcceptedAs(payload, n, limits) <==> Reads(page, n, limits) {
      AcceptedIff(payload, page, n, limits);
    }
    r := ReadInner(page, limits);
  }

  method ReadInner(page: Page, limits: Limits) returns (r: Option<Inner>)
    requires |page.leftmost| == 32
    ensures forall n :: r == Some(n) <==> Reads(page, n, limits)
  {
    if page.kind != 2 || page.role != 1 || page.level == 0 {
      return None;
    }
    var children := ReadChildren(page, limits);
    if children.None? {
      return None;
    }
    var cs := children.value;
    forall n | Reads(page, n, limits) ensures n == Inner(page.level, ReadRef(page.leftmost), cs) {
      assert children == Some(n.children);
    }
    var p := FirstAndLastPrefix(cs);
    if p != |page.prefix| {
      return None;
    }
    r := Some(Inner(page.level, ReadRef(page.leftmost), cs));
    assert Reads(page, r.value, limits);
  }

  method FirstAndLastPrefix(children: seq<Child>) returns (p: nat)
    ensures p == EndsPrefix(children)
  {
    p := 0;
    if children != [] {
      p := CommonPrefixLength(children[0].key, children[|children| - 1].key);
    }
  }

  // ---------------------------------------------------------------- writing

  /** The encoder asks for as many bytes of a separator as the prefix so far is long, also
      when the separator is shorter than that. */
  ghost predicate Overreaches(keys: seq<Key>, n: nat) {
    0 < n < |keys| && |keys[n]| < Shared(keys[..n])
  }

  lemma {:induction false} ShorterSeparator()
    ensures Ascending([[97, 98], [98]]) && Overreaches([[97, 98], [98]], 1)
  {
    var keys: seq<Key> := [[97, 98], [98]];
    assert keys[..1] == [[97, 98]];
  }

  lemma {:induction false} NotBelowPrefix(a: Key, n: nat)
    requires n <= |a|
    ensures !Less(a, a[..n])
  {
    if 0 < n {
      assert a[..n][1..] == a[1..][..n - 1];
      NotBelowPrefix(a[1..], n - 1);
    }
  }

  /** Then the separator and the first one differ before the shorter one ends, because they
      ascend; so what lies behind it makes no difference to the prefix. */
  lemma {:induction false} DiffersInside(keys: seq<Key>, n: nat, beyond: Bytes)
    requires Ascending(keys) && Overreaches(keys, n) && Shared(keys[..n]) <= |keys[n]| + |beyond|
    ensures var p := Shared(keys[..n]);
            && Common(keys[0][..p], keys[n]) < |keys[n]|
            && Common(keys[0][..p], (keys[n] + beyond)[..p]) == Common(keys[0][..p], keys[n])
  {
    var p, first, key := Shared(keys[..n]), keys[0], keys[n];
    var c := Common(first[..p], key);
    CommonIs(first[..p], key, c);
    if c == |key| {
      assert first[..p][..c] == first[..c] && key[..c] == key;
      NotBelowPrefix(first, c);
      assert false;
    }
    var long := (key + beyond)[..p];
    assert long[..c] == key[..c] && long[c] == key[c];
    CommonIs(first[..p], long, c);
  }

  /** The common prefix of the separators, key by key as the encoder finds it. */
  method SharedPrefix(children: seq<Child>) returns (p: nat)
    ensures p == InnerPrefix(children)
  {
    if children == [] {
      return 0;
    }
    p := |children[0].key|;
    assert ChildKeys(children[..1]) == [children[0].key];
    for n := 1 to |children|
      invariant p == Shared(ChildKeys(children[..n])) <= |children[0].key|
    {
      ghost var keys := ChildKeys(children[..n]);
      assert ChildKeys(children[..n + 1]) == keys + [children[n].key];
      assert (keys + [children[n].key])[..n] == keys;
      var key := children[n].key;
      p := CommonPrefixLength(children[0].key[..p], if p <= |key| then key[..p] else key);
    }
    assert children[..|children|] == children;
  }

  function ChildLength(c: Child, p: nat): nat { 4 + (if p <= |c.key| then |c.key| - p else 0) + 32 }

  function ChildrenLength(children: seq<Child>, p: nat): nat {
    if children == [] then 0
    else ChildrenLength(children[..|children| - 1], p) + ChildLength(children[|children| - 1], p)
  }

  /** The length that splitting and level building are told for these children. */
  function InnerLength(children: seq<Child>): nat {
    var p := InnerPrefix(children);
    HEADER + p + 8 * |children| + ChildrenLength(children, p)
  }

  lemma {:induction false} ChildEntriesLast(children: seq<Child>, p: nat)
    requires children != [] && forall i :: 0 <= i < |children| ==> p <= |children[i].key|
    ensures var n := |children| - 1;
            |Concat(ChildEntries(children, p))| == |Concat(ChildEntries(children[..n], p))| + |ChildEntry(children[n], p)|
  {
    var n := |children| - 1;
    ConcatPush(ChildEntries(children[..n], p), ChildEntry(children[n], p));
    assert ChildEntries(children, p) == ChildEntries(children[..n], p) + [ChildEntry(children[n], p)];
  }

  lemma {:induction false} ChildrenLengthIs(children: seq<Child>, p: nat)
    requires forall i :: 0 <= i < |children| ==> p <= |children[i].key|
    ensures ChildrenLength(children, p) == |Concat(ChildEntries(children, p))|
  {
    if children != [] {
      var n := |children| - 1;
      ChildrenLengthIs(children[..n], p);
      ChildEntriesLast(children, p);
    }
  }

  /** It is the length that is laid out. */
  lemma {:induction false} InnerLengthIs(n: Inner, limits: Limits)
    requires InnerOk(n, limits)
    ensures InnerLength(n.children) == UsedLength(InnerFor(n, limits))
  {
    forall i | 0 <= i < |n.children| ensures InnerPrefix(n.children) <= |n.children[i].key| {
      InnerPrefixFits(n.children, i);
    }
    ChildrenLengthIs(n.children, InnerPrefix(n.children));
  }

  /** The page length that splitting and level building are told, summed entry by entry. */
  method InternalUsedLength(n: Inner, ghost limits: Limits) returns (used: nat)
    requires InnerOk(n, limits)
    ensures used == InnerLength(n.children) == UsedLength(InnerFor(n, limits))
  {
    var p := SharedPrefix(n.children);
    used := HEADER + p + 8 * |n.children|;
    for i := 0 to |n.children|
      invariant used == HEADER + p + 8 * |n.children| + ChildrenLength(n.children[..i], p)
    {
      assert n.children[..i + 1][..i] == n.children[..i];
      InnerPrefixFits(n.children, i);
      used := used + 4 + |n.children[i].key| - p + 32;
    }
    assert n.children[..|n.children|] == n.children;
    InnerLengthIs(n, limits);
  }

  /** Write a node to an internal page. */
  method EncodeInner(n: Inner, size: nat, ghost limits: Limits) returns (r: Option<Bytes>)
    requires InnerOk(n, limits)
    ensures r.Some? <==> UsedLength(InnerFor(n, limits)) <= size
    ensures r.Some? ==> r.value == Image(InnerFor(n, limits), size)
  {
    var p := SharedPrefix(n.children);
    var used := InternalUsedLength(n, limits);
    if used > size {
      return None;
    }
    var entries: seq<Bytes> := [];
    for i := 0 to |n.children|
      invariant |entries| == i && forall j :: 0 <= j < i ==> entries[j] == InnerFor(n, limits).entries[j]
    {
      InnerPrefixFits(n.children, i);
      entries := entries + [ChildEntry(n.children[i], p)];
    }
    assert entries == InnerFor(n, limits).entries;
    var prefix: Bytes := [];
    if n.children != [] {
      InnerPrefixFits(n.children, 0);
      prefix := n.children[0].key[..p];
    }
    r := LayOut(Page(2, 1, n.level, prefix, RefBytes(n.leftmost), entries), size);
  }

  /** Writing a node and reading it back. */
  method InnerRoundTrip(n: Inner, size: nat, limits: Limits) returns (read: Option<Inner>)
    requires InnerOk(n, limits) && limits.maxKey < U32 && UsedLength(InnerFor(n, limits)) <= size < U32
    ensures read == Some(n)
  {
    var written := EncodeInner(n, size, limits);
    WrittenReads(n, limits);
    assert IsImage(written.value, InnerFor(n, limits));
    AcceptedIff(written.value, InnerFor(n, limits), n, limits);
    read := DecodeInner(written.value, limits);
  }

  // ---------------------------------------------------------------- a page with slack

  /** A page that is accepted and that writing its node does not give: one separator, and
      one byte more in its slot than its suffix and reference take. */
  method AcceptsSlack(size: nat, limits: Limits) returns (payload: Bytes, read: Option<Inner>)
    requires 256 <= size < U32 && 0 < limits.maxKey < U32
    ensures |payload| == size && read.Some? && InnerOk(read.value, limits)
    ensures !IsImage(payload, InnerFor(read.value, limits))
  {
    var c := Child([7], Ref(3, 1, 100, 1));
    var n := Inner(1, Ref(2, 1, 100, 1), [c]);
    OneSlack(n, c, size, limits);
    var page := Page(2, 1, 1, [7], RefBytes(n.leftmost), [ChildEntry(c, 1) + [9]]);
    var image := LayOut(page, size);
    payload := image.value;
    AcceptedIff(payload, page, n, limits);
    SlackReads(n, limits, [[9]]);
    WrittenIffTight(payload, page, n, limits);
    TightIff(n, limits, [[9]]);
    read := DecodeInner(payload, limits);
  }

  lemma {:induction false} OneSlack(n: Inner, c: Child, size: nat, limits: Limits)
    requires 256 <= size < U32
    requires n == Inner(1, Ref(2, 1, 100, 1), [c]) && c == Child([7], Ref(3, 1, 100, 1)) && 0 < limits.maxKey < U32
    ensures InnerOk(n, limits)
    ensures SlackPage(n, limits, [[9]]) == Page(2, 1, 1, [7], RefBytes(n.leftmost), [ChildEntry(c, 1) + [9]])
    ensures SlackPage(n, limits, [[9]]) != InnerFor(n, limits)
    ensures PageOk(SlackPage(n, limits, [[9]]), size)
  {
    assert ChildKeys(n.children) == [[7]];
    assert InnerPrefix(n.children) == 1;
    assert [7][..1] == [7];
    var page := SlackPage(n, limits, [[9]]);
    assert page.entries == [ChildEntry(c, 1) + [9]];
    ConcatPush([], page.entries[0]);
    assert [] + [page.entries[0]] == page.entries;
    assert page.entries[0] != InnerFor(n, limits).entries[0];
  }
}
