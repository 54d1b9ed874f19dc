/** Loading a tree from its pages, with every check the loader makes. */
module TreeLoading {
  import opened ExtentRuns
  import opened Basics
  import opened ByteOrder
  import opened SortedEntries
  import opened OrderedTree
  import opened TreeWriting

  /** The tree that lies at a reference, if the pages there are one. */
  ghost predicate Loadable(disk: Disk, at: Run, level: nat, n: Node, limits: TreeLimits) {
    && level <= limits.maxLevel && n.level == level && n.ref == Some(at)
    && Shaped(n) && OnDisk(disk, n, limits) && Sorted(Flatten(n))
  }

  // ---------------------------------------------------------------- leaf entries

  ghost predicate EntriesFor(disk: Disk, slots: seq<Slot>, entries: seq<Entry>, limits: TreeLimits) {
    SlotsOf(entries) == slots && AllEntries(disk, entries, limits) && Sorted(KvsOf(entries))
  }

  lemma {:induction false} EntryUnique(disk: Disk, e: Entry, f: Entry, limits: TreeLimits)
    requires SlotOf(e) == SlotOf(f) && StoredEntry(disk, e, limits) && StoredEntry(disk, f, limits)
    ensures e == f
  {
  }

  lemma {:induction false} EntriesUnique(disk: Disk, a: seq<Entry>, c: seq<Entry>, limits: TreeLimits)
    requires SlotsOf(a) == SlotsOf(c) && AllEntries(disk, a, limits) && AllEntries(disk, c, limits)
    ensures a == c
  {
    assert |SlotsOf(a)| == |SlotsOf(c)|;
    forall i | 0 <= i < |a| ensures a[i] == c[i] {
      assert SlotsOf(a)[i] == SlotsOf(c)[i];
      EntryUnique(disk, a[i], c[i], limits);
    }
  }

  /** Read the value of one slot, if it is well formed. */
  method LoadEntry(disk: Disk, slot: Slot, limits: TreeLimits) returns (r: Option<Entry>)
    ensures forall e :: r == Some(e) <==> SlotOf(e) == slot && StoredEntry(disk, e, limits)
  {
    if |slot.key| > limits.maxKey {
      return None;
    }
    match slot
    case Inline(key, value) =>
      if |value| > limits.maxValue || |value| > limits.maxInline {
        return None;
      }
      r := Some(Entry(key, value, None));
    case Overflow(key, length, at) =>
      if length > limits.maxValue || length <= limits.maxInline || at !in disk
         || !disk[at].OverflowValue? || |disk[at].value| != length
      {
        return None;
      }
      r := Some(Entry(key, disk[at].value, Some(at)));
  }

  lemma {:induction false} SortedPush(s: seq<KV>, e: KV)
    requires Sorted(s)
    ensures Sorted(s + [e]) <==> s == [] || Less(s[|s| - 1].key, e.key)
  {
    if s != [] && Less(s[|s| - 1].key, e.key) {
      forall i | 0 <= i < |s| ensures Less(s[i].key, e.key) {
        if i < |s| - 1 {
          LessTransitive(s[i].key, s[|s| - 1].key, e.key);
        }
      }
    }
    if Sorted(s + [e]) && s != [] {
      assert Less((s + [e])[|s| - 1].key, (s + [e])[|s|].key);
    }
  }

  lemma {:induction false} EntriesPrefix(disk: Disk, slots: seq<Slot>, entries: seq<Entry>, limits: TreeLimits, n: nat)
    requires EntriesFor(disk, slots, entries, limits) && n <= |slots|
    ensures |entries| == |slots| && EntriesFor(disk, slots[..n], entries[..n], limits)
  {
    assert |SlotsOf(entries)| == |slots|;
    assert SlotsOf(entries[..n]) == slots[..n];
    forall i, j | 0 <= i < j < n ensures Less(KvsOf(entries[..n])[i].key, KvsOf(entries[..n])[j].key) {
      assert Less(KvsOf(entries)[i].key, KvsOf(entries)[j].key);
    }
  }

  lemma {:induction false} EntriesPush(disk: Disk, slots: seq<Slot>, n: nat, entries: seq<Entry>, e: Entry, limits: TreeLimits)
    requires n < |slots| && EntriesFor(disk, slots[..n], entries, limits)
    requires SlotOf(e) == slots[n] && StoredEntry(disk, e, limits)
    ensures EntriesFor(disk, slots[..n + 1], entries + [e], limits) <==> entries == [] || Less(entries[|entries| - 1].key, e.key)
  {
    assert slots[..n + 1] == slots[..n] + [slots[n]];
    assert SlotsOf(entries + [e]) == SlotsOf(entries) + [SlotOf(e)];
    assert KvsOf(entries + [e]) == KvsOf(entries) + [KvOf(e)];
    SortedPush(KvsOf(entries), KvOf(e));
  }

  /** Any full list of entries agrees with what has been read so far. */
  lemma {:induction false} EntriesContinue(disk: Disk, slots: seq<Slot>, n: nat, entries: seq<Entry>, all: seq<Entry>, limits: TreeLimits)
    requires n < |slots| && EntriesFor(disk, slots[..n], entries, limits) && EntriesFor(disk, slots, all, limits)
    ensures |all| == |slots| && SlotOf(all[n]) == slots[n] && StoredEntry(disk, all[n], limits)
    ensures entries == [] || Less(entries[|entries| - 1].key, all[n].key)
  {
    EntriesPrefix(disk, slots, all, limits, n);
    EntriesUnique(disk, entries, all[..n], limits);
    EntriesPrefix(disk, slots, all, limits, n + 1);
    assert SlotsOf(all)[n] == slots[n];
    assert all[..n + 1] == entries + [all[n]];
    EntriesPush(disk, slots, n, entries, all[n], limits);
  }

  method LoadEntries(disk: Disk, slots: seq<Slot>, limits: TreeLimits) returns (r: Option<seq<Entry>>)
    ensures forall entries :: r == Some(entries) <==> EntriesFor(disk, slots, entries, limits)
  {
    var entries: seq<Entry> := [];
    for n := 0 to |slots|
      invariant EntriesFor(disk, slots[..n], entries, limits)
    {
      var e := LoadEntry(disk, slots[n], limits);
      forall all: seq<Entry> | EntriesFor(disk, slots, all, limits)
        ensures |all| == |slots| && e == Some(all[n]) && (entries == [] || Less(entries[|entries| - 1].key, all[n].key))
      {
        EntriesContinue(disk, slots, n, entries, all, limits);
      }
      if e.None? {
        return None;
      }
      EntriesPush(disk, slots, n, entries, e.value, limits);
      if entries != [] && !Less(entries[|entries| - 1].key, e.value.key) {
        return None;
      }
      entries := entries + [e.value];
    }
    assert slots[..|slots|] == slots;
    forall all | EntriesFor(disk, slots, all, limits) ensures all == entries {
      EntriesUnique(disk, entries, all, limits);
    }
    r := Some(entries);
  }

  // ---------------------------------------------------------------- pages

  /** A page image determines the subtree. */
  lemma {:induction false} NodeUnique(disk: Disk, n: Node, m: Node, limits: TreeLimits)
    requires n.ref == m.ref && n.level == m.level && Shaped(n) && Shaped(m)
    requires OnDisk(disk, n, limits) && OnDisk(disk, m, limits)
    ensures n == m
    decreases n
  {
    assert PageOf(n) == PageOf(m);
    if n.level == 0 {
      EntriesUnique(disk, n.values, m.values, limits);
    } else {
      assert |SeparatorsOf(n.children[1..])| == |SeparatorsOf(m.children[1..])|;
      forall i | 0 <= i < |n.children| ensures n.children[i] == m.children[i] {
        if i > 0 {
          assert SeparatorsOf(n.children[1..])[i - 1] == SeparatorsOf(m.children[1..])[i - 1];
        }
        NodeUnique(disk, n.children[i], m.children[i], limits);
      }
    }
  }

  /** Children as the page names them; the leftmost one has no separator. */
  ghost predicate ChildrenFor(disk: Disk, refs: seq<Separator>, cs: seq<Node>, level: nat, limits: TreeLimits) {
    Named(disk, refs, cs, level, limits) && Sorted(FlattenAll(cs))
  }

  ghost predicate Named(disk: Disk, refs: seq<Separator>, cs: seq<Node>, level: nat, limits: TreeLimits) {
    && |cs| == |refs| && Row(cs, level) && AllStored(disk, cs, limits)
    && (forall i :: 0 <= i < |cs| ==> cs[i].ref == Some(refs[i].at))
    && (forall i :: 0 < i < |cs| ==> cs[i].minKey == refs[i].key)
  }

  ghost function LastKey(s: seq<KV>): Key
    requires s != []
  {
    s[|s| - 1].key
  }

  lemma {:induction false} LastOfRow(cs: seq<Node>, level: nat)
    requires Row(cs, level) && cs != []
    ensures Flatten(cs[|cs| - 1]) != [] && FlattenAll(cs) != []
    ensures LastKey(FlattenAll(cs)) == LastKey(Flatten(cs[|cs| - 1]))
  {
    FirstKey(cs[|cs| - 1]);
  }

  lemma {:induction false} SortedJoin(a: seq<KV>, c: seq<KV>)
    requires Sorted(a) && Sorted(c) && c != []
    ensures Sorted(a + c) <==> a == [] || Less(LastKey(a), c[0].key)
  {
    SortedConcat(a, c);
    if a != [] {
      if Before(a, c) {
        assert a[|a| - 1] in a && c[0] in c;
      }
      if Less(LastKey(a), c[0].key) {
        forall x, y | x in a && y in c ensures Less(x.key, y.key) {
          var i :| 0 <= i < |a| && a[i] == x;
          if i < |a| - 1 {
            LessTransitive(x.key, LastKey(a), c[0].key);
          }
          FirstIsLeast(c);
          LessLe(x.key, c[0].key, y.key);
        }
      }
    }
  }

  lemma {:induction false} SortedRowPush(cs: seq<Node>, c: Node, level: nat)
    requires Row(cs, level) && Shaped(c) && !Hollow(c) && Sorted(FlattenAll(cs)) && Sorted(Flatten(c))
    ensures cs != [] ==> FlattenAll(cs) != []
    ensures Sorted(FlattenAll(cs + [c])) <==> cs == [] || Less(LastKey(FlattenAll(cs)), c.minKey)
  {
    FirstKey(c);
    FlattenPush(cs, c);
    SortedJoin(FlattenAll(cs), Flatten(c));
    if cs != [] {
      LastOfRow(cs, level);
    }
  }

  lemma {:induction false} NamedPush(disk: Disk, refs: seq<Separator>, n: nat, cs: seq<Node>, c: Node, level: nat, limits: TreeLimits)
    requires n < |refs| && Named(disk, refs[..n], cs, level, limits)
    requires c.level == level && c.ref == Some(refs[n].at) && Shaped(c) && OnDisk(disk, c, limits)
    ensures Named(disk, refs[..n + 1], cs + [c], level, limits) <==> (n > 0 ==> c.minKey == refs[n].key)
  {
    var all, more := cs + [c], refs[..n + 1];
    assert all[n] == c && more[n] == refs[n];
    forall i | 0 <= i < n ensures all[i] == cs[i] && more[i] == refs[..n][i] { }
  }

  /** One more child keeps the row as it should be if and only if it begins where its
      separator says, after the others end. */
  lemma {:induction false} ChildrenPush(disk: Disk, refs: seq<Separator>, n: nat, cs: seq<Node>, c: Node, level: nat, limits: TreeLimits)
    requires n < |refs| && ChildrenFor(disk, refs[..n], cs, level, limits) && Loadable(disk, refs[n].at, level, c, limits)
    ensures n > 0 ==> FlattenAll(cs) != []
    ensures ChildrenFor(disk, refs[..n + 1], cs + [c], level, limits) <==>
            (n > 0 ==> c.minKey == refs[n].key && Less(LastKey(FlattenAll(cs)), c.minKey))
  {
    SortedRowPush(cs, c, level);
    NamedPush(disk, refs, n, cs, c, level, limits);
  }

  lemma {:induction false} SortedPrefix(cs: seq<Node>, n: nat)
    requires n <= |cs| && Sorted(FlattenAll(cs))
    ensures Sorted(FlattenAll(cs[..n])) && (n < |cs| ==> Sorted(Flatten(cs[n])))
  {
    if n < |cs| {
      FlattenSplit(cs, n);
      SortedParts(FlattenAll(cs[..n]), Flatten(cs[n]), FlattenAll(cs[n + 1..]));
    } else {
      assert cs[..n] == cs;
    }
  }

  lemma {:induction false} ChildrenPrefix(disk: Disk, refs: seq<Separator>, cs: seq<Node>, level: nat, limits: TreeLimits, n: nat)
    requires ChildrenFor(disk, refs, cs, level, limits) && n <= |refs|
    ensures ChildrenFor(disk, refs[..n], cs[..n], level, limits)
  {
    SortedPrefix(cs, n);
  }

  lemma {:induction false} ChildrenUnique(disk: Disk, refs: seq<Separator>, a: seq<Node>, c: seq<Node>, level: nat, limits: TreeLimits)
    requires Named(disk, refs, a, level, limits) && Named(disk, refs, c, level, limits)
    ensures a == c
  {
    forall i | 0 <= i < |a| ensures a[i] == c[i] {
      NodeUnique(disk, a[i], c[i], limits);
    }
  }

  /** Any full list of children agrees with what has been loaded so far. */
  lemma {:induction false} ChildrenContinue(disk: Disk, refs: seq<Separator>, n: nat, cs: seq<Node>, all: seq<Node>, level: nat,
                                            limits: TreeLimits)
    requires n < |refs| && level <= limits.maxLevel
    requires ChildrenFor(disk, refs[..n], cs, level, limits) && ChildrenFor(disk, refs, all, level, limits)
    ensures Loadable(disk, refs[n].at, level, all[n], limits)
    ensures n > 0 ==> all[n].minKey == refs[n].key && FlattenAll(cs) != [] && Less(LastKey(FlattenAll(cs)), all[n].minKey)
  {
    SortedPrefix(all, n);
    ChildrenPrefix(disk, refs, all, level, limits, n);
    ChildrenUnique(disk, refs[..n], cs, all[..n], level, limits);
    ChildrenPrefix(disk, refs, all, level, limits, n + 1);
    assert all[..n + 1] == cs + [all[n]];
    ChildrenPush(disk, refs, n, cs, all[n], level, limits);
  }

  // ---------------------------------------------------------------- the loader

  /** Separators in ascending order, none too long. */
  predicate Ascending(rest: seq<Separator>, limits: TreeLimits) {
    && (forall i :: 0 <= i < |rest| ==> |rest[i].key| <= limits.maxKey)
    && (forall i :: 0 < i < |rest| ==> Less(rest[i - 1].key, rest[i].key))
  }

  lemma {:induction false} MinKeysAscend(cs: seq<Node>, level: nat, i: nat)
    requires Row(cs, level) && Sorted(FlattenAll(cs)) && i + 1 < |cs|
    ensures Less(cs[i].minKey, cs[i + 1].minKey)
  {
    RowBounds(cs, level, i + 1);
    FirstKey(cs[i]);
    FlattenSplit(cs[..i + 1], i);
    assert Flatten(cs[i])[0] in FlattenAll(cs[..i + 1]);
  }

  lemma {:induction false} LoadableAscends(disk: Disk, at: Run, level: nat, n: Node, limits: TreeLimits)
    requires Loadable(disk, at, level, n, limits) && level > 0
    ensures Ascending(SeparatorsOf(n.children[1..]), limits)
  {
    var rest := SeparatorsOf(n.children[1..]);
    forall i | 0 <= i < |rest| ensures |rest[i].key| <= limits.maxKey {
      KeysFit(disk, n.children[i + 1], limits);
    }
    forall i | 0 < i < |rest| ensures Less(rest[i - 1].key, rest[i].key) {
      MinKeysAscend(n.children, level - 1, i);
    }
  }

  function RefsOf(page: Unit): seq<Separator>
    requires page.InternalPage?
  {
    [Separator([], page.leftmost)] + page.rest
  }

  /** An internal page is loadable exactly if its children are. */
  lemma {:induction false} InnerLoadable(disk: Disk, at: Run, level: nat, n: Node, limits: TreeLimits)
    requires Loadable(disk, at, level, n, limits) && level > 0
    ensures at in disk && disk[at].InternalPage? && disk[at].level == level
    ensures ChildrenFor(disk, RefsOf(disk[at]), n.children, level - 1, limits)
    ensures n == InnerNode(at, n.children) && Ascending(disk[at].rest, limits)
  {
    LoadableAscends(disk, at, level, n, limits);
    NamedByPage(disk, n, limits);
  }

  lemma {:induction false} NamedByPage(disk: Disk, n: Node, limits: TreeLimits)
    requires Shaped(n) && OnDisk(disk, n, limits) && n.level > 0
    ensures Named(disk, RefsOf(PageOf(n)), n.children, n.level - 1, limits)
  {
    var refs, cs := RefsOf(PageOf(n)), n.children;
    RefsOfChildren(cs, RefOf(cs[0]), refs);
    forall i | 0 <= i < |cs| ensures cs[i].ref == Some(refs[i].at) && (i > 0 ==> cs[i].minKey == refs[i].key) {
      assert OnDisk(disk, cs[i], limits);
    }
  }

  lemma {:induction false} RefsOfChildren(cs: seq<Node>, first: Run, refs: seq<Separator>)
    requires cs != [] && first == RefOf(cs[0]) && refs == [Separator([], first)] + SeparatorsOf(cs[1..])
    ensures |refs| == |cs| && forall i :: 0 <= i < |cs| ==> refs[i].at == RefOf(cs[i]) && (i > 0 ==> refs[i].key == cs[i].minKey)
  {
    forall i | 0 < i < |cs| ensures refs[i] == Separator(cs[i].minKey, RefOf(cs[i])) {
      assert refs[i] == SeparatorsOf(cs[1..])[i - 1] && cs[1..][i - 1] == cs[i];
    }
  }

  lemma {:induction false} InnerLoads(disk: Disk, at: Run, level: nat, cs: seq<Node>, limits: TreeLimits)
    requires 0 < level <= limits.maxLevel && at in disk && disk[at].InternalPage? && disk[at].level == level
    requires ChildrenFor(disk, RefsOf(disk[at]), cs, level - 1, limits)
    ensures Loadable(disk, at, level, InnerNode(at, cs), limits)
  {
    var n, refs := InnerNode(at, cs), RefsOf(disk[at]);
    assert refs[0].at == disk[at].leftmost;
    forall i | 0 <= i < |disk[at].rest| ensures SeparatorsOf(cs[1..])[i] == disk[at].rest[i] {
      assert refs[i + 1] == disk[at].rest[i] && cs[i + 1].minKey == refs[i + 1].key;
    }
    assert SeparatorsOf(cs[1..]) == disk[at].rest;
  }

  lemma {:induction false} LeafLoadable(disk: Disk, at: Run, n: Node, limits: TreeLimits)
    requires Loadable(disk, at, 0, n, limits)
    ensures at in disk && disk[at].LeafPage? && disk[at].slots != []
    ensures EntriesFor(disk, disk[at].slots, n.values, limits) && n.values != [] && n == LeafNode(at, n.values)
  {
  }

  /** Load the tree at a reference, and its greatest key.  The loader returns a tree
      exactly when the pages are one. */
  method LoadPage(disk: Disk, at: Run, level: nat, limits: TreeLimits) returns (r: Option<Node>, max: Key)
    ensures forall n :: r == Some(n) <==> Loadable(disk, at, level, n, limits)
    ensures r.Some? ==> Flatten(r.value) != [] && max == LastKey(Flatten(r.value))
    decreases level, 2
  {
    max := [];
    if level > limits.maxLevel || at !in disk {
      return None, max;
    }
    if level == 0 {
      r, max := LoadLeaf(disk, at, limits);
    } else {
      r, max := LoadInner(disk, at, level, limits);
    }
  }

  method LoadLeaf(disk: Disk, at: Run, limits: TreeLimits) returns (r: Option<Node>, max: Key)
    requires at in disk
    ensures forall n :: r == Some(n) <==> Loadable(disk, at, 0, n, limits)
    ensures r.Some? ==> Flatten(r.value) != [] && max == LastKey(Flatten(r.value))
    decreases 0, 1
  {
    forall n | Loadable(disk, at, 0, n, limits)
      ensures disk[at].LeafPage? && disk[at].slots != []
      ensures EntriesFor(disk, disk[at].slots, n.values, limits) && n.values != [] && n == LeafNode(at, n.values)
    {
      LeafLoadable(disk, at, n, limits);
    }
    max := [];
    if !disk[at].LeafPage? || disk[at].slots == [] {
      return None, max;
    }
    var entries := LoadEntries(disk, disk[at].slots, limits);
    if entries.None? {
      return None, max;
    }
    var es := entries.value;
    assert |SlotsOf(es)| == |es|;
    assert Loadable(disk, at, 0, LeafNode(at, es), limits);
    r, max := Some(LeafNode(at, es)), es[|es| - 1].key;
  }

  method LoadInner(disk: Disk, at: Run, level: nat, limits: TreeLimits) returns (r: Option<Node>, max: Key)
    requires at in disk && 0 < level <= limits.maxLevel
    ensures forall n :: r == Some(n) <==> Loadable(disk, at, level, n, limits)
    ensures r.Some? ==> Flatten(r.value) != [] && max == LastKey(Flatten(r.value))
    decreases level, 1
  {
    forall n | Loadable(disk, at, level, n, limits)
      ensures disk[at].InternalPage? && disk[at].level == level && Ascending(disk[at].rest, limits)
      ensures ChildrenFor(disk, RefsOf(disk[at]), n.children, level - 1, limits) && n == InnerNode(at, n.children)
    {
      InnerLoadable(disk, at, level, n, limits);
    }
    max := [];
    if !disk[at].InternalPage? || disk[at].level != level || !Ascending(disk[at].rest, limits) {
      return None, max;
    }
    var cs;
    cs, max := LoadChildren(disk, RefsOf(disk[at]), level - 1, limits);
    if cs.None? {
      return None, max;
    }
    InnerLoads(disk, at, level, cs.value, limits);
    r := Some(InnerNode(at, cs.value));
  }

  method LoadChildren(disk: Disk, refs: seq<Separator>, level: nat, limits: TreeLimits) returns (r: Option<seq<Node>>, max: Key)
    requires refs != [] && level <= limits.maxLevel
    ensures forall cs :: r == Some(cs) <==> ChildrenFor(disk, refs, cs, level, limits)
    ensures r.Some? ==> FlattenAll(r.value) != [] && max == LastKey(FlattenAll(r.value))
    decreases level, 3
  {
    var cs: seq<Node> := [];
    max := [];
    for n := 0 to |refs|
      invariant ChildrenFor(disk, refs[..n], cs, level, limits)
      invariant n > 0 ==> FlattenAll(cs) != [] && max == LastKey(FlattenAll(cs))
    {
      var c, last := LoadPage(disk, refs[n].at, level, limits);
      forall all: seq<Node> | ChildrenFor(disk, refs, all, level, limits)
        ensures |all| == |refs| && c == Some(all[n])
        ensures n > 0 ==> all[n].minKey == refs[n].key && Less(max, all[n].minKey)
      {
        ChildrenContinue(disk, refs, n, cs, all, level, limits);
      }
      if c.None? {
        return None, max;
      }
      ChildrenPush(disk, refs, n, cs, c.value, level, limits);
      if n > 0 && c.value.minKey != refs[n].key {
        return None, max;
      }
      if n > 0 && !Less(max, c.value.minKey) {
        return None, max;
      }
      cs, max := cs + [c.value], last;
      LastOfRow(cs, level);
    }
    assert refs[..|refs|] == refs;
    forall all | ChildrenFor(disk, refs, all, level, limits) ensures all == cs {
      ChildrenUnique(disk, refs, cs, all, level, limits);
    }
    r := Some(cs);
  }
}
