/** The ordered tree's share of a commit: from the loaded tree of the old generation and
    the new values to a root page from which the loader returns exactly the new values. */
module TreeCommit {
  import opened ExtentRuns
  import opened Basics
  import opened ByteOrder
  import opened SortedEntries
  import opened OrderedTree
  import opened TreeWriting
  import opened TreeLoading

  // ---------------------------------------------------------------- the difference

  function Lookup(s: seq<KV>, key: Key): Option<Value> {
    if s == [] then None
    else if s[|s| - 1].key == key then Some(s[|s| - 1].value)
    else Lookup(s[..|s| - 1], key)
  }

  lemma {:induction false} LookupFinds(s: seq<KV>, key: Key)
    requires Sorted(s)
    ensures Lookup(s, key).None? <==> !HasKey(s, key)
    ensures forall v :: Lookup(s, key) == Some(v) <==> KV(key, v) in s
  {
    if s != [] {
      var n := |s| - 1;
      DropLast(s);
      LookupFinds(s[..n], key);
      if s[n].key == key {
        forall v ensures Some(s[n].value) == Some(v) <==> KV(key, v) in s {
          if KV(key, v) in s {
            KeyOnce(s, s[n], KV(key, v));
          }
        }
      } else {
        assert HasKey(s, key) <==> HasKey(s[..n], key);
      }
    }
  }

  /** The keys, in order, that `target` no longer has. */
  function Missing(old_: seq<KV>, target: seq<KV>): seq<Key> {
    if old_ == [] then []
    else
      var n := |old_| - 1;
      if Lookup(target, old_[n].key).None? then Missing(old_[..n], target) + [old_[n].key] else Missing(old_[..n], target)
  }

  /** The keys, in order, whose value in `target` is new or another one. */
  function Fresh(old_: seq<KV>, target: seq<KV>): seq<Key> {
    if target == [] then []
    else
      var n := |target| - 1;
      if Lookup(old_, target[n].key) != Some(target[n].value) then Fresh(old_, target[..n]) + [target[n].key]
      else Fresh(old_, target[..n])
  }

  /** One tree became the other by updates of these keys, each touching only its own path. */
  ghost predicate Edited(n: Node, out: Node, keys: seq<Key>)
    decreases |keys|
  {
    if keys == [] then out == n
    else
      var last := |keys| - 1;
      exists m: Node :: Edited(n, m, keys[..last]) && OnPath(m, keys[last], out)
  }

  lemma {:induction false} EditMore(n: Node, m: Node, out: Node, keys: seq<Key>, key: Key)
    requires Edited(n, m, keys) && OnPath(m, key, out)
    ensures Edited(n, out, keys + [key])
  {
    assert (keys + [key])[..|keys|] == keys;
  }

  /** The only child took the root's place, so many times. */
  ghost predicate Promoted(n: Node, out: Node, times: nat)
    decreases times
  {
    if times == 0 then out == n
    else exists m: Node :: Promoted(n, m, times - 1) && m.level != 0 && |m.children| == 1 && out == m.children[0].(dirty := true)
  }

  lemma {:induction false} NotPromoted(n: Node, out: Node, times: nat)
    requires Promoted(n, out, times) && (n.level == 0 || |n.children| != 1)
    ensures times == 0
    decreases times
  {
    if times > 0 {
      var m: Node :| Promoted(n, m, times - 1) && m.level != 0 && |m.children| == 1 && out == m.children[0].(dirty := true);
      NotPromoted(n, m, times - 1);
    }
  }

  /** A tree in the middle of a commit. */
  ghost predicate Working(n: Node, disk: Disk, limits: TreeLimits, origin: Node) {
    && Shaped(n) && Sorted(Flatten(n)) && Tracks(disk, n, limits) && NoNewUses(origin, n)
  }

  /** Old pairs whose key is gone from `target` and that have been passed are erased. */
  ghost predicate ErasedTo(s: seq<KV>, old_: seq<KV>, target: seq<KV>, n: nat)
    requires n <= |old_|
  {
    forall e :: e in s <==> e in old_ && (HasKey(target, e.key) || e !in old_[..n])
  }

  lemma {:induction false} PrefixMore(s: seq<KV>, n: nat, e: KV)
    requires Sorted(s) && n < |s|
    ensures e in s[..n + 1] <==> e in s[..n] || e == s[n]
    ensures s[n] !in s[..n]
  {
    assert s[..n + 1] == s[..n] + [s[n]];
    if s[n] in s[..n] {
      var i :| 0 <= i < n && s[..n][i] == s[n];
      assert Less(s[i].key, s[n].key);
      LessIrreflexive(s[n].key);
    }
  }

  lemma {:induction false} EraseStep(s: seq<KV>, old_: seq<KV>, target: seq<KV>, n: nat, s': seq<KV>)
    requires Sorted(old_) && n < |old_| && ErasedTo(s, old_, target, n)
    requires if HasKey(target, old_[n].key) then s' == s else EraseRel(s, old_[n].key, s')
    ensures ErasedTo(s', old_, target, n + 1)
  {
    forall e ensures e in s' <==> e in old_ && (HasKey(target, e.key) || e !in old_[..n + 1]) {
      PrefixMore(old_, n, e);
      if e in old_ && e.key == old_[n].key {
        KeyOnce(old_, e, old_[n]);
      }
    }
  }

  lemma {:induction false} MissingMore(old_: seq<KV>, target: seq<KV>, n: nat)
    requires n < |old_|
    ensures Lookup(target, old_[n].key).None? ==> Missing(old_[..n + 1], target) == Missing(old_[..n], target) + [old_[n].key]
    ensures Lookup(target, old_[n].key).Some? ==> Missing(old_[..n + 1], target) == Missing(old_[..n], target)
  {
    assert old_[..n + 1][..n] == old_[..n];
  }

  /** The tree once the first `n` old pairs have been passed. */
  ghost predicate Erasing(root: Node, out: Node, old_: seq<KV>, target: seq<KV>, n: nat, disk: Disk, limits: TreeLimits, origin: Node) {
    && n <= |old_| && Working(out, disk, limits, origin) && ErasedTo(Flatten(out), old_, target, n)
    && Edited(root, out, Missing(old_[..n], target))
  }

  /** Erase what the new values no longer have. */
  method EraseMissing(root: Node, old_: seq<KV>, target: seq<KV>, ghost disk: Disk, ghost limits: TreeLimits, ghost origin: Node)
    returns (out: Node)
    requires Working(root, disk, limits, origin) && Flatten(root) == old_ && Sorted(old_) && Sorted(target)
    ensures Working(out, disk, limits, origin) && ErasedTo(Flatten(out), old_, target, |old_|)
    ensures Edited(root, out, Missing(old_, target))
  {
    out := root;
    assert old_[..0] == [];
    for n := 0 to |old_|
      invariant Erasing(root, out, old_, target, n, disk, limits, origin)
    {
      out := EraseNext(root, out, old_, target, n, disk, limits, origin);
    }
    assert old_[..|old_|] == old_;
  }

  method EraseNext(ghost root: Node, tree: Node, old_: seq<KV>, target: seq<KV>, n: nat, ghost disk: Disk, ghost limits: TreeLimits,
                   ghost origin: Node)
    returns (out: Node)
    requires n < |old_| && Sorted(old_) && Sorted(target) && Erasing(root, tree, old_, target, n, disk, limits, origin)
    ensures Erasing(root, out, old_, target, n + 1, disk, limits, origin)
  {
    out := tree;
    LookupFinds(target, old_[n].key);
    MissingMore(old_, target, n);
    if Lookup(target, old_[n].key).None? {
      PrefixMore(old_, n, old_[n]);
      assert old_[n] in Flatten(tree);
      HollowFlat(tree);
      var erased;
      erased, out := Erase(tree, old_[n].key, disk, limits);
      EditMore(root, tree, out, Missing(old_[..n], target), old_[n].key);
    }
    EraseStep(Flatten(tree), old_, target, n, Flatten(out));
  }

  /** New pairs that have been passed are in; kept old ones are still there. */
  ghost predicate PutTo(s: seq<KV>, old_: seq<KV>, target: seq<KV>, n: nat)
    requires n <= |target|
  {
    forall e :: e in s <==> e in target[..n] || (e in old_ && HasKey(target, e.key) && !HasKey(target[..n], e.key))
  }

  lemma {:induction false} HasKeyMore(s: seq<KV>, n: nat, k: Key)
    requires n < |s|
    ensures HasKey(s[..n + 1], k) <==> HasKey(s[..n], k) || s[n].key == k
  {
    assert s[..n + 1] == s[..n] + [s[n]];
    assert s[n] in s[..n + 1];
  }

  lemma {:induction false} NotInPrefix(s: seq<KV>, n: nat)
    requires Sorted(s) && n < |s|
    ensures !HasKey(s[..n], s[n].key)
  {
    forall e | e in s[..n] ensures e.key != s[n].key {
      var i :| 0 <= i < n && s[..n][i] == e;
      LessIrreflexive(s[n].key);
    }
  }

  lemma {:induction false} PutStep(s: seq<KV>, old_: seq<KV>, target: seq<KV>, n: nat, s': seq<KV>)
    requires Sorted(target) && Sorted(old_) && n < |target| && PutTo(s, old_, target, n)
    requires if target[n] in old_ then s' == s else PutRel(s, target[n].key, target[n].value, s')
    ensures PutTo(s', old_, target, n + 1)
  {
    NotInPrefix(target, n);
    forall e ensures e in s' <==> e in target[..n + 1] || (e in old_ && HasKey(target, e.key) && !HasKey(target[..n + 1], e.key)) {
      PrefixMore(target, n, e);
      HasKeyMore(target, n, e.key);
      assert target[n] in target && HasKey(target, target[n].key);
      if target[n] in old_ && e in old_ && e.key == target[n].key {
        KeyOnce(old_, e, target[n]);
      }
      if e in target[..n] {
        assert HasKey(target[..n], e.key);
      }
    }
  }

  lemma {:induction false} FreshMore(old_: seq<KV>, target: seq<KV>, n: nat)
    requires n < |target|
    ensures Lookup(old_, target[n].key) != Some(target[n].value) ==>
              Fresh(old_, target[..n + 1]) == Fresh(old_, target[..n]) + [target[n].key]
    ensures Lookup(old_, target[n].key) == Some(target[n].value) ==> Fresh(old_, target[..n + 1]) == Fresh(old_, target[..n])
  {
    assert target[..n + 1][..n] == target[..n];
  }

  /** The tree once the first `n` new pairs have been passed. */
  ghost predicate Putting(root: Node, out: Node, old_: seq<KV>, target: seq<KV>, n: nat, disk: Disk, limits: TreeLimits, origin: Node) {
    && n <= |target| && Working(out, disk, limits, origin) && PutTo(Flatten(out), old_, target, n)
    && (out.level > 0 ==> !Hollow(out)) && Edited(root, out, Fresh(old_, target[..n]))
  }

  /** Put what is new or changed. */
  method PutChanged(root: Node, old_: seq<KV>, target: seq<KV>, ghost disk: Disk, ghost limits: TreeLimits, ghost origin: Node)
    returns (out: Node)
    requires Working(root, disk, limits, origin) && (root.level > 0 ==> !Hollow(root))
    requires Sorted(old_) && Sorted(target) && ErasedTo(Flatten(root), old_, target, |old_|)
    requires forall e :: e in target ==> Storable(e.key, e.value, limits)
    ensures Working(out, disk, limits, origin) && Flatten(out) == target
    ensures Edited(root, out, Fresh(old_, target))
  {
    out := root;
    NothingPut(Flatten(root), old_, target);
    assert target[..0] == [];
    for n := 0 to |target|
      invariant Putting(root, out, old_, target, n, disk, limits, origin)
    {
      assert target[n] in target;
      out := PutNext(root, out, old_, target, n, disk, limits, origin);
    }
    assert target[..|target|] == target;
    AllPut(Flatten(out), old_, target);
  }

  method PutNext(ghost root: Node, tree: Node, old_: seq<KV>, target: seq<KV>, n: nat, ghost disk: Disk, ghost limits: TreeLimits,
                 ghost origin: Node)
    returns (out: Node)
    requires n < |target| && Sorted(old_) && Sorted(target) && Putting(root, tree, old_, target, n, disk, limits, origin)
    requires Storable(target[n].key, target[n].value, limits)
    ensures Putting(root, out, old_, target, n + 1, disk, limits, origin)
  {
    out := tree;
    LookupFinds(old_, target[n].key);
    FreshMore(old_, target, n);
    if Lookup(old_, target[n].key) != Some(target[n].value) {
      out := Put(tree, target[n].key, target[n].value, disk, limits);
      EditMore(root, tree, out, Fresh(old_, target[..n]), target[n].key);
    }
    assert target[n] == KV(target[n].key, target[n].value);
    PutStep(Flatten(tree), old_, target, n, Flatten(out));
  }

  lemma {:induction false} NothingPut(s: seq<KV>, old_: seq<KV>, target: seq<KV>)
    requires ErasedTo(s, old_, target, |old_|)
    ensures PutTo(s, old_, target, 0)
  {
    assert old_[..|old_|] == old_ && target[..0] == [];
  }

  lemma {:induction false} AllPut(s: seq<KV>, old_: seq<KV>, target: seq<KV>)
    requires Sorted(s) && Sorted(target) && PutTo(s, old_, target, |target|)
    ensures s == target
  {
    assert target[..|target|] == target;
    forall e ensures e in s <==> e in target { }
    SameMembers(s, target);
  }

  lemma {:induction false} HollowFlat(n: Node)
    ensures Hollow(n) ==> Flatten(n) == []
  {
  }

  // ---------------------------------------------------------------- root

  /** An internal root that has lost all its children starts over as an empty leaf. */
  function Reset(n: Node): Node {
    if n.level != 0 && n.children == [] then Node(None, [], 0, true, [], []) else n
  }

  lemma {:induction false} ResetWorks(n: Node, disk: Disk, limits: TreeLimits, origin: Node)
    requires Working(n, disk, limits, origin)
    ensures Working(Reset(n), disk, limits, origin) && Flatten(Reset(n)) == Flatten(n)
    ensures Reset(n).level > 0 ==> !Hollow(Reset(n))
  {
  }

  lemma {:induction false} Dirtied(n: Node, disk: Disk, limits: TreeLimits)
    ensures Shaped(n) ==> Shaped(n.(dirty := true))
    ensures Tracks(disk, n, limits) ==> Tracks(disk, n.(dirty := true), limits)
    ensures Flatten(n.(dirty := true)) == Flatten(n)
    ensures forall b :: UsesAt(n.(dirty := true), b) == UsesAt(n, b)
  {
    var m := n.(dirty := true);
    assert m.children == n.children && m.values == n.values && m.level == n.level && m.minKey == n.minKey && m.ref == n.ref;
    if Shaped(n) {
      assert Shaped(m);
    }
    if Tracks(disk, n, limits) {
      assert Tracks(disk, m, limits);
    }
  }

  lemma {:induction false} CollapseWorks(n: Node, disk: Disk, limits: TreeLimits, origin: Node)
    requires Working(n, disk, limits, origin) && n.level != 0 && |n.children| == 1
    ensures Working(n.children[0].(dirty := true), disk, limits, origin)
    ensures Flatten(n.children[0].(dirty := true)) == Flatten(n) && !Hollow(n.children[0].(dirty := true))
  {
    var c := n.children[0];
    assert n.children == [c];
    FlattenOne(c);
    Dirtied(c, disk, limits);
    assert Tracks(disk, n.children[0], limits) && Shaped(n.children[0]);
    forall b ensures UsesAt(c.(dirty := true), b) <= UsesAt(origin, b) {
      AllAtOne(c, b);
      assert UsesAt(n, b) <= UsesAt(origin, b);
    }
  }

  /** While the root has a single child, the child takes its place. */
  method Collapse(root: Node, ghost disk: Disk, ghost limits: TreeLimits, ghost origin: Node) returns (out: Node, ghost times: nat)
    requires Working(root, disk, limits, origin) && !Hollow(root)
    ensures Working(out, disk, limits, origin) && !Hollow(out) && Flatten(out) == Flatten(root)
    ensures (out.level == 0 || |out.children| >= 2) && Promoted(root, out, times)
  {
    out, times := root, 0;
    while out.level != 0 && |out.children| == 1
      invariant Working(out, disk, limits, origin) && !Hollow(out) && Flatten(out) == Flatten(root)
      invariant Promoted(root, out, times)
      decreases out.level
    {
      CollapseWorks(out, disk, limits, origin);
      out, times := out.children[0].(dirty := true), times + 1;
    }
  }

  // ---------------------------------------------------------------- the commit

  /** The tree as the commit finds it: loaded from the old root, or empty. */
  ghost predicate Origin(root: Node, disk: Disk, limits: TreeLimits) {
    && Shaped(root) && Sorted(Flatten(root))
    && (root.ref.Some? ==> OnDisk(disk, root, limits))
    && (root.ref.None? ==> root == Node(None, root.minKey, 0, root.dirty, [], []))
  }

  lemma {:induction false} OriginWorks(root: Node, disk: Disk, limits: TreeLimits)
    requires Origin(root, disk, limits)
    ensures Working(if root.ref.None? then root.(dirty := true) else root, disk, limits, root)
    ensures Flatten(if root.ref.None? then root.(dirty := true) else root) == Flatten(root)
  {
    if root.ref.Some? {
      StoredTracks(disk, root, limits);
    }
  }

  /** An empty tree has no page to keep. */
  function Start(root: Node): Node {
    if root.ref.None? then root.(level := 0, dirty := true) else root
  }

  /** The update of a tree erases the keys that are gone and puts those that are new or
      changed, nothing else, each touching only the path of its key; then a root without
      children starts over and an only child takes the root's place. */
  ghost predicate Updated(root: Node, old_: seq<KV>, target: seq<KV>, out: Node) {
    exists erased: Node, put: Node, times: nat ::
      && Edited(Start(root), erased, Missing(old_, target)) && Edited(Reset(erased), put, Fresh(old_, target))
      && Promoted(put, out, times) && (out.level == 0 || |out.children| >= 2)
  }

  lemma {:induction false} FindsOwn(s: seq<KV>, i: nat)
    requires Sorted(s) && i < |s|
    ensures Lookup(s, s[i].key) == Some(s[i].value)
  {
    LookupFinds(s, s[i].key);
    assert KV(s[i].key, s[i].value) in s;
  }

  lemma {:induction false} NoDifference(s: seq<KV>, n: nat)
    requires Sorted(s) && n <= |s|
    ensures Missing(s[..n], s) == [] && Fresh(s, s[..n]) == []
  {
    if n > 0 {
      assert s[..n][..n - 1] == s[..n - 1];
      NoDifference(s, n - 1);
      FindsOwn(s, n - 1);
    }
  }

  /** Where nothing differs, a stored tree is left as it is. */
  lemma {:induction false} NotUpdated(root: Node, old_: seq<KV>, out: Node)
    requires Updated(root, old_, old_, out) && Sorted(old_) && root.ref.Some? && !Hollow(root)
    requires root.level == 0 || |root.children| != 1
    ensures out == root
  {
    assert old_[..|old_|] == old_;
    NoDifference(old_, |old_|);
    var erased: Node, put: Node, times: nat :|
      && Edited(Start(root), erased, Missing(old_, old_)) && Edited(Reset(erased), put, Fresh(old_, old_))
      && Promoted(put, out, times) && (out.level == 0 || |out.children| >= 2);
    NotPromoted(put, out, times);
  }

  /** The difference-driven update of the tree. */
  method UpdateTree(root: Node, old_: seq<KV>, target: seq<KV>, ghost disk: Disk, ghost limits: TreeLimits) returns (out: Node)
    requires Origin(root, disk, limits) && Flatten(root) == old_ && Sorted(target) && target != []
    requires forall e :: e in target ==> Storable(e.key, e.value, limits)
    ensures Working(out, disk, limits, root) && !Hollow(out) && Flatten(out) == target
    ensures (out.level == 0 || |out.children| >= 2) && Updated(root, old_, target, out)
  {
    OriginWorks(root, disk, limits);
    var n := if root.ref.None? then root.(level := 0, dirty := true) else root;
    n := EraseMissing(n, old_, target, disk, limits, root);
    ghost var erased := n;
    ResetWorks(n, disk, limits, root);
    n := PutChanged(Reset(n), old_, target, disk, limits, root);
    HollowFlat(n);
    ghost var times;
    out, times := Collapse(n, disk, limits, root);
    assert Edited(Start(root), erased, Missing(old_, target)) && Promoted(n, out, times);
  }

  /** What the commit leaves on disk. */
  ghost predicate Committed(top: Node, at: Run, disk: Disk, limits: TreeLimits, target: seq<KV>) {
    && Flatten(top) == target && top.ref == Some(at) && Shaped(top) && OnDisk(disk, top, limits)
    && (top.level > 0 ==> |top.children| >= 2)
  }

  /** Commit a tree.  The pages written and the extents retained are together exactly
      what the new root refers to; retained is exactly what the updated tree still has clean,
      so only extents of the old tree; and where nothing differs nothing is written. */
  method CommitTree(w: PageWriter, root: Node, old_: seq<KV>, target: seq<KV>)
    returns (at: Option<Run>, ghost updated: Node, ghost top: Node)
    requires w.Valid() && w.written == [] && w.retained == []
    requires Origin(root, w.disk, w.limits) && Flatten(root) == old_ && Sorted(target)
    requires forall e :: e in target ==> Storable(e.key, e.value, w.limits)
    modifies w
    ensures w.Valid() && Extends(old(w.disk), w.disk)
    ensures at.None? <==> target == []
    ensures target != [] ==> Committed(top, at.value, w.disk, w.limits, target)
    ensures forall b :: Mult(w.written, b) + Mult(w.retained, b) == if at.None? then 0 else UsesAt(top, b)
    ensures forall b :: Mult(w.retained, b) <= UsesAt(root, b)
    ensures target != [] ==> Updated(root, old_, target, updated) && forall b :: Mult(w.retained, b) == CleanUses(updated, b)
    ensures target == old_ && root.ref.Some? && (root.level == 0 || |root.children| >= 2) ==> at == root.ref && w.written == []
  {
    if target == [] {
      StoredHolds(w.disk, root, w.limits);
      return None, root, root;
    }
    var n := UpdateTree(root, old_, target, w.disk, w.limits);
    updated := n;
    if target == old_ && root.ref.Some? && (root.level == 0 || |root.children| >= 2) {
      NotUpdated(root, old_, n);
    }
    ghost var p := w.Now();
    var row;
    ghost var nodes;
    row, nodes := w.Persist(n);
    ghost var q := w.Now();
    var r;
    r, top := w.BuildRoot(row, nodes, n.level);
    at := Some(r.at);
    assert [top][0] == top;
    CommitPaid(p, q, w.Now(), root, n, nodes, top);
  }

  lemma {:induction false} StoredHolds(disk: Disk, n: Node, limits: TreeLimits)
    requires Shaped(n)
    ensures OnDisk(disk, n, limits) ==> Flatten(n) != []
  {
    if OnDisk(disk, n, limits) && n.level > 0 {
      StoredHolds(disk, n.children[|n.children| - 1], limits);
    }
  }

  lemma {:induction false} CommitPaid(p: Progress, q: Progress, r: Progress, root: Node, n: Node, nodes: seq<Node>, top: Node)
    requires p.written == [] && p.retained == [] && NoNewUses(root, n)
    requires Grew(p, q, nodes) && RetainsFrom(p, q, [n]) && r.retained == q.retained
    requires ParentsPaid(q.written, r.written, nodes, [top])
    ensures forall b :: Mult(r.written, b) + Mult(r.retained, b) == UsesAt(top, b)
    ensures forall b :: Mult(r.retained, b) == CleanUses(n, b)
    ensures forall b :: Mult(r.retained, b) <= UsesAt(root, b)
  {
    forall b
      ensures Mult(r.written, b) + Mult(r.retained, b) == UsesAt(top, b)
      ensures Mult(r.retained, b) == CleanUses(n, b) && Mult(r.retained, b) <= UsesAt(root, b)
    {
      AllAtOne(top, b);
      CleanOne(n, b);
      CleanWithin(n, b);
      assert Mult(q.written, b) + Mult(q.retained, b) == AllAt(nodes, b);
      assert Mult(r.written, b) + AllAt(nodes, b) == Mult(q.written, b) + AllAt([top], b);
      assert Mult(q.retained, b) == CleanAll([n], b);
      assert UsesAt(n, b) <= UsesAt(root, b);
    }
  }

  /** Commit and reload: from the new root the loader returns exactly the new values,
      unless the tree has become deeper than the loader allows. */
  method CommitAndReload(w: PageWriter, root: Node, old_: seq<KV>, target: seq<KV>) returns (at: Option<Run>, loaded: Option<Node>)
    requires w.Valid() && w.written == [] && w.retained == []
    requires Origin(root, w.disk, w.limits) && Flatten(root) == old_ && Sorted(target)
    requires forall e :: e in target ==> Storable(e.key, e.value, w.limits)
    modifies w
    ensures at.None? <==> target == []
    ensures loaded.Some? ==> Flatten(loaded.value) == target && Origin(loaded.value, w.disk, w.limits)
    ensures at.Some? && loaded.None? ==> exists top: Node :: top.level > w.limits.maxLevel && Committed(top, at.value, w.disk, w.limits, target)
  {
    ghost var updated, top;
    at, updated, top := CommitTree(w, root, old_, target);
    loaded := None;
    if at.Some? {
      loaded := LoadRoot(w.disk, at.value, w.limits, top, target);
    }
  }

  /** Load the tree that a root names, at the level its page says. */
  method LoadRoot(disk: Disk, at: Run, limits: TreeLimits, ghost top: Node, ghost target: seq<KV>) returns (loaded: Option<Node>)
    requires Committed(top, at, disk, limits, target) && Sorted(target)
    ensures loaded.Some? ==> Flatten(loaded.value) == target && Origin(loaded.value, disk, limits)
    ensures loaded.None? <==> top.level > limits.maxLevel
  {
    var level := RootLevel(disk, at, top, limits);
    var max;
    loaded, max := LoadPage(disk, at, level, limits);
    assert level <= limits.maxLevel ==> Loadable(disk, at, level, top, limits);
  }

  /** The level an opening reads from the root page. */
  method RootLevel(disk: Disk, at: Run, ghost top: Node, ghost limits: TreeLimits) returns (level: nat)
    requires at in disk && top.ref == Some(at) && OnDisk(disk, top, limits)
    ensures level == top.level
  {
    level := if disk[at].InternalPage? then disk[at].level else 0;
  }
}
