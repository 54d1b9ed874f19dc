/** Range cursors over a tree: a path of child indexes and a place in a leaf. */
module Cursor {
  import opened Basics
  import opened ByteOrder
  import opened SortedEntries
  import opened OrderedTree

  // ---------------------------------------------------------------- paths

  ghost predicate PathOk(n: Node, path: seq<nat>)
    decreases path
  {
    path == [] || (n.level > 0 && path[0] < |n.children| && PathOk(n.children[path[0]], path[1..]))
  }

  function NodeAt(n: Node, path: seq<nat>): Node
    requires PathOk(n, path)
    decreases path
  {
    if path == [] then n else NodeAt(n.children[path[0]], path[1..])
  }

  /** What lies left of the node at a path, and what lies right of it. */
  ghost function LeftOf(n: Node, path: seq<nat>): seq<KV>
    requires PathOk(n, path)
    decreases path
  {
    if path == [] then [] else FlattenAll(n.children[..path[0]]) + LeftOf(n.children[path[0]], path[1..])
  }

  ghost function RightOf(n: Node, path: seq<nat>): seq<KV>
    requires PathOk(n, path)
    decreases path
  {
    if path == [] then [] else RightOf(n.children[path[0]], path[1..]) + FlattenAll(n.children[path[0] + 1..])
  }

  lemma {:induction false} AroundPath(n: Node, path: seq<nat>)
    requires PathOk(n, path)
    ensures Flatten(n) == LeftOf(n, path) + Flatten(NodeAt(n, path)) + RightOf(n, path)
    decreases path
  {
    if path != [] {
      AroundPath(n.children[path[0]], path[1..]);
      FlattenSplit(n.children, path[0]);
    }
  }

  lemma {:induction false} Counted(n: Node, path: seq<nat>)
    requires PathOk(n, path)
    ensures |Flatten(n)| == |LeftOf(n, path)| + |Flatten(NodeAt(n, path))| + |RightOf(n, path)|
    ensures NodeAt(n, path).level == 0 ==> |Flatten(NodeAt(n, path))| == |NodeAt(n, path).values|
  {
    AroundPath(n, path);
  }

  lemma {:induction false} PathShape(n: Node, path: seq<nat>)
    requires PathOk(n, path) && Shaped(n)
    ensures Shaped(NodeAt(n, path)) && NodeAt(n, path).level + |path| == n.level
    ensures path != [] ==> !Hollow(NodeAt(n, path))
    decreases path
  {
    if path != [] {
      PathShape(n.children[path[0]], path[1..]);
    }
  }

  /** One step further down. */
  lemma {:induction false} PathPush(n: Node, path: seq<nat>, i: nat)
    requires PathOk(n, path) && NodeAt(n, path).level > 0 && i < |NodeAt(n, path).children|
    ensures PathOk(n, path + [i]) && NodeAt(n, path + [i]) == NodeAt(n, path).children[i]
    decreases path
  {
    if path == [] {
      assert (path + [i])[1..] == [];
    } else {
      PathPush(n.children[path[0]], path[1..], i);
      assert (path + [i])[1..] == path[1..] + [i];
    }
  }

  lemma {:induction false} LeftPush(n: Node, path: seq<nat>, i: nat)
    requires PathOk(n, path) && NodeAt(n, path).level > 0 && i < |NodeAt(n, path).children| && PathOk(n, path + [i])
    ensures LeftOf(n, path + [i]) == LeftOf(n, path) + FlattenAll(NodeAt(n, path).children[..i])
    decreases path
  {
    if path == [] {
      assert (path + [i])[1..] == [];
    } else {
      assert (path + [i])[1..] == path[1..] + [i];
      LeftPush(n.children[path[0]], path[1..], i);
    }
  }

  lemma {:induction false} RightPush(n: Node, path: seq<nat>, i: nat)
    requires PathOk(n, path) && NodeAt(n, path).level > 0 && i < |NodeAt(n, path).children| && PathOk(n, path + [i])
    ensures RightOf(n, path + [i]) == FlattenAll(NodeAt(n, path).children[i + 1..]) + RightOf(n, path)
    decreases path
  {
    if path == [] {
      assert (path + [i])[1..] == [];
    } else {
      var c := n.children[path[0]];
      assert (path + [i])[1..] == path[1..] + [i];
      RightPush(c, path[1..], i);
      var here, above, beside := FlattenAll(NodeAt(c, path[1..]).children[i + 1..]), RightOf(c, path[1..]), FlattenAll(n.children[path[0] + 1..]);
      assert (here + above) + beside == here + (above + beside);
    }
  }

  lemma {:induction false} PathPrefix(n: Node, path: seq<nat>, d: nat)
    requires PathOk(n, path) && d <= |path|
    ensures PathOk(n, path[..d])
    decreases path
  {
    if d > 0 {
      PathPrefix(n.children[path[0]], path[1..], d - 1);
      assert path[..d][1..] == path[1..][..d - 1];
    }
  }

  /** The step that leads from depth `d` to depth `d + 1`. */
  lemma {:induction false} PathStep(n: Node, path: seq<nat>, d: nat)
    requires PathOk(n, path) && d < |path|
    ensures PathOk(n, path[..d]) && NodeAt(n, path[..d]).level > 0 && path[d] < |NodeAt(n, path[..d]).children|
    ensures path[..d + 1] == path[..d] + [path[d]]
    decreases path
  {
    if d > 0 {
      PathStep(n.children[path[0]], path[1..], d - 1);
      assert path[..d][1..] == path[1..][..d - 1];
    }
  }

  // ---------------------------------------------------------------- positions

  /** The first index whose key is not below `k`. */
  ghost function LowerIndex(s: seq<KV>, k: Key): (p: nat)
    requires Sorted(s)
    ensures p <= |s|
    ensures forall i :: 0 <= i < p ==> Less(s[i].key, k)
    ensures forall i :: p <= i < |s| ==> Le(k, s[i].key)
  {
    if s == [] then 0
    else
      var n := |s| - 1;
      DropLast(s);
      var p := LowerIndex(s[..n], k);
      if p < n then
        assert Less(s[p].key, s[n].key);
        LeLess(k, s[p].key, s[n].key);
        LessAsymmetric(k, s[n].key);
        p
      else if Less(s[n].key, k) then n + 1 else n
  }

  lemma {:induction false} LowerIndexIs(s: seq<KV>, k: Key, p: nat)
    requires Sorted(s) && p <= |s|
    requires (forall i :: 0 <= i < p ==> Less(s[i].key, k)) && (p < |s| ==> Le(k, s[p].key))
    ensures p == LowerIndex(s, k)
  {
    var q := LowerIndex(s, k);
    assert q == |s| || Le(k, s[q].key);
    assert p == |s| || Le(k, s[p].key);
  }

  // ---------------------------------------------------------------- descending

  /** Follow first children down to a leaf; nothing is left of it that was not left before. */
  method DownLeft(root: Node, path: seq<nat>) returns (out: seq<nat>)
    requires Shaped(root) && PathOk(root, path) && !Hollow(NodeAt(root, path))
    ensures PathOk(root, out) && NodeAt(root, out).level == 0 && !Hollow(NodeAt(root, out))
    ensures LeftOf(root, out) == LeftOf(root, path)
  {
    out := path;
    PathShape(root, out);
    while NodeAt(root, out).level != 0
      invariant PathOk(root, out) && Shaped(NodeAt(root, out)) && !Hollow(NodeAt(root, out))
      invariant LeftOf(root, out) == LeftOf(root, path)
      decreases NodeAt(root, out).level
    {
      PathPush(root, out, 0);
      LeftPush(root, out, 0);
      assert FlattenAll(NodeAt(root, out).children[..0]) == [];
      out := out + [0];
    }
  }

  lemma {:induction false} RightmostPush(root: Node, path: seq<nat>)
    requires PathOk(root, path) && Shaped(NodeAt(root, path)) && !Hollow(NodeAt(root, path)) && NodeAt(root, path).level > 0
    ensures PathOk(root, Rightmost(root, path)) && RightOf(root, Rightmost(root, path)) == RightOf(root, path)
    ensures var c := NodeAt(root, Rightmost(root, path));
            Shaped(c) && !Hollow(c) && c.level + 1 == NodeAt(root, path).level
  {
    var n := NodeAt(root, path);
    var i := |n.children| - 1;
    PathPush(root, path, i);
    RightPush(root, path, i);
    assert n.children[i + 1..] == [];
  }

  function Rightmost(root: Node, path: seq<nat>): seq<nat>
    requires PathOk(root, path) && NodeAt(root, path).children != []
  {
    path + [|NodeAt(root, path).children| - 1]
  }

  /** Follow last children down to a leaf. */
  method DownRight(root: Node, path: seq<nat>) returns (out: seq<nat>)
    requires Shaped(root) && PathOk(root, path) && !Hollow(NodeAt(root, path))
    ensures PathOk(root, out) && NodeAt(root, out).level == 0 && !Hollow(NodeAt(root, out))
    ensures RightOf(root, out) == RightOf(root, path)
  {
    out := path;
    PathShape(root, out);
    while NodeAt(root, out).level != 0
      invariant PathOk(root, out) && Shaped(NodeAt(root, out)) && !Hollow(NodeAt(root, out))
      invariant RightOf(root, out) == RightOf(root, path)
      decreases NodeAt(root, out).level
    {
      RightmostPush(root, out);
      out := Rightmost(root, out);
    }
  }

  method LastLeaf(root: Node) returns (path: seq<nat>)
    requires Shaped(root) && !Hollow(root)
    ensures PathOk(root, path) && NodeAt(root, path).level == 0 && NodeAt(root, path).values != []
    ensures |LeftOf(root, path)| + |NodeAt(root, path).values| == |Flatten(root)|
  {
    path := DownRight(root, []);
    Counted(root, path);
  }

  /** Everything left of the path is below the key sought, everything right is above. */
  ghost predicate Straddles(root: Node, path: seq<nat>, key: Key)
    requires PathOk(root, path)
  {
    AllBelow(LeftOf(root, path), key) && AllAbove(RightOf(root, path), key)
  }

  lemma {:induction false} StraddlesPush(root: Node, path: seq<nat>, i: nat, key: Key)
    requires Shaped(root) && Sorted(Flatten(root)) && PathOk(root, path) && Straddles(root, path, key)
    requires NodeAt(root, path).level > 0 && i < |NodeAt(root, path).children|
    requires i > 0 ==> Le(NodeAt(root, path).children[i].minKey, key)
    requires i + 1 < |NodeAt(root, path).children| ==> Less(key, NodeAt(root, path).children[i + 1].minKey)
    ensures PathOk(root, path + [i]) && Straddles(root, path + [i], key)
  {
    var n := NodeAt(root, path);
    PathShape(root, path);
    AroundPath(root, path);
    SortedParts(LeftOf(root, path), Flatten(n), RightOf(root, path));
    ChildHolds(n.children, n.level - 1, i, key);
    PathPush(root, path, i);
    LeftPush(root, path, i);
    RightPush(root, path, i);
  }

  /** Search down to the leaf whose range holds the key. */
  method DownTo(root: Node, key: Key) returns (path: seq<nat>)
    requires Shaped(root) && !Hollow(root) && Sorted(Flatten(root))
    ensures PathOk(root, path) && NodeAt(root, path).level == 0 && !Hollow(NodeAt(root, path))
    ensures Straddles(root, path, key)
  {
    path := [];
    while NodeAt(root, path).level != 0
      invariant PathOk(root, path) && !Hollow(NodeAt(root, path)) && Straddles(root, path, key)
      decreases NodeAt(root, path).level
    {
      PathShape(root, path);
      var i := ChildFor(NodeAt(root, path), key);
      StraddlesPush(root, path, i, key);
      PathPush(root, path, i);
      path := path + [i];
    }
  }

  // ---------------------------------------------------------------- stepping between leaves

  /** Below depth `d` the path takes the last child everywhere. */
  ghost predicate LastBelow(root: Node, path: seq<nat>, d: nat)
    requires PathOk(root, path) && d <= |path| && PathOk(root, path[..d])
  {
    RightOf(root, path) == RightOf(root, path[..d])
  }

  ghost predicate FirstBelow(root: Node, path: seq<nat>, d: nat)
    requires PathOk(root, path) && d <= |path| && PathOk(root, path[..d])
  {
    LeftOf(root, path) == LeftOf(root, path[..d])
  }

  /** The part of the path at depth `d` is a last child: go one up. */
  lemma {:induction false} LastUp(root: Node, path: seq<nat>, d: nat)
    requires PathOk(root, path) && d < |path| && PathOk(root, path[..d + 1]) && LastBelow(root, path, d + 1)
    requires PathOk(root, path[..d]) && path[d] + 1 == |NodeAt(root, path[..d]).children|
    ensures LastBelow(root, path, d)
  {
    PathStep(root, path, d);
    RightPush(root, path[..d], path[d]);
    assert NodeAt(root, path[..d]).children[path[d] + 1..] == [];
  }

  lemma {:induction false} FirstUp(root: Node, path: seq<nat>, d: nat)
    requires PathOk(root, path) && d < |path| && PathOk(root, path[..d + 1]) && FirstBelow(root, path, d + 1)
    requires PathOk(root, path[..d]) && path[d] == 0
    ensures FirstBelow(root, path, d)
  {
    PathStep(root, path, d);
    LeftPush(root, path[..d], 0);
    assert NodeAt(root, path[..d]).children[..0] == [];
  }

  /** The next sibling begins where this part of the path ends. */
  lemma {:induction false} NextSibling(root: Node, path: seq<nat>, d: nat)
    requires PathOk(root, path) && d < |path| && PathOk(root, path[..d + 1]) && LastBelow(root, path, d + 1)
    requires PathOk(root, path[..d]) && path[d] + 1 < |NodeAt(root, path[..d]).children|
    ensures PathOk(root, path[..d] + [path[d] + 1])
    ensures |LeftOf(root, path[..d] + [path[d] + 1])| == |LeftOf(root, path)| + |Flatten(NodeAt(root, path))|
  {
    var p, i := path[..d], path[d];
    PathStep(root, path, d);
    var n := NodeAt(root, p);
    PathPush(root, p, i + 1);
    LeftPush(root, p, i);
    LeftPush(root, p, i + 1);
    AroundPath(root, path);
    AroundPath(root, p + [i]);
    PathPush(root, p, i);
    assert n.children[..i + 1][..i] == n.children[..i];
  }

  /** This part of the path begins where the previous sibling ends. */
  lemma {:induction false} PreviousSibling(root: Node, path: seq<nat>, d: nat)
    requires PathOk(root, path) && d < |path| && PathOk(root, path[..d + 1]) && FirstBelow(root, path, d + 1)
    requires PathOk(root, path[..d]) && path[d] > 0
    ensures PathOk(root, path[..d] + [path[d] - 1])
    ensures |RightOf(root, path[..d] + [path[d] - 1])| + |LeftOf(root, path)| == |Flatten(root)|
  {
    var p, i := path[..d], path[d];
    PathStep(root, path, d);
    var n := NodeAt(root, p);
    PathPush(root, p, i - 1);
    PathPush(root, p, i);
    LeftPush(root, p, i);
    LeftPush(root, p, i - 1);
    AroundPath(root, p + [i - 1]);
    assert n.children[..i][..i - 1] == n.children[..i - 1];
  }

  method IntoNextSibling(root: Node, path: seq<nat>, d: nat) returns (out: seq<nat>)
    requires Shaped(root) && PathOk(root, path) && d < |path| && PathOk(root, path[..d + 1]) && LastBelow(root, path, d + 1)
    requires PathOk(root, path[..d]) && path[d] + 1 < |NodeAt(root, path[..d]).children|
    ensures PathOk(root, out) && NodeAt(root, out).level == 0 && !Hollow(NodeAt(root, out))
    ensures |LeftOf(root, out)| == |LeftOf(root, path)| + |Flatten(NodeAt(root, path))|
    ensures RightOf(root, path) != []
  {
    NextSibling(root, path, d);
    var next := path[..d] + [path[d] + 1];
    PathShape(root, next);
    out := DownLeft(root, next);
    NextIsThere(root, path, out);
  }

  method IntoPreviousSibling(root: Node, path: seq<nat>, d: nat) returns (out: seq<nat>)
    requires Shaped(root) && PathOk(root, path) && d < |path| && PathOk(root, path[..d + 1]) && FirstBelow(root, path, d + 1)
    requires PathOk(root, path[..d]) && path[d] > 0
    ensures PathOk(root, out) && NodeAt(root, out).level == 0 && !Hollow(NodeAt(root, out))
    ensures |LeftOf(root, out)| + |Flatten(NodeAt(root, out))| == |LeftOf(root, path)|
    ensures LeftOf(root, path) != []
  {
    PreviousSibling(root, path, d);
    var next := path[..d] + [path[d] - 1];
    PathShape(root, next);
    out := DownRight(root, next);
    PreviousIsThere(root, path, out);
  }

  /** Move to the first leaf after the path. */
  method NextLeaf(root: Node, path: seq<nat>) returns (found: bool, out: seq<nat>)
    requires Shaped(root) && PathOk(root, path)
    ensures found <==> RightOf(root, path) != []
    ensures found ==> PathOk(root, out) && NodeAt(root, out).level == 0 && !Hollow(NodeAt(root, out))
    ensures found ==> |LeftOf(root, out)| == |LeftOf(root, path)| + |Flatten(NodeAt(root, path))|
  {
    var depth := |path|;
    assert path[..depth] == path;
    while depth != 0
      invariant depth <= |path| && PathOk(root, path[..depth]) && LastBelow(root, path, depth)
      decreases depth
    {
      PathPrefix(root, path, depth - 1);
      PathStep(root, path, depth - 1);
      var parent, child := NodeAt(root, path[..depth - 1]), path[depth - 1];
      if child + 1 != |parent.children| {
        out := IntoNextSibling(root, path, depth - 1);
        return true, out;
      }
      LastUp(root, path, depth - 1);
      depth := depth - 1;
    }
    NothingRight(root, path);
    found, out := false, path;
  }

  lemma {:induction false} NothingRight(root: Node, path: seq<nat>)
    requires PathOk(root, path) && PathOk(root, path[..0]) && LastBelow(root, path, 0)
    ensures RightOf(root, path) == []
  {
    assert path[..0] == [];
  }

  lemma {:induction false} NothingLeft(root: Node, path: seq<nat>)
    requires PathOk(root, path) && PathOk(root, path[..0]) && FirstBelow(root, path, 0)
    ensures LeftOf(root, path) == []
  {
    assert path[..0] == [];
  }

  lemma {:induction false} NextIsThere(root: Node, path: seq<nat>, out: seq<nat>)
    requires Shaped(root) && PathOk(root, path) && PathOk(root, out) && !Hollow(NodeAt(root, out))
    requires |LeftOf(root, out)| == |LeftOf(root, path)| + |Flatten(NodeAt(root, path))|
    ensures RightOf(root, path) != []
  {
    AroundPath(root, path);
    AroundPath(root, out);
    PathShape(root, out);
    FirstKey(NodeAt(root, out));
  }

  /** Move to the last leaf before the path. */
  method PreviousLeaf(root: Node, path: seq<nat>) returns (found: bool, out: seq<nat>)
    requires Shaped(root) && PathOk(root, path)
    ensures found <==> LeftOf(root, path) != []
    ensures found ==> PathOk(root, out) && NodeAt(root, out).level == 0 && !Hollow(NodeAt(root, out))
    ensures found ==> |LeftOf(root, out)| + |Flatten(NodeAt(root, out))| == |LeftOf(root, path)|
  {
    var depth := |path|;
    assert path[..depth] == path;
    while depth != 0
      invariant depth <= |path| && PathOk(root, path[..depth]) && FirstBelow(root, path, depth)
      decreases depth
    {
      PathPrefix(root, path, depth - 1);
      PathStep(root, path, depth - 1);
      var child := path[depth - 1];
      if child != 0 {
        out := IntoPreviousSibling(root, path, depth - 1);
        return true, out;
      }
      FirstUp(root, path, depth - 1);
      depth := depth - 1;
    }
    NothingLeft(root, path);
    found, out := false, path;
  }

  lemma {:induction false} PreviousIsThere(root: Node, path: seq<nat>, out: seq<nat>)
    requires Shaped(root) && PathOk(root, path) && PathOk(root, out) && !Hollow(NodeAt(root, out))
    requires |RightOf(root, out)| + |LeftOf(root, path)| == |Flatten(root)|
    ensures LeftOf(root, path) != [] && |LeftOf(root, out)| + |Flatten(NodeAt(root, out))| == |LeftOf(root, path)|
  {
    AroundPath(root, out);
    PathShape(root, out);
    FirstKey(NodeAt(root, out));
  }

  // ---------------------------------------------------------------- the cursor

  /** Where the range begins and ends in the sorted sequence. */
  ghost function RangeBegin(s: seq<KV>, lower: Option<Key>): nat
    requires Sorted(s)
  {
    if lower.Some? then LowerIndex(s, lower.value) else 0
  }

  ghost function RangeEnd(s: seq<KV>, upper: Option<Key>): nat
    requires Sorted(s)
  {
    if upper.Some? then LowerIndex(s, upper.value) else |s|
  }

  /** The indexes between the two are exactly the keys between the bounds. */
  lemma {:induction false} RangeIsBounds(s: seq<KV>, lower: Option<Key>, upper: Option<Key>, i: nat)
    requires Sorted(s) && i < |s|
    ensures RangeBegin(s, lower) <= i < RangeEnd(s, upper)
            <==> (lower.Some? ==> Le(lower.value, s[i].key)) && (upper.Some? ==> Less(s[i].key, upper.value))
  {
    if lower.Some? {
      BelowIffBefore(s, lower.value, i);
    }
    if upper.Some? {
      BelowIffBefore(s, upper.value, i);
    }
  }

  class OrderedCursor {
    const root: Node
    const lower: Option<Key>
    const upper: Option<Key>
    var path: seq<nat>
    var valueIndex: nat
    var positioned: bool

    /** The keys of the tree in order. */
    ghost function Keys(): seq<KV> { Flatten(root) }

    /** On some value of a leaf. */
    ghost predicate OnValue()
      reads this
    {
      PathOk(root, path) && NodeAt(root, path).level == 0 && valueIndex < |NodeAt(root, path).values|
    }

    /** The place in the sorted sequence. */
    ghost function Position(): nat
      requires OnValue()
      reads this
    {
      |LeftOf(root, path)| + valueIndex
    }

    ghost predicate Base() { Shaped(root) && Sorted(Flatten(root)) }

    /** A positioned cursor is inside its range. */
    ghost predicate Valid()
      reads this
    {
      Base() && (positioned ==> OnValue() && RangeBegin(Keys(), lower) <= Position() < RangeEnd(Keys(), upper))
    }

    constructor (root: Node, lower: Option<Key>, upper: Option<Key>)
      requires Shaped(root) && Sorted(Flatten(root))
      ensures Valid() && !positioned && this.root == root && this.lower == lower && this.upper == upper
    {
      this.root, this.lower, this.upper := root, lower, upper;
      path, valueIndex, positioned := [], 0, false;
    }

    /** Positioned at index `i` of the sorted sequence. */
    ghost predicate At(i: nat)
      reads this
    {
      positioned && OnValue() && Position() == i
    }

    method DescendLeft() returns (found: bool)
      requires Base()
      modifies this
      ensures found == positioned && (found <==> Keys() != []) && (found ==> At(0))
    {
      EmptyIffHollow(root);
      if Hollow(root) {
        positioned := false;
        return false;
      }
      path := DownLeft(root, []);
      valueIndex, positioned := 0, true;
      found := true;
    }

    method DescendRight() returns (found: bool)
      requires Base()
      modifies this
      ensures found == positioned && (found <==> Keys() != []) && (found ==> At(|Keys()| - 1))
    {
      EmptyIffHollow(root);
      if Hollow(root) {
        positioned := false;
        return false;
      }
      path := LastLeaf(root);
      valueIndex, positioned := |NodeAt(root, path).values| - 1, true;
      found := true;
    }

    method ToNextLeaf() returns (found: bool)
      requires Base() && PathOk(root, path) && NodeAt(root, path).level == 0
      modifies this
      ensures found == positioned
      ensures var end := old(|LeftOf(root, path)| + |NodeAt(root, path).values|);
              end <= |Keys()| && (found <==> end < |Keys()|) && (found ==> At(end))
    {
      Counted(root, path);
      var next;
      found, next := NextLeaf(root, path);
      if found {
        path, valueIndex := next, 0;
      }
      positioned := found;
    }

    method ToPreviousLeaf() returns (found: bool)
      requires Base() && PathOk(root, path) && NodeAt(root, path).level == 0
      modifies this
      ensures found == positioned
      ensures var begin := old(|LeftOf(root, path)|); (found <==> begin > 0) && (found ==> At(begin - 1))
    {
      var previous;
      found, previous := PreviousLeaf(root, path);
      if found {
        path, valueIndex := previous, |NodeAt(root, previous).values| - 1;
      }
      positioned := found;
    }

    method ToNextValue() returns (found: bool)
      requires Base() && positioned && OnValue()
      modifies this
      ensures (found <==> old(Position()) + 1 < |Keys()|) && (found ==> At(old(Position()) + 1))
      ensures !found ==> !positioned
    {
      if valueIndex + 1 != |NodeAt(root, path).values| {
        Counted(root, path);
        valueIndex := valueIndex + 1;
        return true;
      }
      found := ToNextLeaf();
    }

    method ToPreviousValue() returns (found: bool)
      requires Base() && positioned && OnValue()
      modifies this
      ensures (found <==> old(Position()) > 0) && (found ==> At(old(Position()) - 1))
      ensures !found ==> !positioned
    {
      if valueIndex != 0 {
        valueIndex := valueIndex - 1;
        return true;
      }
      found := ToPreviousLeaf();
    }

    /** Position at the first key not below `key`. */
    method DescendLowerBound(key: Key) returns (found: bool)
      requires Base()
      modifies this
      ensures found == positioned && (found <==> LowerIndex(Keys(), key) < |Keys()|) && (found ==> At(LowerIndex(Keys(), key)))
    {
      EmptyIffHollow(root);
      if Hollow(root) {
        positioned := false;
        return false;
      }
      path := DownTo(root, key);
      LeafSorted(root, path);
      valueIndex := LowerBound(NodeAt(root, path).values, key);
      LowerBoundPlace(root, path, key, valueIndex);
      Counted(root, path);
      positioned := valueIndex != |NodeAt(root, path).values|;
      if !positioned {
        found := ToNextLeaf();
      } else {
        found := true;
      }
    }

    method AcceptUpperBound() returns (ok: bool)
      requires Base() && positioned && OnValue()
      modifies this
      ensures path == old(path) && valueIndex == old(valueIndex) && positioned == ok
      ensures ok <==> old(Position()) < RangeEnd(Keys(), upper)
    {
      KeyHere(root, path, valueIndex);
      ok := upper.None? || Less(NodeAt(root, path).values[valueIndex].key, upper.value);
      if upper.Some? {
        BelowIffBefore(Keys(), upper.value, Position());
      }
      positioned := ok;
    }

    method AcceptLowerBound() returns (ok: bool)
      requires Base() && positioned && OnValue()
      ensures ok <==> RangeBegin(Keys(), lower) <= Position()
    {
      KeyHere(root, path, valueIndex);
      ok := lower.None? || !Less(NodeAt(root, path).values[valueIndex].key, lower.value);
      if lower.Some? {
        BelowIffBefore(Keys(), lower.value, Position());
      }
    }

    /** The first key in the range. */
    method First() returns (found: bool)
      requires Valid()
      modifies this
      ensures Valid() && found == positioned
      ensures found <==> RangeBegin(Keys(), lower) < RangeEnd(Keys(), upper)
      ensures found ==> At(RangeBegin(Keys(), lower))
    {
      if lower.Some? {
        found := DescendLowerBound(lower.value);
      } else {
        found := DescendLeft();
      }
      if found {
        found := AcceptUpperBound();
      }
    }

    /** The last key in the range. */
    method Last() returns (found: bool)
      requires Valid()
      modifies this
      ensures Valid() && found == positioned
      ensures found <==> RangeBegin(Keys(), lower) < RangeEnd(Keys(), upper)
      ensures found ==> At(RangeEnd(Keys(), upper) - 1)
    {
      if upper.Some? {
        found := DescendLowerBound(upper.value);
        if found {
          found := ToPreviousValue();
        } else {
          found := DescendRight();
        }
      } else {
        found := DescendRight();
      }
      if found {
        found := AcceptLowerBound();
      }
      if !found {
        positioned := false;
      }
    }

    /** The first key in the range that is not below `key`. */
    method SeekLowerBound(key: Key) returns (found: bool)
      requires Valid()
      modifies this
      ensures Valid() && found == positioned
      ensures var from := if LowerIndex(Keys(), key) < RangeBegin(Keys(), lower) then RangeBegin(Keys(), lower)
                          else LowerIndex(Keys(), key);
              (found <==> from < RangeEnd(Keys(), upper)) && (found ==> At(from))
    {
      var sought := key;
      if lower.Some? {
        LowerIndexMonotone(Keys(), key, lower.value);
        if Less(key, lower.value) {
          sought := lower.value;
        }
      }
      found := DescendLowerBound(sought);
      if found {
        found := AcceptUpperBound();
      }
    }

    /** The next key in the range. */
    method Next() returns (found: bool)
      requires Valid() && positioned
      modifies this
      ensures Valid() && found == positioned
      ensures found <==> old(Position()) + 1 < RangeEnd(Keys(), upper)
      ensures found ==> At(old(Position()) + 1)
    {
      found := ToNextValue();
      if found {
        found := AcceptUpperBound();
      }
      if !found {
        positioned := false;
      }
    }

    /** The previous key in the range. */
    method Previous() returns (found: bool)
      requires Valid() && positioned
      modifies this
      ensures Valid() && found == positioned
      ensures found <==> old(Position()) > RangeBegin(Keys(), lower)
      ensures found ==> At(old(Position()) - 1)
    {
      found := ToPreviousValue();
      if found {
        found := AcceptLowerBound();
      }
      if !found {
        positioned := false;
      }
    }

    /** The pair under the cursor. */
    method Current() returns (kv: KV)
      requires Valid() && positioned
      ensures Position() < |Keys()| && kv == Keys()[Position()]
    {
      KeyHere(root, path, valueIndex);
      kv := KvOf(NodeAt(root, path).values[valueIndex]);
    }
  }

  lemma {:induction false} KeyHere(root: Node, path: seq<nat>, i: nat)
    requires PathOk(root, path) && NodeAt(root, path).level == 0 && i < |NodeAt(root, path).values|
    ensures |LeftOf(root, path)| + i < |Flatten(root)|
    ensures Flatten(root)[|LeftOf(root, path)| + i] == KvOf(NodeAt(root, path).values[i])
  {
    AroundPath(root, path);
  }

  lemma {:induction false} BelowIffBefore(s: seq<KV>, k: Key, i: nat)
    requires Sorted(s) && i < |s|
    ensures Less(s[i].key, k) <==> i < LowerIndex(s, k)
  {
    var p := LowerIndex(s, k);
    if p <= i {
      assert Le(k, s[i].key);
    }
  }

  lemma {:induction false} LowerIndexMonotone(s: seq<KV>, a: Key, c: Key)
    requires Sorted(s)
    ensures Less(a, c) ==> LowerIndex(s, a) <= LowerIndex(s, c)
    ensures Le(c, a) ==> LowerIndex(s, c) <= LowerIndex(s, a)
  {
    LowerIndexUp(s, a, c);
    LowerIndexUp(s, c, a);
    if Less(a, c) {
      LessAsymmetric(a, c);
    }
  }

  lemma {:induction false} LowerIndexUp(s: seq<KV>, a: Key, c: Key)
    requires Sorted(s)
    ensures Le(a, c) ==> LowerIndex(s, a) <= LowerIndex(s, c)
  {
    var p, q := LowerIndex(s, a), LowerIndex(s, c);
    if Le(a, c) && q < |s| {
      LeLe(a, c, s[q].key);
    }
  }

  lemma {:induction false} EmptyIffHollow(n: Node)
    requires Shaped(n)
    ensures Flatten(n) == [] <==> Hollow(n)
  {
    if !Hollow(n) {
      FirstKey(n);
    }
  }

  lemma {:induction false} LeafSorted(root: Node, path: seq<nat>)
    requires PathOk(root, path) && Sorted(Flatten(root))
    ensures Sorted(Flatten(NodeAt(root, path)))
  {
    AroundPath(root, path);
    SortedParts(LeftOf(root, path), Flatten(NodeAt(root, path)), RightOf(root, path));
  }

  /** The lower bound in the leaf is the lower bound in the whole sequence. */
  lemma {:induction false} LowerBoundPlace(root: Node, path: seq<nat>, key: Key, p: nat)
    requires PathOk(root, path) && Sorted(Flatten(root)) && NodeAt(root, path).level == 0 && Straddles(root, path, key)
    requires var values := NodeAt(root, path).values;
             p <= |values| && AllBelow(KvsOf(values[..p]), key) && (p < |values| ==> Le(key, values[p].key))
    ensures |LeftOf(root, path)| + p == LowerIndex(Flatten(root), key)
  {
    var left, leaf, right := LeftOf(root, path), Flatten(NodeAt(root, path)), RightOf(root, path);
    AroundPath(root, path);
    PartsLowerIndex(left, NodeAt(root, path).values, right, key, p);
  }

  lemma {:induction false} PartsLowerIndex(left: seq<KV>, values: seq<Entry>, right: seq<KV>, key: Key, p: nat)
    requires Sorted(left + KvsOf(values) + right) && AllBelow(left, key) && AllAbove(right, key)
    requires p <= |values| && AllBelow(KvsOf(values[..p]), key) && (p < |values| ==> Le(key, values[p].key))
    ensures |left| + p == LowerIndex(left + KvsOf(values) + right, key)
  {
    var s := left + KvsOf(values) + right;
    var at := |left| + p;
    forall i | 0 <= i < at ensures Less(s[i].key, key) {
      if i < |left| {
        assert s[i] in left;
      } else {
        assert s[i] == KvsOf(values[..p])[i - |left|];
        assert s[i] in KvsOf(values[..p]);
      }
    }
    if at < |s| && p == |values| {
      assert s[at] in right;
      LessAsymmetric(key, s[at].key);
    }
    LowerIndexIs(s, key, at);
  }
}
