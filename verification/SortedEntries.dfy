/** Key-value lists in strictly ascending key order: the plain ordered map that the
    tree must agree with. */
module SortedEntries {
  import opened Basics
  import opened ByteOrder

  type Value = seq<byte>

  datatype KV = KV(key: Key, value: Value)

  ghost predicate Sorted(s: seq<KV>) {
    forall i, j :: 0 <= i < j < |s| ==> Less(s[i].key, s[j].key)
  }

  ghost predicate Before(a: seq<KV>, c: seq<KV>) {
    forall x, y :: x in a && y in c ==> Less(x.key, y.key)
  }

  lemma {:induction false} SortedConcat(a: seq<KV>, c: seq<KV>)
    ensures Sorted(a + c) <==> Sorted(a) && Sorted(c) && Before(a, c)
  {
    var s := a + c;
    if Sorted(s) {
      assert forall i :: 0 <= i < |a| ==> a[i] == s[i];
      assert forall i :: 0 <= i < |c| ==> c[i] == s[|a| + i];
      forall x, y | x in a && y in c ensures Less(x.key, y.key) {
        var i :| 0 <= i < |a| && a[i] == x;
        var j :| 0 <= j < |c| && c[j] == y;
        assert Less(s[i].key, s[|a| + j].key);
      }
    }
    if Sorted(a) && Sorted(c) && Before(a, c) {
      forall i, j | 0 <= i < j < |s| ensures Less(s[i].key, s[j].key) {
        if i < |a| && |a| <= j {
          assert s[i] in a && s[j] in c;
        }
      }
    }
  }

  /** Three parts at once. */
  lemma {:induction false} SortedParts(a: seq<KV>, m: seq<KV>, c: seq<KV>)
    ensures Sorted(a + m + c) <==> Sorted(a) && Sorted(m) && Sorted(c) && Before(a, m) && Before(a, c) && Before(m, c)
  {
    SortedConcat(a + m, c);
    SortedConcat(a, m);
    if Before(a + m, c) {
      assert forall x :: x in a ==> x in a + m;
      assert forall x :: x in m ==> x in a + m;
    }
  }

  /** Put: the new pair, and everything under another key. */
  ghost predicate PutRel(s: seq<KV>, k: Key, v: Value, s': seq<KV>) {
    forall e :: e in s' <==> e == KV(k, v) || (e in s && e.key != k)
  }

  /** Erase: everything under another key. */
  ghost predicate EraseRel(s: seq<KV>, k: Key, s': seq<KV>) {
    forall e :: e in s' <==> e in s && e.key != k
  }

  ghost predicate AllBelow(s: seq<KV>, k: Key) { forall e :: e in s ==> Less(e.key, k) }

  ghost predicate AllAbove(s: seq<KV>, k: Key) { forall e :: e in s ==> Less(k, e.key) }

  ghost predicate HasKey(s: seq<KV>, k: Key) { exists e :: e in s && e.key == k }

  lemma {:induction false} AwayFrom(s: seq<KV>, k: Key)
    requires AllBelow(s, k) || AllAbove(s, k)
    ensures !HasKey(s, k)
  {
    LessIrreflexive(k);
  }

  lemma {:induction false} SplicePut(a: seq<KV>, m: seq<KV>, c: seq<KV>, k: Key, v: Value, m': seq<KV>)
    requires Sorted(a + m + c) && AllBelow(a, k) && AllAbove(c, k) && Sorted(m') && PutRel(m, k, v, m')
    ensures Sorted(a + m' + c) && PutRel(a + m + c, k, v, a + m' + c)
  {
    SortedParts(a, m, c);
    SortedParts(a, m', c);
    AwayFrom(a, k);
    AwayFrom(c, k);
    forall x, y | x in a && y in m' ensures Less(x.key, y.key) { }
    forall x, y | x in m' && y in c ensures Less(x.key, y.key) { }
  }

  lemma {:induction false} SpliceInsert(a: seq<KV>, c: seq<KV>, k: Key, v: Value)
    requires Sorted(a + c) && AllBelow(a, k) && AllAbove(c, k)
    ensures Sorted(a + [KV(k, v)] + c) && PutRel(a + c, k, v, a + [KV(k, v)] + c)
  {
    SortedConcat(a, c);
    SortedParts(a, [KV(k, v)], c);
    AwayFrom(a, k);
    AwayFrom(c, k);
  }

  lemma {:induction false} SpliceErase(a: seq<KV>, m: seq<KV>, c: seq<KV>, k: Key, m': seq<KV>)
    requires Sorted(a + m + c) && AllBelow(a, k) && AllAbove(c, k) && Sorted(m') && EraseRel(m, k, m')
    ensures Sorted(a + m' + c) && EraseRel(a + m + c, k, a + m' + c)
    ensures HasKey(a + m + c, k) <==> HasKey(m, k)
  {
    SortedParts(a, m, c);
    SortedParts(a, m', c);
    AwayFrom(a, k);
    AwayFrom(c, k);
  }

  lemma {:induction false} SpliceRemove(a: seq<KV>, m: seq<KV>, c: seq<KV>, k: Key)
    requires Sorted(a + m + c) && AllBelow(a, k) && AllAbove(c, k) && forall e :: e in m ==> e.key == k
    ensures Sorted(a + c) && EraseRel(a + m + c, k, a + c)
    ensures HasKey(a + m + c, k) <==> m != []
  {
    SortedParts(a, m, c);
    SortedConcat(a, c);
    AwayFrom(a, k);
    AwayFrom(c, k);
    if m != [] {
      assert m[0] in a + m + c;
    }
  }

  /** A sorted list is determined by its members. */
  lemma {:induction false} SameMembers(a: seq<KV>, c: seq<KV>)
    requires Sorted(a) && Sorted(c) && forall e :: e in a <==> e in c
    ensures a == c
    decreases |a|
  {
    assert c == [] || c[0] in c;
    if a != [] {
      var n := |a| - 1;
      assert a[n] in c;
      var m := |c| - 1;
      LastIsGreatest(a, c);
      LastIsGreatest(c, a);
      LessAsymmetricLast(a, c);
      DropLast(a);
      DropLast(c);
      forall e ensures e in a[..n] <==> e in c[..m] {
        assert e in a <==> e in c;
      }
      SameMembers(a[..n], c[..m]);
      assert a == a[..n] + [a[n]] && c == c[..m] + [c[m]];
    }
  }

  lemma {:induction false} LastIsGreatest(a: seq<KV>, c: seq<KV>)
    requires Sorted(a) && a != [] && c != [] && forall e :: e in c ==> e in a
    ensures c[|c| - 1] == a[|a| - 1] || Less(c[|c| - 1].key, a[|a| - 1].key)
  {
    var e := c[|c| - 1];
    assert e in c;
    var i :| 0 <= i < |a| && a[i] == e;
  }

  lemma {:induction false} LessAsymmetricLast(a: seq<KV>, c: seq<KV>)
    requires a != [] && c != []
    requires c[|c| - 1] == a[|a| - 1] || Less(c[|c| - 1].key, a[|a| - 1].key)
    requires a[|a| - 1] == c[|c| - 1] || Less(a[|a| - 1].key, c[|c| - 1].key)
    ensures a[|a| - 1] == c[|c| - 1]
  {
    if Less(a[|a| - 1].key, c[|c| - 1].key) {
      LessAsymmetric(a[|a| - 1].key, c[|c| - 1].key);
    }
  }

  /** Without its last element, a sorted list has every other member. */
  lemma {:induction false} DropLast(a: seq<KV>)
    requires Sorted(a) && a != []
    ensures Sorted(a[..|a| - 1])
    ensures forall e :: e in a[..|a| - 1] <==> e in a && e != a[|a| - 1]
  {
    var n := |a| - 1;
    forall e | e in a[..n] ensures e in a && e != a[n] {
      var i :| 0 <= i < n && a[i] == e;
      assert Less(a[i].key, a[n].key);
      LessIrreflexive(e.key);
    }
    forall e | e in a && e != a[n] ensures e in a[..n] {
      var i :| 0 <= i < |a| && a[i] == e;
      assert a[..n][i] == e;
    }
  }

  /** A key occurs once. */
  lemma {:induction false} KeyOnce(s: seq<KV>, x: KV, y: KV)
    requires Sorted(s) && x in s && y in s && x.key == y.key
    ensures x == y
  {
    var i :| 0 <= i < |s| && s[i] == x;
    var j :| 0 <= j < |s| && s[j] == y;
    LessIrreflexive(x.key);
  }
}
