/** Common prefixes of keys. */
module KeyPrefix {
  import opened Basics

  /** Length of the longest common prefix of two strings. */
  function Common(a: Bytes, c: Bytes): (n: nat)
    ensures n <= |a| && n <= |c|
  {
    if a == [] || c == [] || a[0] != c[0] then 0 else 1 + Common(a[1..], c[1..])
  }

  /** It is where the strings first differ or one of them ends. */
  lemma {:induction false} CommonIs(a: Bytes, c: Bytes, n: nat)
    requires n <= |a| && n <= |c|
    ensures n == Common(a, c) <==> a[..n] == c[..n] && (n == |a| || n == |c| || a[n] != c[n])
  {
    if n > 0 {
      PrefixStep(a, c, n);
      CommonIs(a[1..], c[1..], n - 1);
    }
  }

  lemma {:induction false} PrefixStep(a: Bytes, c: Bytes, n: nat)
    requires 0 < n <= |a| && n <= |c|
    ensures a[..n] == c[..n] <==> a[0] == c[0] && a[1..][..n - 1] == c[1..][..n - 1]
  {
    assert a[..n] == [a[0]] + a[1..][..n - 1] && c[..n] == [c[0]] + c[1..][..n - 1];
    if a[..n] == c[..n] {
      assert a[0] == a[..n][0] && c[0] == c[..n][0];
      assert a[1..][..n - 1] == a[..n][1..] && c[1..][..n - 1] == c[..n][1..];
    }
  }

  lemma {:induction false} CommonGreatest(a: Bytes, c: Bytes, m: nat)
    requires m <= |a| && m <= |c| && a[..m] == c[..m]
    ensures m <= Common(a, c)
  {
    if m > 0 {
      PrefixStep(a, c, m);
      CommonGreatest(a[1..], c[1..], m - 1);
    }
  }

  method CommonPrefixLength(a: Bytes, c: Bytes) returns (n: nat)
    ensures n == Common(a, c)
  {
    n := 0;
    while n != |a| && n != |c| && a[n] == c[n]
      invariant n <= |a| && n <= |c| && a[..n] == c[..n]
      decreases |a| - n
    {
      assert a[..n + 1] == a[..n] + [a[n]] && c[..n + 1] == c[..n] + [c[n]];
      n := n + 1;
    }
    CommonIs(a, c, n);
  }

  /** All keys begin with the first `n` bytes of the first one. */
  ghost predicate IsShared(keys: seq<Bytes>, n: nat) {
    forall i :: 0 <= i < |keys| ==> n <= |keys[0]| && n <= |keys[i]| && keys[i][..n] == keys[0][..n]
  }

  /** The common prefix of a non-empty list, found key by key. */
  function Shared(keys: seq<Bytes>): (n: nat)
    requires keys != []
    ensures n <= |keys[0]|
  {
    if |keys| == 1 then |keys[0]|
    else
      var n := Shared(keys[..|keys| - 1]);
      var last := keys[|keys| - 1];
      Common(keys[0][..n], if n <= |last| then last[..n] else last)
  }

  /** It is shared, and nothing longer is. */
  lemma {:induction false} SharedGreatest(keys: seq<Bytes>, m: nat)
    requires keys != []
    ensures IsShared(keys, Shared(keys))
    ensures IsShared(keys, m) ==> m <= Shared(keys)
    decreases |keys|
  {
    if |keys| > 1 {
      var k := |keys| - 1;
      var first, last := keys[0], keys[k];
      SharedGreatest(keys[..k], m);
      var n := Shared(keys[..k]);
      var cut := if n <= |last| then last[..n] else last;
      var p := Shared(keys);
      CommonIs(first[..n], cut, p);
      SharedStep(keys, n, p);
      if IsShared(keys, m) {
        assert IsShared(keys[..k], m);
        assert first[..n][..m] == first[..m] && cut[..m] == last[..m];
        CommonGreatest(first[..n], cut, m);
      }
    }
  }

  lemma {:induction false} SharedStep(keys: seq<Bytes>, n: nat, p: nat)
    requires |keys| > 1 && IsShared(keys[..|keys| - 1], n) && p <= n && p <= |keys[|keys| - 1]|
    requires keys[0][..n][..p] == keys[|keys| - 1][..p]
    ensures IsShared(keys, p)
  {
    var k := |keys| - 1;
    assert keys[0][..n][..p] == keys[0][..p];
    forall i | 0 <= i < |keys| ensures p <= |keys[i]| && keys[i][..p] == keys[0][..p] {
      if i < k {
        assert keys[..k][i] == keys[i] && keys[i][..n] == keys[0][..n];
        assert keys[i][..p] == keys[i][..n][..p];
      }
    }
  }
}
