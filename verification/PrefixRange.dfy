/** The key range of a prefix scan. */
module PrefixRange {
  import opened Basics
  import opened ByteOrder

  predicate StartsWith(k: Key, p: Key) { |p| <= |k| && k[..|p|] == p }

  predicate AllMax(t: Key) { forall i :: 0 <= i < |t| ==> t[i] == 255 }

  lemma {:induction false} StartsWithStep(k: Key, p: Key)
    requires p != []
    ensures StartsWith(k, p) <==> k != [] && k[0] == p[0] && StartsWith(k[1..], p[1..])
  {
    if k != [] && k[0] == p[0] && StartsWith(k[1..], p[1..]) {
      assert k[..|p|] == [k[0]] + k[1..][..|p| - 1] && p == [p[0]] + p[1..];
    }
    if StartsWith(k, p) {
      assert k[0] == k[..|p|][0];
      assert k[1..][..|p| - 1] == k[..|p|][1..];
    }
  }

  /** Nothing but its extensions follows a string of greatest bytes. */
  lemma {:induction false} MaxPrefix(k: Key, t: Key)
    requires AllMax(t)
    ensures StartsWith(k, t) <==> Le(t, k)
  {
    if t != [] {
      StartsWithStep(k, t);
      if k != [] {
        MaxPrefix(k[1..], t[1..]);
      }
    }
  }

  /** The least string above every extension of `u`. */
  function Bumped(u: Key): Key
    requires u != [] && u[|u| - 1] < 255
  {
    u[..|u| - 1] + [u[|u| - 1] + 1]
  }

  lemma {:induction false} BumpedStep(u: Key)
    requires |u| > 1 && u[|u| - 1] < 255
    ensures Bumped(u) == [u[0]] + Bumped(u[1..])
  {
  }

  lemma {:induction false} BetweenIsPrefix(k: Key, u: Key, t: Key)
    requires u != [] && u[|u| - 1] < 255 && AllMax(t)
    ensures StartsWith(k, u + t) <==> Le(u + t, k) && Less(k, Bumped(u))
    decreases u
  {
    var p := u + t;
    StartsWithStep(k, p);
    assert p[1..] == u[1..] + t;
    if |u| == 1 {
      assert p[1..] == t;
      if k != [] {
        MaxPrefix(k[1..], t);
      }
    } else {
      BumpedStep(u);
      assert Bumped(u)[1..] == Bumped(u[1..]);
      if k != [] {
        BetweenIsPrefix(k[1..], u[1..], t);
      }
    }
  }

  /** The upper bound of a prefix range: drop trailing greatest bytes and increment the
      last one left; unbounded if none is left. */
  method PrefixUpper(p: Key) returns (upper: Option<Key>)
    ensures forall k :: StartsWith(k, p) <==> Le(p, k) && (upper.Some? ==> Less(k, upper.value))
  {
    var u := p;
    ghost var t: Key := [];
    while u != [] && u[|u| - 1] == 255
      invariant p == u + t && AllMax(t)
      decreases |u|
    {
      t := [255] + t;
      u := u[..|u| - 1];
    }
    if u != [] {
      upper := Some(Bumped(u));
      forall k ensures StartsWith(k, p) <==> Le(p, k) && Less(k, Bumped(u)) {
        BetweenIsPrefix(k, u, t);
      }
    } else {
      upper := None;
      assert p == t;
      forall k ensures StartsWith(k, p) <==> Le(p, k) {
        MaxPrefix(k, t);
      }
    }
  }
}
