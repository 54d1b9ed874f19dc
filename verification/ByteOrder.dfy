/** Keys are byte strings in unsigned lexicographic order. */
module ByteOrder {
  import opened Basics

  type Key = seq<byte>

  /** Lexicographic order; a proper prefix comes first. */
  predicate Less(a: Key, c: Key) {
    if c == [] then false
    else if a == [] then true
    else a[0] < c[0] || (a[0] == c[0] && Less(a[1..], c[1..]))
  }

  lemma {:induction false} LessIrreflexive(a: Key)
    ensures !Less(a, a)
  {
    if a != [] {
      LessIrreflexive(a[1..]);
    }
  }

  lemma {:induction false} LessTransitive(a: Key, c: Key, d: Key)
    requires Less(a, c) && Less(c, d)
    ensures Less(a, d)
  {
    if a != [] && a[0] == c[0] && c[0] == d[0] {
      LessTransitive(a[1..], c[1..], d[1..]);
    }
  }

  lemma {:induction false} LessTotal(a: Key, c: Key)
    ensures Less(a, c) || a == c || Less(c, a)
  {
    if a != [] && c != [] && a[0] == c[0] {
      LessTotal(a[1..], c[1..]);
      assert a == [a[0]] + a[1..] && c == [c[0]] + c[1..];
    }
  }

  lemma {:induction false} LessAsymmetric(a: Key, c: Key)
    requires Less(a, c)
    ensures !Less(c, a) && a != c
  {
    LessIrreflexive(a);
    if Less(c, a) {
      LessTransitive(a, c, a);
    }
  }

  /** `a` at or before `c`. */
  predicate Le(a: Key, c: Key) { !Less(c, a) }

  lemma {:induction false} LeLess(a: Key, c: Key, d: Key)
    requires Le(a, c) && Less(c, d)
    ensures Less(a, d)
  {
    LessTotal(a, c);
    if Less(a, c) {
      LessTransitive(a, c, d);
    }
  }

  lemma {:induction false} LessLe(a: Key, c: Key, d: Key)
    requires Less(a, c) && Le(c, d)
    ensures Less(a, d)
  {
    LessTotal(c, d);
    if Less(c, d) {
      LessTransitive(a, c, d);
    }
  }

  lemma {:induction false} LeLe(a: Key, c: Key, d: Key)
    requires Le(a, c) && Le(c, d)
    ensures Le(a, d)
  {
    if Less(d, a) {
      LessLe(d, a, c);
    }
  }
}
