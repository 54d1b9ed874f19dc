/** Leaf pages of the allocator's free and retired indexes.  Keys are little-endian, so
    their byte order is not their numeric order and the shared prefix must be taken
    over all of them. */
module AllocatorCodec {
  import opened Basics
  import opened ExtentRuns
  import opened LittleEndian
  import opened KeyPrefix
  import opened PageFormat

  function KeyLength(retired: bool): nat { if retired then 16 else 8 }

  function Role(retired: bool): nat { if retired then 5 else 4 }

  function KeyOf(r: Run, retired: bool): (k: seq<byte>)
    ensures |k| == KeyLength(retired)
  {
    if retired then Encode(r.gen, 8) + Encode(r.start, 8) else Encode(r.start, 8)
  }

  /** Values fit their fields; free runs have no generation. */
  predicate Fits(r: Run, retired: bool) {
    r.start < U64 && r.count < U64 && r.gen < U64 && (!retired ==> r.gen == 0)
  }

  /** Ascending by generation, then by start with a gap, as 64-bit arithmetic sees it. */
  predicate Follows(a: Run, c: Run) {
    a.gen < c.gen || (a.gen == c.gen && (a.start + a.count) % U64 < c.start)
  }

  ghost predicate Canonical(runs: seq<Run>, retired: bool) {
    && runs != []
    && (forall i :: 0 <= i < |runs| ==> Fits(runs[i], retired) && runs[i].count > 0)
    && (forall i :: 0 < i < |runs| ==> Follows(runs[i - 1], runs[i]))
  }

  // ---------------------------------------------------------------- entries

  function RunOfKey(key: seq<byte>, retired: bool, count: nat): Run
    requires |key| == KeyLength(retired)
  {
    if retired then Run(ReadAt(key, 8, 8), count, ReadAt(key, 0, 8)) else Run(ReadAt(key, 0, 8), count, 0)
  }

  /** A key determines its run. */
  lemma {:induction false} KeyIs(key: seq<byte>, retired: bool, r: Run)
    requires |key| == KeyLength(retired) && r.count < U64
    ensures RunOfKey(key, retired, r.count) == r <==> Fits(r, retired) && KeyOf(r, retired) == key
  {
    Bound8();
    if retired {
      FieldIs(key[0..8], r.gen);
      FieldIs(key[8..16], r.start);
      TwoParts(key, Encode(r.gen, 8), Encode(r.start, 8));
      assert key[..8] == key[0..8] && key[8..] == key[8..16];
    } else {
      FieldIs(key[0..8], r.start);
      assert key[0..8] == key;
    }
  }

  function EntryOf(r: Run, retired: bool, p: nat): seq<byte>
    requires p <= KeyLength(retired)
  {
    Encode(KeyLength(retired) - p, 4) + KeyOf(r, retired)[p..] + Encode(r.count, 8)
  }

  /** Read one entry behind a prefix. */
  function DecodeRun(e: seq<byte>, prefix: seq<byte>, retired: bool): Option<Run>
    requires |prefix| <= KeyLength(retired)
  {
    var suffix := KeyLength(retired) - |prefix|;
    if |e| < 4 || ReadAt(e, 0, 4) != suffix || |e| != 12 + suffix then None
    else Some(RunOfKey(prefix + e[4..4 + suffix], retired, ReadAt(e, 4 + suffix, 8)))
  }

  lemma {:induction false} EntryParts(e: seq<byte>, r: Run, retired: bool, p: nat)
    requires p <= KeyLength(retired) && r.count < U64 && |e| == 12 + KeyLength(retired) - p
    ensures var suffix := KeyLength(retired) - p;
            e == EntryOf(r, retired, p) <==>
            ReadAt(e, 0, 4) == suffix && e[4..4 + suffix] == KeyOf(r, retired)[p..] && ReadAt(e, 4 + suffix, 8) == r.count
  {
    var suffix := KeyLength(retired) - p;
    Bound4();
    Bound8();
    FieldIs(e[0..4], suffix);
    FieldIs(e[4 + suffix..12 + suffix], r.count);
    FourParts(e, Encode(suffix, 4), KeyOf(r, retired)[p..], Encode(r.count, 8), []);
    assert e[..4] == e[0..4] && e[12 + suffix..] == [];
    assert EntryOf(r, retired, p) == EntryOf(r, retired, p) + [];
  }

  lemma {:induction false} SplitKey(key: seq<byte>, prefix: seq<byte>, suffix: seq<byte>)
    requires |key| == |prefix| + |suffix|
    ensures key == prefix + suffix <==> key[..|prefix|] == prefix && key[|prefix|..] == suffix
  {
    TwoParts(key, prefix, suffix);
  }

  /** An entry is read as a run exactly if it is that run's entry behind the prefix. */
  lemma {:induction false} DecodeRunExact(e: seq<byte>, prefix: seq<byte>, retired: bool, r: Run)
    requires |prefix| <= KeyLength(retired)
    ensures DecodeRun(e, prefix, retired) == Some(r) <==>
            Fits(r, retired) && KeyOf(r, retired)[..|prefix|] == prefix && e == EntryOf(r, retired, |prefix|)
  {
    var p, suffix := |prefix|, KeyLength(retired) - |prefix|;
    assert |EntryOf(r, retired, p)| == 12 + suffix;
    if |e| == 12 + suffix {
      FieldBound(e, 4 + suffix, 8);
      Bound8();
      if r.count < U64 {
        EntryParts(e, r, retired, p);
        KeyIs(prefix + e[4..4 + suffix], retired, r);
        SplitKey(KeyOf(r, retired), prefix, e[4..4 + suffix]);
      }
    }
  }

  // ---------------------------------------------------------------- pages

  function KeysOf(runs: seq<Run>, retired: bool): (keys: seq<seq<byte>>)
    ensures |keys| == |runs| && forall i :: 0 <= i < |runs| ==> keys[i] == KeyOf(runs[i], retired)
  {
    seq(|runs|, i requires 0 <= i < |runs| => KeyOf(runs[i], retired))
  }

  function EntriesOf(runs: seq<Run>, retired: bool, p: nat): (entries: seq<seq<byte>>)
    requires p <= KeyLength(retired)
    ensures |entries| == |runs| && forall i :: 0 <= i < |runs| ==> entries[i] == EntryOf(runs[i], retired, p)
  {
    seq(|runs|, i requires 0 <= i < |runs| => EntryOf(runs[i], retired, p))
  }

  function PageFor(runs: seq<Run>, retired: bool): Page
    requires runs != []
  {
    var p := Shared(KeysOf(runs, retired));
    Page(1, Role(retired), 0, KeyOf(runs[0], retired)[..p], Zeros(32), EntriesOf(runs, retired, p))
  }

  /** The entries of a page are these runs. */
  ghost predicate Entered(page: Page, runs: seq<Run>, retired: bool) {
    && |page.prefix| <= KeyLength(retired) && |page.entries| == |runs|
    && forall i :: 0 <= i < |runs| ==> DecodeRun(page.entries[i], page.prefix, retired) == Some(runs[i])
  }

  ghost predicate AllFit(runs: seq<Run>, retired: bool) {
    forall i :: 0 <= i < |runs| ==> Fits(runs[i], retired)
  }

  /** A page is the page of these runs exactly if its entries are, and its prefix is as
      long as the keys allow. */
  lemma {:induction false} PageForExact(page: Page, runs: seq<Run>, retired: bool)
    requires runs != []
    ensures AllFit(runs, retired) && page == PageFor(runs, retired) <==>
            && page.kind == 1 && page.role == Role(retired) && page.level == 0 && page.leftmost == Zeros(32)
            && Entered(page, runs, retired) && |page.prefix| == Shared(KeysOf(runs, retired))
  {
    var keys := KeysOf(runs, retired);
    var p := Shared(keys);
    SharedGreatest(keys, p);
    if |page.prefix| == p && |page.entries| == |runs| {
      forall i | 0 <= i < |runs|
        ensures DecodeRun(page.entries[i], page.prefix, retired) == Some(runs[i]) <==>
                Fits(runs[i], retired) && KeyOf(runs[i], retired)[..p] == page.prefix
                && page.entries[i] == EntryOf(runs[i], retired, p)
      {
        DecodeRunExact(page.entries[i], page.prefix, retired, runs[i]);
      }
      forall i | 0 <= i < |runs| ensures KeyOf(runs[i], retired)[..p] == KeyOf(runs[0], retired)[..p] {
        assert keys[i][..p] == keys[0][..p];
      }
    }
  }

  /** The length that page splitting is told. */
  lemma {:induction false} UsedLengthIs(runs: seq<Run>, retired: bool)
    requires runs != []
    ensures var p := Shared(KeysOf(runs, retired));
            UsedLength(PageFor(runs, retired)) == HEADER + p + |runs| * 8 + |runs| * (12 + KeyLength(retired) - p)
  {
    var p := Shared(KeysOf(runs, retired));
    EvenConcat(EntriesOf(runs, retired, p), 12 + KeyLength(retired) - p);
  }

  lemma {:induction false} KeysPush(runs: seq<Run>, retired: bool, r: Run)
    ensures KeysOf(runs + [r], retired) == KeysOf(runs, retired) + [KeyOf(r, retired)]
  {
  }

  /** One more key, one step of the common prefix. */
  lemma {:induction false} SharedPush(runs: seq<Run>, retired: bool, r: Run)
    requires runs != []
    ensures var p := Shared(KeysOf(runs, retired));
            Shared(KeysOf(runs + [r], retired)) == Common(KeyOf(runs[0], retired)[..p], KeyOf(r, retired)[..p])
  {
    KeysPush(runs, retired, r);
    var keys := KeysOf(runs, retired);
    assert (keys + [KeyOf(r, retired)])[..|keys|] == keys;
  }

  /** The common prefix of all keys. */
  method SharedPrefix(runs: seq<Run>, retired: bool) returns (p: nat)
    requires runs != []
    ensures p == Shared(KeysOf(runs, retired))
  {
    p := KeyLength(retired);
    assert runs[..1] == [runs[0]];
    for n := 1 to |runs|
      invariant p == Shared(KeysOf(runs[..n], retired))
    {
      SharedPush(runs[..n], retired, runs[n]);
      assert runs[..n] + [runs[n]] == runs[..n + 1];
      p := CommonPrefixLength(KeyOf(runs[0], retired)[..p], KeyOf(runs[n], retired)[..p]);
    }
    assert runs[..|runs|] == runs;
  }

  /** Write runs to a leaf page. */
  method EncodeLeaf(runs: seq<Run>, retired: bool, size: nat) returns (r: Option<seq<byte>>)
    ensures r.Some? <==> runs != [] && UsedLength(PageFor(runs, retired)) <= size
    ensures r.Some? ==> r.value == Image(PageFor(runs, retired), size)
  {
    if runs == [] {
      return None;
    }
    var p := SharedPrefix(runs, retired);
    r := LayOut(Page(1, Role(retired), 0, KeyOf(runs[0], retired)[..p], Zeros(32), EntriesOf(runs, retired, p)), size);
  }

  // ---------------------------------------------------------------- decoding

  /** The payload is the image of these runs. */
  ghost predicate ImageOf(payload: seq<byte>, runs: seq<Run>, retired: bool) {
    Canonical(runs, retired) && IsImage(payload, PageFor(runs, retired))
  }

  /** Read so far. */
  ghost predicate Read(page: Page, runs: seq<Run>, retired: bool, p: nat) {
    && ReadRuns(page, runs, retired)
    && p == if runs == [] then KeyLength(retired) else Shared(KeysOf(runs, retired))
  }

  ghost predicate ReadRuns(page: Page, runs: seq<Run>, retired: bool) {
    && |page.prefix| <= KeyLength(retired) && |runs| <= |page.entries|
    && (forall i :: 0 <= i < |runs| ==> DecodeRun(page.entries[i], page.prefix, retired) == Some(runs[i]) && runs[i].count > 0)
    && (forall i :: 0 < i < |runs| ==> Follows(runs[i - 1], runs[i]))
  }

  lemma {:induction false} ReadRunsMore(page: Page, runs: seq<Run>, retired: bool, r: Run)
    requires ReadRuns(page, runs, retired) && |runs| < |page.entries|
    requires DecodeRun(page.entries[|runs|], page.prefix, retired) == Some(r) && r.count > 0
    requires runs != [] ==> Follows(runs[|runs| - 1], r)
    ensures ReadRuns(page, runs + [r], retired)
  {
  }

  lemma {:induction false} ReadMore(page: Page, runs: seq<Run>, retired: bool, p: nat, r: Run)
    requires Read(page, runs, retired, p) && |runs| < |page.entries|
    requires DecodeRun(page.entries[|runs|], page.prefix, retired) == Some(r) && r.count > 0
    requires runs != [] ==> Follows(runs[|runs| - 1], r)
    ensures Read(page, runs + [r], retired,
                 if runs == [] then p else Common(KeyOf(runs[0], retired)[..p], KeyOf(r, retired)[..p]))
  {
    ReadRunsMore(page, runs, retired, r);
    if runs != [] {
      SharedPush(runs, retired, r);
    }
  }

  /** The runs of an image are what its entries decode to. */
  lemma {:induction false} ImageEntered(payload: seq<byte>, page: Page, runs: seq<Run>, retired: bool)
    requires ImageOf(payload, runs, retired) && IsImage(payload, page)
    ensures page == PageFor(runs, retired) && Entered(page, runs, retired) && |page.prefix| == Shared(KeysOf(runs, retired))
  {
    SameImage(payload, page, PageFor(runs, retired));
    PageForExact(page, runs, retired);
  }

  lemma {:induction false} ReadAll(payload: seq<byte>, page: Page, runs: seq<Run>, retired: bool, p: nat)
    requires IsImage(payload, page) && Read(page, runs, retired, p) && runs != [] && |runs| == |page.entries|
    requires page.kind == 1 && page.role == Role(retired) && page.level == 0 && page.leftmost == Zeros(32)
    ensures ImageOf(payload, runs, retired) <==> p == |page.prefix|
  {
    forall i | 0 <= i < |runs| ensures Fits(runs[i], retired) {
      DecodeRunExact(page.entries[i], page.prefix, retired, runs[i]);
    }
    PageForExact(page, runs, retired);
    if ImageOf(payload, runs, retired) {
      ImageEntered(payload, page, runs, retired);
    }
  }

  /** Read a leaf page.  It is accepted exactly if it is the image of a canonical list of
      runs, and then that list is returned: reading inverts writing, and every page that
      is accepted is written back byte for byte. */
  method DecodeLeaf(payload: seq<byte>, retired: bool) returns (r: Option<seq<Run>>)
    requires HEADER <= |payload| < U32
    ensures forall runs :: r == Some(runs) <==> ImageOf(payload, runs, retired)
  {
    var parsed := ParsePage(payload);
    if parsed.None? {
      return None;
    }
    var page := parsed.value;
    forall all | ImageOf(payload, all, retired)
      ensures Entered(page, all, retired) && page == PageFor(all, retired)
    {
      ImageEntered(payload, page, all, retired);
    }
    AllZeroIs(page.leftmost);
    if page.kind != 1 || page.role != Role(retired) || page.level != 0 || !AllZero(page.leftmost)
       || page.entries == [] || |page.prefix| > KeyLength(retired)
    {
      return None;
    }
    var runs: seq<Run>, p: nat := [], KeyLength(retired);
    for n := 0 to |page.entries|
      invariant |runs| == n && Read(page, runs, retired, p)
    {
      var run := DecodeRun(page.entries[n], page.prefix, retired);
      forall all | ImageOf(payload, all, retired)
        ensures run.Some? && run.value.count > 0 && (n > 0 ==> Follows(runs[n - 1], run.value))
      {
        assert DecodeRun(page.entries[n], page.prefix, retired) == Some(all[n]);
        assert n > 0 ==> DecodeRun(page.entries[n - 1], page.prefix, retired) == Some(all[n - 1]);
      }
      if run.None? || run.value.count == 0 || (n > 0 && !Follows(runs[n - 1], run.value)) {
        return None;
      }
      ReadMore(page, runs, retired, p, run.value);
      if n > 0 {
        p := CommonPrefixLength(KeyOf(runs[0], retired)[..p], KeyOf(run.value, retired)[..p]);
      }
      runs := runs + [run.value];
    }
    forall all | ImageOf(payload, all, retired) ensures all == runs {
      forall i | 0 <= i < |runs| ensures all[i] == runs[i] {
        assert DecodeRun(page.entries[i], page.prefix, retired) == Some(all[i]);
      }
    }
    ReadAll(payload, page, runs, retired, p);
    if p != |page.prefix| {
      return None;
    }
    r := Some(runs);
  }

  /** Writing a canonical list and reading it back. */
  method RoundTrip(runs: seq<Run>, retired: bool, size: nat) returns (read: Option<seq<Run>>)
    requires Canonical(runs, retired) && UsedLength(PageFor(runs, retired)) <= size < U32
    ensures read == Some(runs)
  {
    var written := EncodeLeaf(runs, retired, size);
    read := DecodeLeaf(written.value, retired);
  }
}
