/** Cutting a list of items into pages. */
module PageRanges {
  import opened Basics

  const U64_MAX: nat := 0xFFFF_FFFF_FFFF_FFFF

  datatype Range = Range(begin: nat, end: nat)

  /** Bytes the items from `begin` up to `end` take on one page. */
  type UsedLength = (nat, nat) -> nat

  function Gap(a: nat, c: nat): nat { if a > c then a - c else c - a }

  predicate SplitFits(used: UsedLength, page: nat, begin: nat, boundary: nat, end: nat) {
    used(begin, boundary) <= page && used(boundary, end) <= page
  }

  function Imbalance(used: UsedLength, begin: nat, boundary: nat, end: nat): nat {
    Gap(used(begin, boundary), used(boundary, end))
  }

  /** The most even split that fits, the first of them if there are several. */
  ghost predicate MostEven(used: UsedLength, page: nat, begin: nat, selected: nat, end: nat) {
    && begin < selected < end && SplitFits(used, page, begin, selected, end)
    && (forall k :: begin < k < end && SplitFits(used, page, begin, k, end) ==>
          Imbalance(used, begin, selected, end) <= Imbalance(used, begin, k, end))
    && (forall k :: begin < k < selected && SplitFits(used, page, begin, k, end) ==>
          Imbalance(used, begin, selected, end) < Imbalance(used, begin, k, end))
  }

  ghost predicate NoSplitFits(used: UsedLength, page: nat, begin: nat, end: nat) {
    forall k :: begin < k < end ==> !SplitFits(used, page, begin, k, end)
  }

  /** Where to split; 0 if no split fits. */
  method SelectBoundary(begin: nat, end: nat, page: nat, used: UsedLength) returns (selected: nat)
    requires begin + 1 < end && page < U64_MAX
    ensures selected == 0 <==> NoSplitFits(used, page, begin, end)
    ensures selected != 0 ==> MostEven(used, page, begin, selected, end)
  {
    selected := 0;
    var best := U64_MAX;
    for boundary := begin + 1 to end
      invariant selected == 0 ==> best == U64_MAX && forall k :: begin < k < boundary ==> !SplitFits(used, page, begin, k, end)
      invariant selected != 0 ==>
        && begin < selected < boundary && SplitFits(used, page, begin, selected, end)
        && best == Imbalance(used, begin, selected, end)
        && (forall k :: begin < k < boundary && SplitFits(used, page, begin, k, end) ==> best <= Imbalance(used, begin, k, end))
        && (forall k :: begin < k < selected && SplitFits(used, page, begin, k, end) ==> best < Imbalance(used, begin, k, end))
    {
      var left, right := used(begin, boundary), used(boundary, end);
      if left > page || right > page {
        continue;
      }
      if Gap(left, right) < best {
        selected, best := boundary, Gap(left, right);
      }
    }
  }

  /** In order, without gaps, and none of them empty. */
  ghost predicate Chained(ranges: seq<Range>, count: nat) {
    && (forall i :: 0 <= i < |ranges| ==> ranges[i].begin < ranges[i].end)
    && (forall i :: 0 < i < |ranges| ==> ranges[i - 1].end == ranges[i].begin)
    && (if ranges == [] then count == 0 else ranges[0].begin == 0 && ranges[|ranges| - 1].end == count)
  }

  ghost predicate AllFit(ranges: seq<Range>, page: nat, used: UsedLength) {
    forall i :: 0 <= i < |ranges| ==> used(ranges[i].begin, ranges[i].end) <= page
  }

  /** Every item fits a page on its own. */
  ghost predicate SinglesFit(count: nat, page: nat, used: UsedLength) {
    forall i :: 0 <= i < count ==> SingleFits(page, used, i)
  }

  predicate SingleFits(page: nat, used: UsedLength, i: nat) { used(i, i + 1) <= page }

  /** Pages cut so far, and the page being filled. */
  ghost predicate Cutting(done: seq<Range>, begin: nat, scan: nat, count: nat, page: nat, used: UsedLength) {
    && begin < scan <= count && Chained(done, begin)
    && (SinglesFit(count, page, used) ==> AllFit(done, page, used) && used(begin, scan) <= page)
    && (scan == 1 ==> done == [] && begin == 0)
    && (used(0, 2) <= page && scan > 1 ==> |done| + 1 < scan)
  }

  lemma {:induction false} CutHere(done: seq<Range>, begin: nat, scan: nat, count: nat, page: nat, used: UsedLength, selected: nat)
    requires Cutting(done, begin, scan, count, page, used) && scan < count && used(begin, scan + 1) > page
    requires begin < selected < scan + 1 && SplitFits(used, page, begin, selected, scan + 1)
    ensures Cutting(done + [Range(begin, selected)], selected, scan + 1, count, page, used)
  {
  }

  lemma {:induction false} CutDone(done: seq<Range>, begin: nat, count: nat, page: nat, used: UsedLength)
    requires Cutting(done, begin, count, count, page, used)
    ensures Chained(done + [Range(begin, count)], count)
    ensures SinglesFit(count, page, used) ==> AllFit(done + [Range(begin, count)], page, used)
  {
  }

  /** From `begin`, all items after `from` fit one page, until the one before `end` does not. */
  ghost predicate Overflows(used: UsedLength, page: nat, begin: nat, from: nat, end: nat) {
    from < end && used(begin, end) > page && StillFits(used, page, begin, from, end)
  }

  ghost predicate StillFits(used: UsedLength, page: nat, begin: nat, from: nat, end: nat) {
    forall k: nat :: from < k < end ==> used(begin, k) <= page
  }

  /** Where page `i` begins, and up to where the items had been looked at by then. */
  function BeginOf(cuts: seq<Range>, i: nat): nat
    requires i <= |cuts|
  {
    if i == 0 then 0 else cuts[i - 1].end
  }

  function SeenBy(ends: seq<nat>, i: nat): nat
    requires i <= |ends|
  {
    if i == 0 then 1 else ends[i - 1]
  }

  /** Page `i` was cut when the items up to `ends[i]` no longer fitted one page, where its
      two halves were most even. */
  ghost predicate CutAt(cuts: seq<Range>, ends: seq<nat>, i: nat, page: nat, used: UsedLength)
    requires i < |cuts| == |ends|
  {
    && cuts[i].begin == BeginOf(cuts, i) && Overflows(used, page, cuts[i].begin, SeenBy(ends, i), ends[i])
    && MostEven(used, page, cuts[i].begin, cuts[i].end, ends[i])
  }

  ghost predicate Cuts(cuts: seq<Range>, ends: seq<nat>, page: nat, used: UsedLength) {
    |cuts| == |ends| && forall i :: 0 <= i < |cuts| ==> CutAt(cuts, ends, i, page, used)
  }

  lemma {:induction false} CutsMore(cuts: seq<Range>, ends: seq<nat>, page: nat, used: UsedLength, selected: nat, end: nat)
    requires Cuts(cuts, ends, page, used) && Overflows(used, page, BeginOf(cuts, |cuts|), SeenBy(ends, |ends|), end)
    requires MostEven(used, page, BeginOf(cuts, |cuts|), selected, end)
    ensures Cuts(cuts + [Range(BeginOf(cuts, |cuts|), selected)], ends + [end], page, used)
  {
    var cuts', ends' := cuts + [Range(BeginOf(cuts, |cuts|), selected)], ends + [end];
    forall i | 0 <= i < |cuts'| ensures CutAt(cuts', ends', i, page, used) {
      if i < |cuts| {
        assert CutAt(cuts, ends, i, page, used);
        assert BeginOf(cuts', i) == BeginOf(cuts, i) && SeenBy(ends', i) == SeenBy(ends, i);
      }
    }
  }

  /** Which cut is made: every page but the last as above, and the last takes the rest,
      which fits; or there is no cut, because a page overflows that no split makes fit. */
  ghost predicate Balanced(count: nat, page: nat, used: UsedLength, ranges: Option<seq<Range>>, cuts: seq<Range>, ends: seq<nat>) {
    && Cuts(cuts, ends, page, used)
    && var begin, seen := BeginOf(cuts, |cuts|), SeenBy(ends, |ends|);
       if ranges.Some? then ranges.value == cuts + [Range(begin, count)] && StillFits(used, page, begin, seen, count + 1)
       else exists end: nat :: end <= count && Overflows(used, page, begin, seen, end) && NoSplitFits(used, page, begin, end)
  }

  /** The page being filled: looked at up to `scan`. */
  ghost predicate Filling(begin: nat, scan: nat, page: nat, used: UsedLength, cuts: seq<Range>, ends: seq<nat>) {
    && Cuts(cuts, ends, page, used) && begin == BeginOf(cuts, |cuts|)
    && SeenBy(ends, |ends|) <= scan && StillFits(used, page, begin, SeenBy(ends, |ends|), scan + 1)
  }

  /** Cut `count` items into pages: whenever a page overflows it is split where its two
      halves are most even. */
  method BalancedPageRanges(count: nat, page: nat, used: UsedLength)
    returns (ranges: Option<seq<Range>>, ghost cuts: seq<Range>, ghost ends: seq<nat>)
    requires count > 0 && page < U64_MAX
    ensures SinglesFit(count, page, used) ==> ranges.Some?
    ensures ranges.Some? ==> Chained(ranges.value, count)
    ensures ranges.Some? && SinglesFit(count, page, used) ==> AllFit(ranges.value, page, used)
    ensures ranges.Some? && count > 1 && used(0, 2) <= page ==> |ranges.value| < count
    ensures Balanced(count, page, used, ranges, cuts, ends)
  {
    cuts, ends := [], [];
    var done: seq<Range> := [];
    var begin: nat, scan: nat := 0, 1;
    assert SinglesFit(count, page, used) ==> SingleFits(page, used, 0);
    while scan != count
      invariant Cutting(done, begin, scan, count, page, used)
      invariant cuts == done && Filling(begin, scan, page, used, cuts, ends)
      decreases count - scan
    {
      if used(begin, scan + 1) <= page {
        scan := scan + 1;
        continue;
      }
      var selected := SelectBoundary(begin, scan + 1, page, used);
      assert SinglesFit(count, page, used) ==> SingleFits(page, used, scan) && SplitFits(used, page, begin, scan, scan + 1);
      if selected == 0 {
        ranges := None;
        assert Overflows(used, page, begin, SeenBy(ends, |ends|), scan + 1);
        return;
      }
      CutHere(done, begin, scan, count, page, used, selected);
      CutsMore(cuts, ends, page, used, selected, scan + 1);
      cuts, ends := cuts + [Range(begin, selected)], ends + [scan + 1];
      done := done + [Range(begin, selected)];
      begin := selected;
      scan := scan + 1;
    }
    CutDone(done, begin, count, page, used);
    ranges := Some(done + [Range(begin, count)]);
  }
}
