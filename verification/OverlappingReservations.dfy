/** Reservations of a loop that converges need not be disjoint: once the unused rest of a
    page has joined a free run, the next page may be cut from it. */
module OverlappingReservations {
  import opened Basics
  import opened ExtentRuns
  import opened MetadataReservation

  /** With blocks of 8 KiB a page is two blocks: one if it compresses, two if not. */
  const PAGE: nat := 2

  const ENDS: seq<Run> := [Run(11, 1, 0), Run(14, 1, 0)]
  const JOINED: seq<Run> := [Run(11, 1, 0), Run(13, 2, 0)]
  const SINGLE: seq<Run> := [Run(11, 1, 0)]

  /** A short list takes one leaf and an empty one none.  The retired leaf compresses, and
      so does the free leaf unless it is to hold one of two lists. */
  const SIZES: PageSizes := (retired, free, reserved, next) =>
    (if retired == [] then [] else [1]) + if free == [] then [] else [if free == JOINED || free == SINGLE then 2 else 1]

  const FREE: seq<Run> := [Run(10, 5, 0)]
  const TWO: seq<Run> := [Run(10, 2, 0), Run(12, 2, 0)]
  const THREE: seq<Run> := [Run(10, 2, 0), Run(12, 2, 0), Run(13, 2, 0)]

  /** The rounds of the loop: two pages are reserved; their rests are given back, and the
      second joins the free block behind it; the larger leaf takes its rest back, the
      smaller one that follows gives it back again; so one page more is reserved, from the
      joined run; its blocks are given back, and are represented as they are. */
  const ROUNDS: seq<Attempt> := [
    Attempt(Pages(FREE, 15, []), None),
    Attempt(Pages([Run(14, 1, 0)], 15, TWO), None),
    Attempt(Pages(JOINED, 15, TWO), Some([Run(14, 1, 0)])),
    Attempt(Pages(ENDS, 15, TWO), Some(JOINED)),
    Attempt(Pages(SINGLE, 15, THREE), None),
    Attempt(Pages(JOINED, 15, THREE), Some(SINGLE))]

  // ---------------------------------------------------------------- lists, run by run

  lemma {:induction false} CutOne(r: Run, start: nat, count: nat)
    ensures WithoutRange([r], start, count) == CutRun(r, start, start + count)
  {
    assert [r][..0] == [];
  }

  lemma {:induction false} CutTwo(x: Run, y: Run, start: nat, count: nat)
    ensures WithoutRange([x, y], start, count) == CutRun(x, start, start + count) + CutRun(y, start, start + count)
  {
    CutOne(x, start, count);
    assert [x, y][..1] == [x];
  }

  lemma {:induction false} RemovePush(runs: seq<Run>, removed: seq<Run>, r: Run)
    ensures Without(runs, removed + [r]) == WithoutRange(Without(runs, removed), r.start, r.count)
  {
    assert (removed + [r])[..|removed|] == removed;
  }

  lemma {:induction false} PairRemoved(runs: seq<Run>, x: Run, y: Run)
    ensures Without(runs, [x, y]) == WithoutRange(WithoutRange(runs, x.start, x.count), y.start, y.count)
  {
    RemovePush(runs, [], x);
    RemovePush(runs, [x], y);
    assert [] + [x] == [x] && [x] + [y] == [x, y];
  }

  lemma {:induction false} RestPush(reserved: seq<Run>, r: Run, pages: seq<nat>)
    ensures var used, before := Used(pages, |reserved|), Rests(reserved, pages, PAGE);
            Rests(reserved + [r], pages, PAGE) == if used < PAGE then before + [Run(r.start + used, PAGE - used, 0)] else before
  {
    assert (reserved + [r])[..|reserved|] == reserved;
  }

  lemma {:induction false} MergePush(sorted: seq<Run>, r: Run)
    requires r.count > 0
    ensures MergeAll(sorted + [r]) == PushMerged(MergeAll(sorted), r)
  {
    assert (sorted + [r])[..|sorted|] == sorted;
  }

  lemma {:induction false} MergedTwo(x: Run, y: Run)
    requires x.count > 0 && y.count > 0 && x.End() < y.start
    ensures MergeAll([x, y]) == [x, y]
  {
    MergePush([], x);
    MergePush([x], y);
    assert [] + [x] == [x] && [x] + [y] == [x, y];
  }

  // ---------------------------------------------------------------- what is left over

  lemma {:induction false} RestsOfTwo(pages: seq<nat>)
    requires |pages| == 2 && pages[0] == 1 && 1 <= pages[1] <= 2
    ensures Rests(TWO, pages, PAGE) == if pages[1] == 1 then [Run(11, 1, 0), Run(13, 1, 0)] else SINGLE
  {
    RestPush([], Run(10, 2, 0), pages);
    RestPush([Run(10, 2, 0)], Run(12, 2, 0), pages);
    assert [] + [Run(10, 2, 0)] == [Run(10, 2, 0)] && [Run(10, 2, 0)] + [Run(12, 2, 0)] == TWO;
  }

  lemma {:induction false} RestsOfThree(pages: seq<nat>)
    requires pages == [1, 2]
    ensures Rests(THREE, pages, PAGE) == JOINED
  {
    RestsOfTwo(pages);
    RestPush(TWO, Run(13, 2, 0), pages);
    assert TWO + [Run(13, 2, 0)] == THREE;
  }

  /** Beside the first two pages only block 14 is free, whatever the list says. */
  lemma {:induction false} KeptByTwo(free: seq<Run>)
    requires free == [Run(14, 1, 0)] || free == ENDS || free == JOINED
    ensures Without(free, TWO) == [Run(14, 1, 0)]
  {
    PairRemoved(free, Run(10, 2, 0), Run(12, 2, 0));
    CutOne(Run(14, 1, 0), 10, 2);
    CutOne(Run(14, 1, 0), 12, 2);
    CutOne(Run(13, 2, 0), 12, 2);
    CutTwo(Run(11, 1, 0), Run(14, 1, 0), 10, 2);
    CutTwo(Run(11, 1, 0), Run(13, 2, 0), 10, 2);
  }

  lemma {:induction false} KeptByThree(free: seq<Run>)
    requires free == SINGLE || free == JOINED
    ensures Without(free, THREE) == []
  {
    RemovePush(free, TWO, Run(13, 2, 0));
    assert TWO + [Run(13, 2, 0)] == THREE;
    if free == JOINED {
      KeptByTwo(free);
      CutOne(Run(14, 1, 0), 13, 2);
    } else {
      PairRemoved(free, Run(10, 2, 0), Run(12, 2, 0));
      CutOne(Run(11, 1, 0), 10, 2);
    }
  }

  lemma {:induction false} JoinsBehind(out: seq<Run>)
    requires CoalescesTo([Run(14, 1, 0)] + [Run(11, 1, 0), Run(13, 1, 0)], out)
    ensures out == JOINED
  {
    LastIsFirst([Run(11, 1, 0), Run(13, 1, 0)], Run(14, 1, 0), out);
    MergedTwo(Run(11, 1, 0), Run(13, 1, 0));
  }

  /** The first of these runs belongs behind the others, which are in order. */
  lemma {:induction false} LastIsFirst(front: seq<Run>, r: Run, out: seq<Run>)
    requires CoalescesTo([r] + front, out) && StrictByStart(front) && r.count > 0
    requires forall i :: 0 <= i < |front| ==> front[i].start < r.start
    ensures out == PushMerged(MergeAll(front), r)
  {
    CoalescesOnce([r] + front, front + [r], out);
    MergePush(front, r);
  }

  lemma {:induction false} StaysApart(out: seq<Run>)
    requires CoalescesTo([Run(14, 1, 0)] + SINGLE, out)
    ensures out == ENDS
  {
    MergedOne(Run(11, 1, 0));
    LastIsFirst(SINGLE, Run(14, 1, 0), out);
  }

  lemma {:induction false} MergedOne(r: Run)
    requires r.count > 0
    ensures MergeAll([r]) == [r]
  {
    MergePush([], r);
    assert [] + [r] == [r];
  }

  lemma {:induction false} StaysJoined(out: seq<Run>)
    requires CoalescesTo(JOINED, out)
    ensures out == JOINED
  {
    CoalescesOnce(JOINED, JOINED, out);
    MergedTwo(Run(11, 1, 0), Run(13, 2, 0));
  }

  lemma {:induction false} LeftByTwo(free: seq<Run>, pages: seq<nat>, out: seq<Run>)
    requires free == [Run(14, 1, 0)] || free == ENDS || free == JOINED
    requires |pages| == 2 && pages[0] == 1 && 1 <= pages[1] <= 2
    requires LeftOver(out, Pages(free, 15, TWO), pages, PAGE)
    ensures out == if pages[1] == 1 then JOINED else ENDS
  {
    RestsOfTwo(pages);
    KeptByTwo(free);
    if pages[1] == 1 {
      JoinsBehind(out);
    } else {
      StaysApart(out);
    }
  }

  lemma {:induction false} LeftByThree(free: seq<Run>, pages: seq<nat>, out: seq<Run>)
    requires free == SINGLE || free == JOINED
    requires pages == [1, 2] && LeftOver(out, Pages(free, 15, THREE), pages, PAGE)
    ensures out == JOINED
  {
    RestsOfThree(pages);
    KeptByThree(free);
    assert [] + JOINED == JOINED;
    StaysJoined(out);
  }

  // ---------------------------------------------------------------- what is reserved

  lemma {:induction false} ReservesTwo()
    ensures Grown(Pages(FREE, 15, []), PAGE, 2) == Pages([Run(14, 1, 0)], 15, TWO)
  {
    var s1 := TakePage(Pages(FREE, 15, []), PAGE);
    FitIndexIs(FREE, PAGE, 0);
    assert s1 == Pages([Run(12, 3, 0)], 15, [Run(10, 2, 0)]);
    FitIndexIs(s1.free, PAGE, 0);
    var s2 := TakePage(s1, PAGE);
    assert s2 == Pages([Run(14, 1, 0)], 15, TWO);
    assert TakePages(s2, PAGE, 2) == s2 && TakePages(s1, PAGE, 2) == s2;
    assert s2.free[..0] == [];
    assert NonEmpty(s2.free) == s2.free;
  }

  /** The third page is cut from the rest of the second. */
  lemma {:induction false} ReservesThird()
    ensures Grown(Pages(JOINED, 15, TWO), PAGE, 3) == Pages(SINGLE, 15, THREE)
  {
    FitIndexIs(JOINED, PAGE, 1);
    var s := TakePage(Pages(JOINED, 15, TWO), PAGE);
    assert s == Pages([Run(11, 1, 0), Run(15, 0, 0)], 15, THREE);
    assert TakePages(s, PAGE, 3) == s;
    assert s.free[..1] == SINGLE && SINGLE[..0] == [];
    assert NonEmpty(SINGLE) == SINGLE;
  }

  // ---------------------------------------------------------------- the run of the loop

  lemma {:induction false} SizesOf(retired: seq<Run>, k: nat)
    requires retired != [] && k < 6
    ensures SizesAt(retired, ROUNDS[k].pages, SIZES) == [1, if k in {2, 4, 5} then 2 else 1]
  {
  }

  /** What a round that reserves nothing represents next, or has represented before. */
  lemma {:induction false} NextLeft(retired: seq<Run>, k: nat, out: seq<Run>)
    requires retired != [] && 0 < k < 6 && LeftOver(out, ROUNDS[k].pages, SizesAt(retired, ROUNDS[k].pages, SIZES), PAGE)
    ensures out == if k == 2 then ENDS else JOINED
  {
    SizesOf(retired, k);
    var s := ROUNDS[k].pages;
    if k < 4 {
      LeftByTwo(s.free, SizesAt(retired, s, SIZES), out);
    } else {
      LeftByThree(s.free, SizesAt(retired, s, SIZES), out);
    }
  }

  lemma {:induction false} NextAlternates(retired: seq<Run>, s': Attempt, k: nat)
    requires retired != [] && k < 6 && Alternates(retired, ROUNDS[k], s', PAGE, SIZES)
    ensures k == 3 && s' == ROUNDS[4]
  {
    SizesOf(retired, k);
    NextLeft(retired, k, ROUNDS[k].previous.value);
    ReservesThird();
  }

  lemma {:induction false} NextRerepresents(retired: seq<Run>, s': Attempt, k: nat)
    requires retired != [] && k < 6 && Rerepresents(retired, ROUNDS[k], s', PAGE, SIZES)
    ensures k in {1, 2, 4} && s' == ROUNDS[k + 1]
  {
    SizesOf(retired, k);
    var s, out := ROUNDS[k], s'.pages.free;
    NextLeft(retired, k, out);
    assert out != s.pages.free && s.previous != Some(out);
    assert s' == Attempt(s.pages.(free := out), Some(s.pages.free));
  }

  lemma {:induction false} NextRound(retired: seq<Run>, s': Attempt, k: nat)
    requires retired != [] && k < 6 && Round(retired, ROUNDS[k], s', PAGE, SIZES)
    ensures k < 5 && s' == ROUNDS[k + 1]
  {
    if Alternates(retired, ROUNDS[k], s', PAGE, SIZES) {
      NextAlternates(retired, s', k);
    } else if Rerepresents(retired, ROUNDS[k], s', PAGE, SIZES) {
      NextRerepresents(retired, s', k);
    } else {
      SizesOf(retired, k);
      ReservesTwo();
    }
  }

  /** The rounds can only be these. */
  lemma {:induction false} OnlyRounds(retired: seq<Run>, rounds: seq<Attempt>, k: nat)
    requires retired != [] && Rounds(rounds, retired, FREE, 15, PAGE, SIZES) && k < |rounds|
    ensures k < 6 && rounds[k] == ROUNDS[k]
  {
    if k == 0 {
      assert FREE[..0] == [];
      assert NonEmpty(FREE) == FREE;
    } else {
      OnlyRounds(retired, rounds, k - 1);
      assert Round(retired, rounds[k - 1], rounds[k], PAGE, SIZES);
      NextRound(retired, rounds[k], k - 1);
    }
  }

  /** And the loop cannot end before the last of them. */
  lemma {:induction false} EndsLast(retired: seq<Run>, k: nat, r: Reservation)
    requires retired != [] && k < 6
    requires if r.Converged? then Settles(retired, ROUNDS[k].pages, r, PAGE, SIZES) else TooLarge(retired, ROUNDS[k].pages, PAGE, SIZES)
    ensures r.Converged? && r.reserved == THREE && r.free == JOINED
  {
    SizesOf(retired, k);
    if k > 0 && r.Converged? {
      NextLeft(retired, k, ROUNDS[k].pages.free);
    }
  }

  lemma {:induction false} OneFreeRun()
    ensures PoolOnce(FREE, 15)
  {
    MultPush([], Run(10, 5, 0));
    assert FREE == [] + [Run(10, 5, 0)];
  }

  lemma {:induction false} TwoShare(reserved: seq<Run>)
    requires reserved == THREE
    ensures Mult(reserved, 13) >= 2 && !Disjoint(reserved)
  {
    MultOfTwo(reserved, 1, 2, 13);
  }

  /** The loop converges, with two pages that share a block. */
  method Overlap(retired: seq<Run>) returns (r: Reservation)
    requires retired != []
    ensures r.Converged? && r.reserved == THREE && r.free == JOINED && !Disjoint(r.reserved)
  {
    OneFreeRun();
    ghost var rounds;
    r, rounds := ReserveMetadata(retired, FREE, 15, PAGE, SIZES);
    OnlyRounds(retired, rounds, |rounds| - 1);
    EndsLast(retired, |rounds| - 1, r);
    TwoShare(r.reserved);
  }
}
