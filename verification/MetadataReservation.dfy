/** The allocator's free and retired indexes are stored in blocks taken from the
    very free runs they describe.  A commit therefore reserves whole pages and
    repeats until the free runs left over are the free runs the index describes. */
module MetadataReservation {
  import opened Basics
  import opened ExtentRuns

  /** How many blocks each index page takes, given the retired runs, the free runs to
      represent, the reservations so far and the end of the file.  Page contents
      and compression decide this, so it is an arbitrary function here. */
  type PageSizes = (seq<Run>, seq<Run>, seq<Run>, nat) -> seq<nat>

  datatype Reservation =
    | Converged(free: seq<Run>, metadata: seq<Run>, reserved: seq<Run>, next: nat)
    | ResourceLimit

  const CONVERGENCE_LIMIT: nat := 128

  /** Free blocks and the unbounded tail of the file. */
  function Pool(free: seq<Run>, next: nat, b: int): nat {
    Mult(free, b) + One(b >= next)
  }

  ghost predicate PoolOnce(free: seq<Run>, next: nat) {
    forall b :: Pool(free, next, b) <= 1
  }

  /** These extents were taken from the pool. */
  ghost predicate TakenFrom(free: seq<Run>, next: nat, extents: seq<Run>, free': seq<Run>, next': nat) {
    && next <= next' && (AllGen(free, 0) ==> AllGen(free', 0))
    && forall b :: Pool(free, next, b) == Pool(free', next', b) + Mult(extents, b)
  }

  ghost predicate AllPages(reserved: seq<Run>, page: nat) {
    forall i :: 0 <= i < |reserved| ==> reserved[i].count == page
  }

  /** Outside the reservations the pool is what it was; inside, every block came from it. */
  ghost predicate Reserving(free0: seq<Run>, next0: nat, free: seq<Run>, next: nat, reserved: seq<Run>) {
    && next0 <= next
    && (forall b :: Mult(reserved, b) == 0 ==> Pool(free, next, b) == Pool(free0, next0, b))
    && (forall b :: Mult(reserved, b) > 0 ==> Pool(free0, next0, b) == 1 && b < next)
    && (forall b :: Mult(reserved, b) > 0 ==> Mult(free, b) <= Mult(reserved, b))
    && (forall b :: b >= next ==> Mult(free, b) == 0)
  }

  lemma {:induction false} ReserveOne(free0: seq<Run>, next0: nat, free: seq<Run>, next: nat, reserved: seq<Run>,
                   r: Run, free': seq<Run>, next': nat)
    requires PoolOnce(free0, next0) && Reserving(free0, next0, free, next, reserved)
    requires forall b :: Pool(free, next, b) == Pool(free', next', b) + One(r.Has(b))
    requires next <= next'
    ensures Reserving(free0, next0, free', next', reserved + [r])
  {
    MultPush(reserved, r);
    forall b | Mult(reserved + [r], b) > 0
      ensures Pool(free0, next0, b) == 1 && b < next'
    {
      if r.Has(b) {
        assert Pool(free, next, b) >= 1;
      }
    }
    forall b | b >= next' ensures Mult(free', b) == 0 {
      assert Pool(free, next, b) == 1;
    }
    forall b | Mult(reserved + [r], b) > 0
      ensures Mult(free', b) <= Mult(reserved + [r], b)
    {
      assert Pool(free, next, b) == Pool(free', next', b) + One(r.Has(b));
    }
  }

  lemma {:induction false} SameReserving(free0: seq<Run>, next0: nat, free: seq<Run>, free': seq<Run>, next: nat, reserved: seq<Run>)
    requires Reserving(free0, next0, free, next, reserved) && SameCover(free', free)
    ensures Reserving(free0, next0, free', next, reserved)
  {
  }

  // ---------------------------------------------------------------- growth

  /** The free runs, the end of the file and the pages reserved so far. */
  datatype Pages = Pages(free: seq<Run>, next: nat, reserved: seq<Run>)

  /** Where the next page goes. */
  function NextPage(s: Pages, page: nat): Run { Run(FitStart(s.free, s.next, page), page, 0) }

  function TakePage(s: Pages, page: nat): Pages {
    Pages(FitRest(s.free, page), FitNext(s.free, s.next, page), s.reserved + [NextPage(s, page)])
  }

  /** Full pages until there are `wanted` reservations. */
  function TakePages(s: Pages, page: nat, wanted: nat): Pages
    requires |s.reserved| <= wanted
    decreases wanted - |s.reserved|
  {
    if |s.reserved| == wanted then s else TakePages(TakePage(s, page), page, wanted)
  }

  function Grown(s: Pages, page: nat, wanted: nat): Pages
    requires |s.reserved| <= wanted
  {
    var t := TakePages(s, page, wanted);
    t.(free := NonEmpty(t.free))
  }

  /** What every round of the loop keeps. */
  ghost predicate Keeps(free0: seq<Run>, next0: nat, s: Pages, page: nat) {
    && PoolOnce(free0, next0) && Reserving(free0, next0, s.free, s.next, s.reserved)
    && AllPages(s.reserved, page) && (AllGen(free0, 0) ==> AllGen(s.free, 0))
  }

  lemma {:induction false} TakePageKeeps(free0: seq<Run>, next0: nat, s: Pages, page: nat)
    requires Keeps(free0, next0, s, page)
    ensures Keeps(free0, next0, TakePage(s, page), page)
  {
    var r, t := NextPage(s, page), TakePage(s, page);
    FitCover(s.free, s.next, page);
    assert forall b :: Pool(s.free, s.next, b) == Pool(t.free, t.next, b) + One(r.Has(b));
    ReserveOne(free0, next0, s.free, s.next, s.reserved, r, t.free, t.next);
  }

  lemma {:induction false} TakePagesKeep(free0: seq<Run>, next0: nat, s: Pages, page: nat, wanted: nat)
    requires Keeps(free0, next0, s, page) && |s.reserved| <= wanted
    ensures Keeps(free0, next0, TakePages(s, page, wanted), page)
    decreases wanted - |s.reserved|
  {
    if |s.reserved| != wanted {
      TakePageKeeps(free0, next0, s, page);
      TakePagesKeep(free0, next0, TakePage(s, page), page, wanted);
    }
  }

  lemma {:induction false} GrownKeeps(free0: seq<Run>, next0: nat, s: Pages, page: nat, wanted: nat)
    requires Keeps(free0, next0, s, page) && |s.reserved| <= wanted
    ensures Keeps(free0, next0, Grown(s, page, wanted), page)
  {
    var t := TakePages(s, page, wanted);
    TakePagesKeep(free0, next0, s, page, wanted);
    NonEmptyCover(t.free);
    SameReserving(free0, next0, t.free, NonEmpty(t.free), t.next, t.reserved);
  }

  method ReservePage(s: Pages, page: nat) returns (s': Pages)
    ensures s' == TakePage(s, page) && |s'.reserved| == |s.reserved| + 1
  {
    var at, free, next := AllocateBlocks(s.free, s.next, page);
    s' := Pages(free, next, s.reserved + [Run(at, page, 0)]);
  }

  /** Allocate full pages until there are `wanted` reservations. */
  method GrowReservations(s: Pages, page: nat, wanted: nat) returns (grown: Pages)
    requires |s.reserved| <= wanted
    ensures grown == Grown(s, page, wanted)
  {
    grown := s;
    while |grown.reserved| != wanted
      invariant |grown.reserved| <= wanted
      invariant TakePages(grown, page, wanted) == TakePages(s, page, wanted)
      decreases wanted - |grown.reserved|
    {
      grown := ReservePage(grown, page);
    }
    var free := EraseEmpty(grown.free);
    grown := grown.(free := free);
  }

  // ---------------------------------------------------------------- one representation

  function Used(pages: seq<nat>, i: nat): nat { if i < |pages| then pages[i] else 0 }

  /** The blocks the index pages occupy: a prefix of each reservation. */
  function Occupied(reserved: seq<Run>, pages: seq<nat>): (out: seq<Run>)
    requires |pages| <= |reserved|
    ensures |out| == |pages|
    ensures forall i :: 0 <= i < |pages| ==> out[i] == Run(reserved[i].start, pages[i], 0)
  {
    seq(|pages|, i requires 0 <= i < |pages| => Run(reserved[i].start, pages[i], 0))
  }

  ghost predicate PagesFit(pages: seq<nat>, page: nat) {
    forall i :: 0 <= i < |pages| ==> pages[i] <= page
  }

  /** The rests of the reservations beside the pages laid out in them. */
  function Rests(reserved: seq<Run>, pages: seq<nat>, page: nat): (rests: seq<Run>)
    ensures AllGen(rests, 0)
  {
    if reserved == [] then []
    else
      var n := |reserved| - 1;
      var used := Used(pages, n);
      var before := Rests(reserved[..n], pages, page);
      if used < page then before + [Run(reserved[n].start + used, page - used, 0)] else before
  }

  function Front(pages: seq<nat>, n: nat): seq<nat> { if |pages| <= n then pages else pages[..n] }

  lemma {:induction false} OccupiedStep(reserved: seq<Run>, pages: seq<nat>, b: int)
    requires reserved != []
    ensures var n := |reserved| - 1;
            Mult(Occupied(reserved, Front(pages, n + 1)), b)
            == Mult(Occupied(reserved[..n], Front(pages, n)), b) + One(Run(reserved[n].start, Used(pages, n), 0).Has(b))
  {
    var n := |reserved| - 1;
    var was := Occupied(reserved[..n], Front(pages, n));
    if n < |pages| {
      assert Occupied(reserved, Front(pages, n + 1)) == was + [Run(reserved[n].start, pages[n], 0)];
      MultPush(was, Run(reserved[n].start, pages[n], 0));
    } else {
      assert Occupied(reserved, Front(pages, n + 1)) == was;
    }
  }

  lemma {:induction false} RestsStep(reserved: seq<Run>, pages: seq<nat>, page: nat, b: int)
    requires reserved != [] && reserved[|reserved| - 1].count == page && Used(pages, |reserved| - 1) <= page
    ensures var n := |reserved| - 1;
            Mult(Rests(reserved, pages, page), b) + One(Run(reserved[n].start, Used(pages, n), 0).Has(b))
            == Mult(Rests(reserved[..n], pages, page), b) + One(reserved[n].Has(b))
  {
    var n := |reserved| - 1;
    var used := Used(pages, n);
    var before := Rests(reserved[..n], pages, page);
    if used < page {
      MultPush(before, Run(reserved[n].start + used, page - used, 0));
      assert Rests(reserved, pages, page) == before + [Run(reserved[n].start + used, page - used, 0)];
    } else {
      assert Rests(reserved, pages, page) == before;
    }
  }

  lemma {:induction false} RestsCover(reserved: seq<Run>, pages: seq<nat>, page: nat, b: int)
    requires AllPages(reserved, page) && PagesFit(pages, page)
    ensures Mult(Rests(reserved, pages, page), b) + Mult(Occupied(reserved, Front(pages, |reserved|)), b) == Mult(reserved, b)
  {
    if reserved == [] {
      assert Occupied(reserved, Front(pages, 0)) == [];
    } else {
      RestsCover(reserved[..|reserved| - 1], pages, page, b);
      OccupiedStep(reserved, pages, b);
      RestsStep(reserved, pages, page, b);
    }
  }

  /** The free runs that are left if the index pages have these sizes. */
  ghost predicate LeftOver(out: seq<Run>, s: Pages, pages: seq<nat>, page: nat) {
    CoalescesTo(Without(s.free, s.reserved) + Rests(s.reserved, pages, page), out)
  }

  ghost predicate Represents(out: seq<Run>, free: seq<Run>, reserved: seq<Run>, pages: seq<nat>) {
    && |pages| <= |reserved|
    && (forall b :: Mult(Occupied(reserved, pages), b) <= Mult(reserved, b))
    && (forall b :: Mult(out, b) + Mult(Occupied(reserved, pages), b)
                    == if Mult(reserved, b) > 0 then Mult(reserved, b) else Mult(free, b))
  }

  lemma {:induction false} LeftOverCover(out: seq<Run>, s: Pages, pages: seq<nat>, page: nat)
    requires |pages| <= |s.reserved| && AllPages(s.reserved, page) && PagesFit(pages, page)
    requires SameCover(out, Without(s.free, s.reserved) + Rests(s.reserved, pages, page))
    ensures Represents(out, s.free, s.reserved, pages)
  {
    var kept, rests := Without(s.free, s.reserved), Rests(s.reserved, pages, page);
    forall b
      ensures Mult(out, b) + Mult(Occupied(s.reserved, pages), b)
              == if Mult(s.reserved, b) > 0 then Mult(s.reserved, b) else Mult(s.free, b)
      ensures Mult(Occupied(s.reserved, pages), b) <= Mult(s.reserved, b)
    {
      MultConcat(kept, rests, b);
      WithoutCover(s.free, s.reserved, b);
      RestsCover(s.reserved, pages, page, b);
    }
  }

  method UnusedParts(reserved: seq<Run>, pages: seq<nat>, page: nat) returns (ok: bool, rests: seq<Run>)
    requires |pages| <= |reserved|
    ensures ok <==> PagesFit(pages, page)
    ensures ok ==> rests == Rests(reserved, pages, page)
  {
    rests := [];
    for n := 0 to |reserved|
      invariant forall i :: 0 <= i < n && i < |pages| ==> pages[i] <= page
      invariant rests == Rests(reserved[..n], pages, page)
    {
      assert reserved[..n + 1][..n] == reserved[..n];
      var used := if n < |pages| then pages[n] else 0;
      if used > page {
        return false, [];
      }
      if used != page {
        rests := rests + [Run(reserved[n].start + used, page - used, 0)];
      }
    }
    assert reserved[..|reserved|] == reserved;
    ok := true;
  }

  method FinalFreeRuns(free: seq<Run>, reserved: seq<Run>, pages: seq<nat>, page: nat, ghost next: nat)
    returns (ok: bool, out: seq<Run>)
    requires |pages| <= |reserved| && AllPages(reserved, page)
    ensures ok <==> PagesFit(pages, page)
    ensures ok ==> Represents(out, free, reserved, pages) && Positive(out)
    ensures ok ==> LeftOver(out, Pages(free, next, reserved), pages, page)
    ensures ok && AllGen(free, 0) ==> AllGen(out, 0)
    ensures ok && Disjoint(reserved) && Disjoint(free) ==> Separated(out)
  {
    var kept := RemoveAll(free, reserved);
    var rests;
    ok, rests := UnusedParts(reserved, pages, page);
    if !ok {
      return false, [];
    }
    out := Coalesce(kept + rests);
    if AllGen(free, 0) {
      WithoutGen(free, reserved);
      assert AllGen(kept + rests, 0);
    }
    LeftOverCover(out, Pages(free, next, reserved), pages, page);
  }

  // ---------------------------------------------------------------- the loop

  /** The state at the start of a round; `previous` is what the last round represented,
      unless that round reserved pages. */
  datatype Attempt = Attempt(pages: Pages, previous: Option<seq<Run>>)

  function SizesAt(retired: seq<Run>, s: Pages, sizes: PageSizes): seq<nat> {
    sizes(retired, s.free, s.reserved, s.next)
  }

  /** The free runs from which a round reserves pages, if it does: those represented, or
      those of the round before the last when two representations alternate. */
  function GrowsFrom(retired: seq<Run>, s: Attempt, sizes: PageSizes): Pages {
    if |SizesAt(retired, s.pages, sizes)| > |s.pages.reserved| || s.previous.None? then s.pages
    else s.pages.(free := s.previous.value)
  }

  /** More index pages than reservations: reserve the missing ones. */
  ghost predicate ReservesPages(retired: seq<Run>, s: Attempt, s': Attempt, page: nat, sizes: PageSizes) {
    var pages := SizesAt(retired, s.pages, sizes);
    |pages| > |s.pages.reserved| && s' == Attempt(Grown(s.pages, page, |pages|), None)
  }

  /** Two representations alternate: reserve one page more. */
  ghost predicate Alternates(retired: seq<Run>, s: Attempt, s': Attempt, page: nat, sizes: PageSizes) {
    var pages := SizesAt(retired, s.pages, sizes);
    && |pages| <= |s.pages.reserved| && PagesFit(pages, page)
    && s.previous.Some? && s.previous.value != s.pages.free && LeftOver(s.previous.value, s.pages, pages, page)
    && s' == Attempt(Grown(s.pages.(free := s.previous.value), page, |s.pages.reserved| + 1), None)
  }

  /** What is left is not what was represented: represent it in the next round. */
  ghost predicate Rerepresents(retired: seq<Run>, s: Attempt, s': Attempt, page: nat, sizes: PageSizes) {
    var pages := SizesAt(retired, s.pages, sizes);
    && |pages| <= |s.pages.reserved| && PagesFit(pages, page)
    && s'.pages.free != s.pages.free && s.previous != Some(s'.pages.free)
    && LeftOver(s'.pages.free, s.pages, pages, page)
    && s' == Attempt(s.pages.(free := s'.pages.free), Some(s.pages.free))
  }

  /** One round that does not end the loop. */
  ghost predicate Round(retired: seq<Run>, s: Attempt, s': Attempt, page: nat, sizes: PageSizes) {
    || ReservesPages(retired, s, s', page, sizes)
    || Alternates(retired, s, s', page, sizes)
    || Rerepresents(retired, s, s', page, sizes)
  }

  /** Consecutive rounds. */
  ghost predicate Follow(rounds: seq<Attempt>, retired: seq<Run>, page: nat, sizes: PageSizes) {
    forall k :: 0 < k < |rounds| ==> Round(retired, rounds[k - 1], rounds[k], page, sizes)
  }

  /** The rounds of the loop, from the free runs it is given. */
  ghost predicate Rounds(rounds: seq<Attempt>, retired: seq<Run>, free0: seq<Run>, next0: nat, page: nat, sizes: PageSizes) {
    && rounds != [] && rounds[0] == Attempt(Pages(NonEmpty(free0), next0, []), None)
    && Follow(rounds, retired, page, sizes)
  }

  /** The round that ends the loop: what is left is what was represented. */
  ghost predicate Settles(retired: seq<Run>, s: Pages, r: Reservation, page: nat, sizes: PageSizes) {
    var pages := SizesAt(retired, s, sizes);
    && |pages| <= |s.reserved| && PagesFit(pages, page) && LeftOver(s.free, s, pages, page)
    && r == Converged(s.free, Occupied(s.reserved, pages), s.reserved, s.next)
  }

  /** A round that finds a page larger than its reservation. */
  ghost predicate TooLarge(retired: seq<Run>, s: Pages, page: nat, sizes: PageSizes) {
    var pages := SizesAt(retired, s, sizes);
    |pages| <= |s.reserved| && !PagesFit(pages, page)
  }

  /** The loop ends without converging: a page is too large, or the rounds are used up. */
  ghost predicate GaveUp(rounds: seq<Attempt>, retired: seq<Run>, free0: seq<Run>, next0: nat, page: nat, sizes: PageSizes) {
    && PoolOnce(free0, next0) && Rounds(rounds, retired, free0, next0, page, sizes)
    && (|rounds| == CONVERGENCE_LIMIT + 1 || TooLarge(retired, rounds[|rounds| - 1].pages, page, sizes))
  }

  /** Every block of the pool is accounted for as often as reservations cover it. */
  ghost predicate Accounted(free0: seq<Run>, next0: nat, r: Reservation)
    requires r.Converged?
  {
    && (forall b :: Pool(r.free, r.next, b) + Mult(r.metadata, b)
                    == if Mult(r.reserved, b) > 0 then Mult(r.reserved, b) else Pool(free0, next0, b))
    && (forall b :: Mult(r.reserved, b) > 0 ==> Pool(free0, next0, b) == 1)
    && (forall b :: Mult(r.metadata, b) <= Mult(r.reserved, b))
  }

  /** The index pages are laid out at the reserved places and have exactly the sizes
      needed to describe the free runs that remain beside them. */
  ghost predicate SelfDescribing(retired: seq<Run>, r: Reservation, sizes: PageSizes)
    requires r.Converged?
  {
    var pages := sizes(retired, r.free, r.reserved, r.next);
    |pages| <= |r.reserved| && r.metadata == Occupied(r.reserved, pages)
  }

  lemma {:induction false} ReservingAccounted(free0: seq<Run>, next0: nat, free: seq<Run>, next: nat, reserved: seq<Run>,
                           pages: seq<nat>, out: seq<Run>)
    requires Reserving(free0, next0, free, next, reserved) && Represents(out, free, reserved, pages)
    ensures Accounted(free0, next0, Converged(out, Occupied(reserved, pages), reserved, next))
    ensures Reserving(free0, next0, out, next, reserved)
  {
    var used := Occupied(reserved, pages);
    forall b
      ensures Pool(out, next, b) + Mult(used, b)
              == if Mult(reserved, b) > 0 then Mult(reserved, b) else Pool(free0, next0, b)
      ensures Mult(reserved, b) == 0 ==> Pool(out, next, b) == Pool(free0, next0, b)
      ensures b >= next ==> Mult(out, b) == 0
    {
      assert Mult(used, b) <= Mult(reserved, b);
      assert Mult(reserved, b) == 0 ==> Pool(free, next, b) == Pool(free0, next0, b);
    }
  }

  lemma {:induction false} ReservedDisjoint(free0: seq<Run>, next0: nat, free: seq<Run>, next: nat, reserved: seq<Run>)
    requires PoolOnce(free0, next0) && Reserving(free0, next0, free, next, reserved) && Disjoint(reserved)
    ensures Disjoint(free)
  {
    forall b ensures Mult(free, b) <= 1 {
      assert Mult(reserved, b) == 0 ==> Pool(free, next, b) == Pool(free0, next0, b);
    }
  }

  /** One round: reserve pages, represent what is left, or settle. */
  method Attempted(retired: seq<Run>, s: Attempt, page: nat, sizes: PageSizes, ghost free0: seq<Run>, ghost next0: nat)
    returns (done: Option<Reservation>, s': Attempt)
    requires Keeps(free0, next0, s.pages, page)
    requires s.previous.Some? && AllGen(free0, 0) ==> AllGen(s.previous.value, 0)
    ensures done.None? ==> Round(retired, s, s', page, sizes) && Keeps(free0, next0, s'.pages, page)
    ensures done.None? && s'.previous.Some? && AllGen(free0, 0) ==> AllGen(s'.previous.value, 0)
    ensures done == Some(ResourceLimit) ==> TooLarge(retired, s.pages, page, sizes)
    ensures done.Some? && done.value.Converged? ==>
            && Settles(retired, s.pages, done.value, page, sizes) && Accounted(free0, next0, done.value)
            && Positive(done.value.free) && (Disjoint(s.pages.reserved) ==> Separated(done.value.free))
  {
    done, s' := None, s;
    var Attempt(p, previous) := s;
    var pages := sizes(retired, p.free, p.reserved, p.next);
    if |pages| > |p.reserved| {
      GrownKeeps(free0, next0, p, page, |pages|);
      var grown := GrowReservations(p, page, |pages|);
      s' := Attempt(grown, None);
      return;
    }
    var ok, final := FinalFreeRuns(p.free, p.reserved, pages, page, p.next);
    if !ok {
      done := Some(ResourceLimit);
      return;
    }
    ReservingAccounted(free0, next0, p.free, p.next, p.reserved, pages, final);
    if final == p.free {
      if Disjoint(p.reserved) {
        ReservedDisjoint(free0, next0, p.free, p.next, p.reserved);
      }
      done := Some(Converged(final, Occupied(p.reserved, pages), p.reserved, p.next));
      return;
    }
    if previous == Some(final) {
      GrownKeeps(free0, next0, p.(free := final), page, |p.reserved| + 1);
      var grown := GrowReservations(p.(free := final), page, |p.reserved| + 1);
      s' := Attempt(grown, None);
      return;
    }
    s' := Attempt(p.(free := final), Some(p.free));
  }

  lemma {:induction false} StartKeeps(free0: seq<Run>, next0: nat, page: nat)
    requires PoolOnce(free0, next0)
    ensures Keeps(free0, next0, Pages(NonEmpty(free0), next0, []), page)
  {
    NonEmptyCover(free0);
    forall b | b >= next0 ensures Mult(NonEmpty(free0), b) == 0 {
      assert Pool(free0, next0, b) <= 1;
    }
  }

  method ReserveMetadata(retired: seq<Run>, free0: seq<Run>, next0: nat, page: nat, sizes: PageSizes)
    returns (r: Reservation, ghost rounds: seq<Attempt>)
    requires page > 0 && PoolOnce(free0, next0)
    ensures Rounds(rounds, retired, free0, next0, page, sizes)
    ensures if r.Converged? then Settles(retired, rounds[|rounds| - 1].pages, r, page, sizes)
            else GaveUp(rounds, retired, free0, next0, page, sizes)
    ensures r.Converged? ==> Accounted(free0, next0, r) && next0 <= r.next
    ensures r.Converged? ==> SelfDescribing(retired, r, sizes)
    ensures r.Converged? ==> AllPages(r.reserved, page) && Positive(r.free)
    ensures r.Converged? && AllGen(free0, 0) ==> AllGen(r.free, 0)
    ensures r.Converged? && Disjoint(r.reserved) ==> Separated(r.free)
  {
    var free := EraseEmpty(free0);
    var s := Attempt(Pages(free, next0, []), None);
    rounds := [s];
    StartKeeps(free0, next0, page);
    for attempt := 0 to CONVERGENCE_LIMIT
      invariant |rounds| == attempt + 1 && rounds[attempt] == s && Rounds(rounds, retired, free0, next0, page, sizes)
      invariant Keeps(free0, next0, s.pages, page)
      invariant s.previous.Some? && AllGen(free0, 0) ==> AllGen(s.previous.value, 0)
    {
      var done, s' := Attempted(retired, s, page, sizes, free0, next0);
      if done.Some? {
        return done.value, rounds;
      }
      rounds, s := rounds + [s'], s';
    }
    r := ResourceLimit;
  }

  // ---------------------------------------------------------------- overlapping reservations

  /** The first `page` blocks of the run the next page would be cut from hold no block of
      an earlier reservation: none of its unused rests has been given back there. */
  ghost predicate Clear(s: Pages, page: nat) {
    var i := FitIndex(s.free, page);
    i < |s.free| ==> forall b :: s.free[i].start <= b < s.free[i].start + page ==> Mult(s.reserved, b) == 0
  }

  ghost predicate GrowsClear(s: Pages, page: nat, wanted: nat)
    requires |s.reserved| <= wanted
    decreases wanted - |s.reserved|
  {
    |s.reserved| == wanted || (Clear(s, page) && GrowsClear(TakePage(s, page), page, wanted))
  }

  lemma {:induction false} ClearIff(free0: seq<Run>, next0: nat, s: Pages, page: nat)
    requires Keeps(free0, next0, s, page)
    ensures Disjoint(TakePage(s, page).reserved) <==> Disjoint(s.reserved) && Clear(s, page)
  {
    var r := NextPage(s, page);
    MultPush(s.reserved, r);
    assert forall b :: Mult(TakePage(s, page).reserved, b) == Mult(s.reserved, b) + One(r.Has(b));
    if Clear(s, page) && Disjoint(s.reserved) {
      forall b ensures Mult(TakePage(s, page).reserved, b) <= 1 {
        assert r.Has(b) ==> Mult(s.reserved, b) == 0;
      }
    }
    if Disjoint(TakePage(s, page).reserved) {
      forall b ensures Mult(s.reserved, b) + One(r.Has(b)) <= 1 {
        assert Mult(TakePage(s, page).reserved, b) <= 1;
      }
    }
  }

  lemma {:induction false} GrowsClearIff(free0: seq<Run>, next0: nat, s: Pages, page: nat, wanted: nat)
    requires Keeps(free0, next0, s, page) && |s.reserved| <= wanted
    ensures Disjoint(Grown(s, page, wanted).reserved) <==> Disjoint(s.reserved) && GrowsClear(s, page, wanted)
    decreases wanted - |s.reserved|
  {
    if |s.reserved| != wanted {
      ClearIff(free0, next0, s, page);
      TakePageKeeps(free0, next0, s, page);
      GrowsClearIff(free0, next0, TakePage(s, page), page, wanted);
    }
  }

  lemma {:induction false} LeftOverKeeps(free0: seq<Run>, next0: nat, s: Pages, out: seq<Run>, pages: seq<nat>, page: nat)
    requires Keeps(free0, next0, s, page) && LeftOver(out, s, pages, page)
    requires |pages| <= |s.reserved| && PagesFit(pages, page)
    ensures Keeps(free0, next0, s.(free := out), page)
  {
    var left := Without(s.free, s.reserved) + Rests(s.reserved, pages, page);
    CoalescesCover(left, out);
    LeftOverCover(out, s, pages, page);
    ReservingAccounted(free0, next0, s.free, s.next, s.reserved, pages, out);
    if AllGen(free0, 0) {
      WithoutGen(s.free, s.reserved);
      assert AllGen(left, 0);
    }
  }

  /** The pages a round reserves are clear of the pages reserved before. */
  ghost predicate ClearRound(retired: seq<Run>, s: Attempt, s': Attempt, page: nat, sizes: PageSizes) {
    && |s.pages.reserved| <= |s'.pages.reserved|
    && GrowsClear(GrowsFrom(retired, s, sizes), page, |s'.pages.reserved|)
  }

  /** Growth from a list of free runs, whatever round it happens in. */
  lemma {:induction false} GrowthRound(free0: seq<Run>, next0: nat, from: Pages, page: nat, wanted: nat)
    requires Keeps(free0, next0, from, page) && |from.reserved| <= wanted
    ensures var grown := Grown(from, page, wanted);
            && Keeps(free0, next0, grown, page) && |grown.reserved| == wanted
            && (Disjoint(grown.reserved) <==> Disjoint(from.reserved) && GrowsClear(from, page, wanted))
  {
    GrownKeeps(free0, next0, from, page, wanted);
    GrowsClearIff(free0, next0, from, page, wanted);
    GrownSize(from, page, wanted);
  }

  lemma {:induction false} RoundClearIff(retired: seq<Run>, s: Attempt, s': Attempt, page: nat, sizes: PageSizes,
                                         free0: seq<Run>, next0: nat)
    requires Keeps(free0, next0, s.pages, page) && Round(retired, s, s', page, sizes)
    ensures Keeps(free0, next0, s'.pages, page)
    ensures Disjoint(s'.pages.reserved) <==> Disjoint(s.pages.reserved) && ClearRound(retired, s, s', page, sizes)
  {
    if ReservesPages(retired, s, s', page, sizes) {
      GrowthRound(free0, next0, s.pages, page, |SizesAt(retired, s.pages, sizes)|);
    } else if Alternates(retired, s, s', page, sizes) {
      LeftOverKeeps(free0, next0, s.pages, s.previous.value, SizesAt(retired, s.pages, sizes), page);
      GrowthRound(free0, next0, s.pages.(free := s.previous.value), page, |s.pages.reserved| + 1);
    } else {
      LeftOverKeeps(free0, next0, s.pages, s'.pages.free, SizesAt(retired, s.pages, sizes), page);
    }
  }

  lemma {:induction false} GrownSize(s: Pages, page: nat, wanted: nat)
    requires |s.reserved| <= wanted
    ensures |Grown(s, page, wanted).reserved| == wanted
    decreases wanted - |s.reserved|
  {
    if |s.reserved| != wanted {
      GrownSize(TakePage(s, page), page, wanted);
    }
  }

  lemma {:induction false} RoundsKeep(rounds: seq<Attempt>, retired: seq<Run>, free0: seq<Run>, next0: nat, page: nat, sizes: PageSizes, k: nat)
    requires PoolOnce(free0, next0) && Rounds(rounds, retired, free0, next0, page, sizes) && k < |rounds|
    ensures Keeps(free0, next0, rounds[k].pages, page)
  {
    if k == 0 {
      StartKeeps(free0, next0, page);
    } else {
      RoundsKeep(rounds, retired, free0, next0, page, sizes, k - 1);
      RoundClearIff(retired, rounds[k - 1], rounds[k], page, sizes, free0, next0);
    }
  }

  ghost predicate AllClear(rounds: seq<Attempt>, retired: seq<Run>, page: nat, sizes: PageSizes) {
    forall k :: 0 < k < |rounds| ==> ClearRound(retired, rounds[k - 1], rounds[k], page, sizes)
  }

  /** Up to a round: reservations disjoint if and only if all pages so far were clear. */
  lemma {:induction false} DisjointSoFar(rounds: seq<Attempt>, retired: seq<Run>, free0: seq<Run>, next0: nat, page: nat, sizes: PageSizes, n: nat)
    requires PoolOnce(free0, next0) && Rounds(rounds, retired, free0, next0, page, sizes) && n < |rounds|
    ensures Disjoint(rounds[n].pages.reserved) <==>
            forall k :: 0 < k <= n ==> ClearRound(retired, rounds[k - 1], rounds[k], page, sizes)
  {
    if n > 0 {
      DisjointSoFar(rounds, retired, free0, next0, page, sizes, n - 1);
      RoundsKeep(rounds, retired, free0, next0, page, sizes, n - 1);
      RoundClearIff(retired, rounds[n - 1], rounds[n], page, sizes, free0, next0);
    }
  }

  /** The reservations are pairwise disjoint if and only if every page was cut from
      blocks that no earlier reservation had given back. */
  lemma {:induction false} DisjointIffClear(rounds: seq<Attempt>, retired: seq<Run>, free0: seq<Run>, next0: nat, page: nat, sizes: PageSizes)
    requires PoolOnce(free0, next0) && Rounds(rounds, retired, free0, next0, page, sizes)
    ensures Disjoint(rounds[|rounds| - 1].pages.reserved) <==> AllClear(rounds, retired, page, sizes)
  {
    DisjointSoFar(rounds, retired, free0, next0, page, sizes, |rounds| - 1);
  }

  /** The commit keeps every block of the pool exactly once if and only if no page was
      cut from an earlier reservation. */
  lemma {:induction false} ConservesIffClear(rounds: seq<Attempt>, retired: seq<Run>, free0: seq<Run>, next0: nat, page: nat,
                                             sizes: PageSizes, r: Reservation)
    requires PoolOnce(free0, next0) && Rounds(rounds, retired, free0, next0, page, sizes)
    requires Settles(retired, rounds[|rounds| - 1].pages, r, page, sizes)
    ensures (forall b :: Pool(r.free, r.next, b) + Mult(r.metadata, b) == Pool(free0, next0, b))
            <==> AllClear(rounds, retired, page, sizes)
  {
    var s := rounds[|rounds| - 1].pages;
    RoundsKeep(rounds, retired, free0, next0, page, sizes, |rounds| - 1);
    CoalescesCover(Without(s.free, s.reserved) + Rests(s.reserved, SizesAt(retired, s, sizes), page), s.free);
    LeftOverCover(s.free, s, SizesAt(retired, s, sizes), page);
    ReservingAccounted(free0, next0, s.free, s.next, s.reserved, SizesAt(retired, s, sizes), s.free);
    DisjointIffClear(rounds, retired, free0, next0, page, sizes);
    if !Disjoint(r.reserved) {
      var b :| Mult(r.reserved, b) > 1;
      assert Pool(r.free, r.next, b) + Mult(r.metadata, b) > Pool(free0, next0, b);
    }
  }

  // ---------------------------------------------------------------- no pages

  ghost predicate NoPages(sizes: PageSizes) {
    forall retired, free, reserved, next :: sizes(retired, free, reserved, next) == []
  }

  /** Without pages the first round only puts the free runs in order. */
  lemma {:induction false} NoPagesRound(retired: seq<Run>, s: Attempt, s': Attempt, page: nat, sizes: PageSizes)
    requires NoPages(sizes) && s.pages.reserved == [] && s.previous.None? && Round(retired, s, s', page, sizes)
    ensures s'.pages.reserved == [] && CoalescesTo(s.pages.free, s'.pages.free)
  {
    assert SizesAt(retired, s.pages, sizes) == [];
    assert s.pages.free + [] == s.pages.free;
  }

  /** Runs in order, with gaps, stay as they are. */
  lemma {:induction false} MergedAlready(runs: seq<Run>)
    requires Separated(runs)
    ensures MergeAll(runs) == runs
  {
    if runs != [] {
      var n := |runs| - 1;
      var front := runs[..n];
      assert Separated(front);
      MergedAlready(front);
      assert front == [] || front[|front| - 1].End() < runs[n].start;
      assert PushMerged(front, runs[n]) == front + [runs[n]];
      assert runs == front + [runs[n]];
    }
  }

  lemma {:induction false} CoalescedAlready(runs: seq<Run>, out: seq<Run>)
    requires Separated(runs) && CoalescesTo(runs, out)
    ensures out == runs
  {
    assert forall i, j :: 0 <= i < j < |runs| ==> runs[i].End() < runs[j].start;
    CoalescesOnce(runs, runs, out);
    MergedAlready(runs);
  }

  /** Disjoint runs come out in order, with gaps. */
  lemma {:induction false} CoalescesSeparated(runs: seq<Run>, out: seq<Run>)
    requires Positive(runs) && Disjoint(runs) && CoalescesTo(runs, out)
    ensures Separated(out)
  {
    var sorted: seq<Run> :| multiset(sorted) == multiset(runs) && SortedByStart(sorted) && out == MergeAll(sorted);
    forall i | 0 <= i < |sorted| ensures sorted[i].count > 0 {
      var k := Member(sorted, runs, i);
    }
    forall b ensures Mult(sorted, b) <= 1 {
      MultPermutation(sorted, runs, b);
    }
    MergeSeparates(sorted, |sorted|);
    assert sorted[..|sorted|] == sorted;
  }

  lemma {:induction false} MergeSeparates(sorted: seq<Run>, n: nat)
    requires SortedByStart(sorted) && Positive(sorted) && Disjoint(sorted) && n <= |sorted|
    ensures MergedShape(sorted, MergeAll(sorted[..n]), n) && SameCover(MergeAll(sorted[..n]), sorted[..n])
    ensures Separated(MergeAll(sorted[..n]))
  {
    if n > 0 {
      MergeSeparates(sorted, n - 1);
      assert sorted[..n][..n - 1] == sorted[..n - 1];
      CoalesceStep(sorted, MergeAll(sorted[..n - 1]), n - 1);
    }
  }

  /** Without pages the loop converges, in its first round or its second. */
  lemma {:induction false} NoPagesConverges(rounds: seq<Attempt>, retired: seq<Run>, free0: seq<Run>, next0: nat, page: nat, sizes: PageSizes)
    requires NoPages(sizes)
    ensures !GaveUp(rounds, retired, free0, next0, page, sizes)
  {
    if GaveUp(rounds, retired, free0, next0, page, sizes) {
      NoPagesSettle(rounds, retired, free0, next0, page, sizes);
    }
  }

  lemma {:induction false} NoPagesSettle(rounds: seq<Attempt>, retired: seq<Run>, free0: seq<Run>, next0: nat, page: nat, sizes: PageSizes)
    requires NoPages(sizes) && PoolOnce(free0, next0) && Rounds(rounds, retired, free0, next0, page, sizes)
    ensures |rounds| <= 2
  {
    if |rounds| > 2 {
      assert Round(retired, rounds[0], rounds[1], page, sizes) && Round(retired, rounds[1], rounds[2], page, sizes);
      NoPagesRound(retired, rounds[0], rounds[1], page, sizes);
      var first, second := rounds[0].pages.free, rounds[1].pages.free;
      NonEmptyCover(free0);
      forall b ensures Mult(first, b) <= 1 {
        assert Pool(free0, next0, b) <= 1;
      }
      CoalescesSeparated(first, second);
      SecondEnds(retired, rounds[1], rounds[2], page, sizes);
    }
  }

  lemma {:induction false} SecondEnds(retired: seq<Run>, s: Attempt, s': Attempt, page: nat, sizes: PageSizes)
    requires NoPages(sizes) && s.pages.reserved == [] && Separated(s.pages.free)
    ensures !Round(retired, s, s', page, sizes)
  {
    if Round(retired, s, s', page, sizes) {
      assert SizesAt(retired, s.pages, sizes) == [];
      var out := if Alternates(retired, s, s', page, sizes) then s.previous.value else s'.pages.free;
      assert s.pages.free + [] == s.pages.free;
      CoalescedAlready(s.pages.free, out);
    }
  }
}
