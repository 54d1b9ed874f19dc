/** Taking the references a commit retains out of its retired runs: a two-pointer
    sweep over runs sorted by start.  Each remaining block keeps the generation
    that retired it. */
module Retirement {
  import opened ExtentRuns

  /** The runs of one retirement generation. */
  function OfGen(runs: seq<Run>, g: nat): seq<Run> {
    if runs == [] then []
    else
      var n := |runs| - 1;
      OfGen(runs[..n], g) + if runs[n].gen == g then [runs[n]] else []
  }

  lemma {:induction false} OfGenConcat(a: seq<Run>, c: seq<Run>, g: nat)
    ensures OfGen(a + c, g) == OfGen(a, g) + OfGen(c, g)
  {
    if c == [] {
      assert a + c == a;
    } else {
      var n := |c| - 1;
      assert (a + c)[..|a + c| - 1] == a + c[..n];
      OfGenConcat(a, c[..n], g);
    }
  }

  lemma {:induction false} OfGenCount(runs: seq<Run>, g: nat, r: Run)
    ensures multiset(OfGen(runs, g))[r] == if r.gen == g then multiset(runs)[r] else 0
  {
    if runs != [] {
      var n := |runs| - 1;
      OfGenCount(runs[..n], g, r);
      assert runs == runs[..n] + [runs[n]];
    }
  }

  lemma {:induction false} OfGenPermutation(a: seq<Run>, c: seq<Run>, g: nat)
    requires multiset(a) == multiset(c)
    ensures multiset(OfGen(a, g)) == multiset(OfGen(c, g))
  {
    forall r: Run ensures multiset(OfGen(a, g))[r] == multiset(OfGen(c, g))[r] {
      OfGenCount(a, g, r);
      OfGenCount(c, g, r);
    }
  }

  lemma {:induction false} OfGenUniform(runs: seq<Run>, g: nat, h: nat)
    requires forall i :: 0 <= i < |runs| ==> runs[i].gen == h
    ensures OfGen(runs, g) == if g == h then runs else []
  {
    if runs != [] {
      var n := |runs| - 1;
      OfGenUniform(runs[..n], g, h);
      assert runs == runs[..n] + [runs[n]];
    }
  }

  lemma {:induction false} OfGenBelow(runs: seq<Run>, g: nat, b: int)
    ensures Mult(OfGen(runs, g), b) <= Mult(runs, b)
  {
    if runs != [] {
      var n := |runs| - 1;
      OfGenBelow(runs[..n], g, b);
      MultConcat(OfGen(runs[..n], g), if runs[n].gen == g then [runs[n]] else [], b);
    }
  }

  lemma {:induction false} OfGenMember(runs: seq<Run>, i: nat, b: int)
    requires i < |runs| && runs[i].Has(b)
    ensures Mult(OfGen(runs, runs[i].gen), b) >= 1
  {
    var n := |runs| - 1;
    var g := runs[i].gen;
    var last := if runs[n].gen == g then [runs[n]] else [];
    MultConcat(OfGen(runs[..n], g), last, b);
    if i < n {
      OfGenMember(runs[..n], i, b);
    } else {
      MultOfMember(last, 0, b);
    }
  }

  /** `out` is `runs` minus every block that `retained` covers, generation by generation. */
  ghost predicate Subtracted(out: seq<Run>, runs: seq<Run>, retained: seq<Run>) {
    forall b: int, g: nat :: Mult(OfGen(out, g), b) ==
                        if Mult(retained, b) > 0 then 0 else Mult(OfGen(runs, g), b)
  }

  /** No run ends where another run of the same generation starts. */
  ghost predicate NoneTouch(runs: seq<Run>) {
    forall x, y :: x in runs && y in runs && x.gen == y.gen ==> x.End() != y.start
  }

  ghost predicate Gapped(runs: seq<Run>) {
    forall i, j :: 0 <= i < j < |runs| ==> runs[i].End() < runs[j].start
  }

  // ---------------------------------------------------------------- retained runs

  function MergeInto(out: seq<Run>, r: Run): seq<Run> {
    if out != [] && r.start <= out[|out| - 1].End() then
      var last := out[|out| - 1];
      var end := if r.End() > last.End() then r.End() else last.End();
      out[|out| - 1 := last.(count := end - last.start)]
    else out + [r]
  }

  lemma {:induction false} MergeIntoCover(out: seq<Run>, r: Run, b: int)
    requires Gapped(out) && (out != [] ==> out[|out| - 1].start <= r.start)
    ensures Gapped(MergeInto(out, r))
    ensures Mult(MergeInto(out, r), b) > 0 <==> Mult(out, b) > 0 || r.Has(b)
  {
    if out != [] && r.start <= out[|out| - 1].End() {
      var n := |out| - 1;
      var merged := MergeInto(out, r);
      assert merged[..n] == out[..n];
    } else {
      MultPush(out, r);
    }
  }

  /** Sort the retained references and merge those that touch or overlap. */
  method CoalesceRetained(retained: seq<Run>) returns (out: seq<Run>)
    ensures Gapped(out)
    ensures forall b :: Mult(out, b) > 0 <==> Mult(retained, b) > 0
    ensures Positive(retained) ==> Positive(out)
  {
    var sorted := SortByStart(retained);
    ghost var positive := Positive(retained);
    if positive {
      PositivePermutation(retained, sorted);
    }
    out := [];
    for n := 0 to |sorted|
      invariant Merging(out, sorted, n)
      invariant positive ==> Positive(out)
    {
      MergingStep(out, sorted, n);
      out := MergeInto(out, sorted[n]);
    }
    assert sorted[..|sorted|] == sorted;
  }

  /** The first `n` runs of an ascending list, merged. */
  ghost predicate Merging(out: seq<Run>, sorted: seq<Run>, n: nat) {
    && n <= |sorted| && Gapped(out)
    && (out != [] && n < |sorted| ==> out[|out| - 1].start <= sorted[n].start)
    && (forall b :: Mult(out, b) > 0 <==> Mult(sorted[..n], b) > 0)
  }

  lemma {:induction false} MergingStep(out: seq<Run>, sorted: seq<Run>, n: nat)
    requires Merging(out, sorted, n) && n < |sorted| && SortedByStart(sorted)
    ensures Merging(MergeInto(out, sorted[n]), sorted, n + 1)
    ensures Positive(out) && sorted[n].count > 0 ==> Positive(MergeInto(out, sorted[n]))
  {
    var merged := MergeInto(out, sorted[n]);
    MergeIntoCover(out, sorted[n], 0);
    forall b ensures Mult(merged, b) > 0 <==> Mult(sorted[..n + 1], b) > 0 {
      MultStep(sorted, n);
      MergeIntoCover(out, sorted[n], b);
    }
  }

  lemma {:induction false} PositivePermutation(a: seq<Run>, c: seq<Run>)
    requires multiset(a) == multiset(c) && Positive(a)
    ensures Positive(c)
  {
    forall i | 0 <= i < |c| ensures c[i].count > 0 {
      assert c[i] in multiset(a);
      assert c[i] in a;
    }
  }

  // ---------------------------------------------------------------- one retired run

  /** A block that the runs before `k` end below and the others start above is uncovered. */
  lemma {:induction false} Uncovered(runs: seq<Run>, k: nat, b: int)
    requires k <= |runs|
    requires forall i :: 0 <= i < k ==> runs[i].End() <= b
    requires forall i :: k <= i < |runs| ==> b < runs[i].start
    ensures Mult(runs, b) == 0
  {
    if runs != [] {
      var n := |runs| - 1;
      Uncovered(runs[..n], if k <= n then k else n, b);
    }
  }

  /** Where a remaining piece may start and end: at a retained block or at an edge of its run. */
  ghost predicate EdgesFit(p: Run, run: Run, retained: seq<Run>) {
    && p.gen == run.gen && p.count > 0 && run.start <= p.start && p.End() <= run.End()
    && (p.start == run.start || Mult(retained, p.start - 1) > 0)
    && (p.End() == run.End() || Mult(retained, p.End()) > 0)
  }

  ghost predicate PiecesFit(pieces: seq<Run>, run: Run, retained: seq<Run>) {
    forall i :: 0 <= i < |pieces| ==> EdgesFit(pieces[i], run, retained)
  }

  /** The pieces cover exactly the uncovered blocks of the run below `cursor`. */
  ghost predicate PiecesCover(pieces: seq<Run>, run: Run, retained: seq<Run>, cursor: nat) {
    forall b :: Mult(pieces, b) == One(run.start <= b < cursor && Mult(retained, b) == 0)
  }

  ghost predicate EndedBy(retained: seq<Run>, k: nat, b: nat) {
    k <= |retained| && forall i :: 0 <= i < k ==> retained[i].End() <= b
  }

  lemma {:induction false} GapPiece(retained: seq<Run>, k: nat, run: Run, pieces: seq<Run>, cursor: nat, end: nat)
    requires Gapped(retained) && EndedBy(retained, k, cursor)
    requires run.start <= cursor < end <= run.End()
    requires forall i :: k <= i < |retained| ==> end <= retained[i].start
    requires PiecesCover(pieces, run, retained, cursor)
    ensures PiecesCover(pieces + [Run(cursor, end - cursor, run.gen)], run, retained, end)
  {
    MultPush(pieces, Run(cursor, end - cursor, run.gen));
    forall b | cursor <= b < end ensures Mult(retained, b) == 0 {
      Uncovered(retained, k, b);
    }
  }

  lemma {:induction false} SkipRetained(retained: seq<Run>, k: nat, run: Run, pieces: seq<Run>, cursor: nat, end: nat)
    requires k < |retained| && retained[k].start <= cursor <= end <= retained[k].End()
    requires PiecesCover(pieces, run, retained, cursor)
    ensures PiecesCover(pieces, run, retained, end)
  {
    forall b | cursor <= b < end ensures Mult(retained, b) > 0 {
      MultOfMember(retained, k, b);
    }
  }

  ghost predicate PiecesShape(pieces: seq<Run>, run: Run, retained: seq<Run>) {
    && (forall i :: 0 <= i < |pieces| ==> pieces[i].gen == run.gen && pieces[i].count > 0)
    && (Positive(retained) ==> PiecesFit(pieces, run, retained))
  }

  /** What the scan over the retained runs keeps true of the pieces found so far. */
  ghost predicate Cutting(run: Run, retained: seq<Run>, scan: nat, pieces: seq<Run>, cursor: nat) {
    && EndedBy(retained, scan, cursor)
    && run.start <= cursor <= run.End()
    && PiecesCover(pieces, run, retained, cursor)
    && PiecesShape(pieces, run, retained)
    && (Positive(retained) && cursor > run.start ==> Mult(retained, cursor - 1) > 0)
  }

  lemma {:induction false} CutShape(run: Run, retained: seq<Run>, k: nat, pieces: seq<Run>, cursor: nat, end: nat)
    requires Cutting(run, retained, k, pieces, cursor) && cursor < end <= run.End()
    requires end < run.End() ==> k < |retained| && retained[k].start == end
    ensures PiecesShape(pieces + [Run(cursor, end - cursor, run.gen)], run, retained)
  {
    var piece := Run(cursor, end - cursor, run.gen);
    if Positive(retained) {
      if end < run.End() {
        MultOfMember(retained, k, end);
      }
      assert EdgesFit(piece, run, retained);
    }
  }

  function Max(x: nat, y: nat): nat { if x > y then x else y }

  function Min(x: nat, y: nat): nat { if x < y then x else y }

  function CutPieces(run: Run, r: Run, pieces: seq<Run>, cursor: nat): seq<Run>
    requires cursor <= run.End()
  {
    if r.start > cursor then pieces + [Run(cursor, Min(r.start, run.End()) - cursor, run.gen)] else pieces
  }

  /** Up to the start of the next retained run. */
  lemma {:induction false} CutBefore(run: Run, retained: seq<Run>, k: nat, pieces: seq<Run>, cursor: nat)
    requires Gapped(retained) && k < |retained| && retained[k].start < run.End()
    requires Cutting(run, retained, k, pieces, cursor)
    ensures PiecesCover(CutPieces(run, retained[k], pieces, cursor), run, retained, Max(cursor, retained[k].start))
    ensures PiecesShape(CutPieces(run, retained[k], pieces, cursor), run, retained)
  {
    var start := retained[k].start;
    if start > cursor {
      assert forall i :: k <= i < |retained| ==> start <= retained[i].start;
      GapPiece(retained, k, run, pieces, cursor, start);
      CutShape(run, retained, k, pieces, cursor, start);
    }
  }

  /** Across the retained run itself. */
  lemma {:induction false} CutAcross(run: Run, retained: seq<Run>, k: nat, pieces: seq<Run>, cursor: nat)
    requires k < |retained| && retained[k].start < run.End() && cursor <= run.End()
    requires PiecesCover(pieces, run, retained, Max(cursor, retained[k].start))
    requires Positive(retained) && cursor > run.start ==> Mult(retained, cursor - 1) > 0
    requires run.start <= cursor
    ensures var next := Max(cursor, Min(retained[k].End(), run.End()));
            && PiecesCover(pieces, run, retained, next)
            && (Positive(retained) && next > run.start ==> Mult(retained, next - 1) > 0)
  {
    var next := Max(cursor, Min(retained[k].End(), run.End()));
    var mid := Max(cursor, retained[k].start);
    if mid < next {
      SkipRetained(retained, k, run, pieces, mid, next);
      MultOfMember(retained, k, next - 1);
    }
  }

  /** The run is fully cut and the scan may resume at `scan` for the next run. */
  ghost predicate CutDone(run: Run, retained: seq<Run>, scan: nat, pieces: seq<Run>) {
    && PiecesCover(pieces, run, retained, run.End())
    && PiecesShape(pieces, run, retained)
    && EndedBy(retained, scan, run.End())
  }

  /** One retained run that starts inside the retired run. */
  lemma {:induction false} CutOne(run: Run, retained: seq<Run>, k: nat, pieces: seq<Run>, cursor: nat, pieces': seq<Run>, cursor': nat)
    requires Gapped(retained) && k < |retained| && retained[k].start < run.End()
    requires Cutting(run, retained, k, pieces, cursor)
    requires pieces' == CutPieces(run, retained[k], pieces, cursor)
    requires cursor' == Max(cursor, Min(retained[k].End(), run.End()))
    ensures if retained[k].End() > run.End() then CutDone(run, retained, k, pieces')
            else Cutting(run, retained, k + 1, pieces', cursor')
  {
    CutBefore(run, retained, k, pieces, cursor);
    CutAcross(run, retained, k, pieces', cursor);
  }

  lemma {:induction false} CutRest(run: Run, retained: seq<Run>, k: nat, pieces: seq<Run>, cursor: nat)
    requires Gapped(retained) && Cutting(run, retained, k, pieces, cursor)
    requires k < |retained| ==> run.End() <= retained[k].start
    ensures if cursor < run.End()
            then CutDone(run, retained, k, pieces + [Run(cursor, run.End() - cursor, run.gen)])
            else CutDone(run, retained, k, pieces)
  {
    if cursor < run.End() {
      assert forall i :: k <= i < |retained| ==> run.End() <= retained[i].start;
      GapPiece(retained, k, run, pieces, cursor, run.End());
      CutShape(run, retained, k, pieces, cursor, run.End());
    }
  }

  lemma {:induction false} CutStart(run: Run, retained: seq<Run>, from: nat)
    requires run.count > 0 && Gapped(retained) && EndedBy(retained, from, run.start)
    ensures Cutting(run, retained, from, [], run.start)
  {
  }

  method CutAround(run: Run, r: Run, pieces: seq<Run>, cursor: nat) returns (pieces': seq<Run>, cursor': nat)
    requires cursor <= run.End()
    ensures pieces' == CutPieces(run, r, pieces, cursor) && cursor' == Max(cursor, Min(r.End(), run.End()))
  {
    pieces' := pieces;
    if r.start > cursor {
      pieces' := pieces' + [Run(cursor, Min(r.start, run.End()) - cursor, run.gen)];
    }
    cursor' := Max(cursor, Min(r.End(), run.End()));
  }

  /** Cut the retained runs out of one retired run, scanning from `from`. */
  method SubtractFromRun(run: Run, retained: seq<Run>, from: nat) returns (pieces: seq<Run>, scan: nat)
    requires run.count > 0 && Gapped(retained) && EndedBy(retained, from, run.start)
    ensures CutDone(run, retained, scan, pieces)
  {
    pieces, scan := [], from;
    var cursor: nat := run.start;
    CutStart(run, retained, from);
    while scan != |retained| && retained[scan].start < run.End()
      invariant scan <= |retained| && cursor <= run.End()
      invariant Cutting(run, retained, scan, pieces, cursor)
      decreases |retained| - scan
    {
      var r := retained[scan];
      CutOne(run, retained, scan, pieces, cursor, CutPieces(run, r, pieces, cursor),
             Max(cursor, Min(r.End(), run.End())));
      pieces, cursor := CutAround(run, r, pieces, cursor);
      if r.End() > run.End() {
        return;
      }
      scan := scan + 1;
    }
    CutRest(run, retained, scan, pieces, cursor);
    if cursor < run.End() {
      pieces := pieces + [Run(cursor, run.End() - cursor, run.gen)];
    }
  }

  // ---------------------------------------------------------------- the whole list

  ghost predicate FitsSome(p: Run, runs: seq<Run>, retained: seq<Run>) {
    exists j :: 0 <= j < |runs| && EdgesFit(p, runs[j], retained)
  }

  ghost predicate OutFits(out: seq<Run>, runs: seq<Run>, retained: seq<Run>) {
    forall i :: 0 <= i < |out| ==> FitsSome(out[i], runs, retained)
  }

  lemma {:induction false} OutFitsExtend(out: seq<Run>, runs: seq<Run>, n: nat, retained: seq<Run>, pieces: seq<Run>)
    requires n < |runs| && OutFits(out, runs[..n], retained) && PiecesFit(pieces, runs[n], retained)
    ensures OutFits(out + pieces, runs[..n + 1], retained)
  {
    var all := out + pieces;
    forall i | 0 <= i < |all| ensures FitsSome(all[i], runs[..n + 1], retained) {
      if i < |out| {
        assert FitsSome(out[i], runs[..n], retained);
        var j :| 0 <= j < n && EdgesFit(out[i], runs[..n][j], retained);
        assert EdgesFit(all[i], runs[..n + 1][j], retained);
      } else {
        assert EdgesFit(all[i], runs[..n + 1][n], retained);
      }
    }
  }

  lemma {:induction false} SubtractedStep(out: seq<Run>, runs: seq<Run>, n: nat, retained: seq<Run>, pieces: seq<Run>)
    requires n < |runs| && Subtracted(out, runs[..n], retained)
    requires PiecesCover(pieces, runs[n], retained, runs[n].End())
    requires forall i :: 0 <= i < |pieces| ==> pieces[i].gen == runs[n].gen
    ensures Subtracted(out + pieces, runs[..n + 1], retained)
  {
    forall b: int, g: nat
      ensures Mult(OfGen(out + pieces, g), b) ==
              if Mult(retained, b) > 0 then 0 else Mult(OfGen(runs[..n + 1], g), b)
    {
      OfGenPush(out, pieces, runs[n].gen, g, b);
      assert runs[..n + 1] == runs[..n] + [runs[n]];
      OfGenPush(runs[..n], [runs[n]], runs[n].gen, g, b);
    }
  }

  /** Runs of one generation count for that generation only. */
  lemma {:induction false} OfGenPush(a: seq<Run>, c: seq<Run>, h: nat, g: nat, b: int)
    requires forall i :: 0 <= i < |c| ==> c[i].gen == h
    ensures Mult(OfGen(a + c, g), b) == Mult(OfGen(a, g), b) + if g == h then Mult(c, b) else 0
  {
    OfGenConcat(a, c, g);
    OfGenUniform(c, g, h);
    MultConcat(OfGen(a, g), OfGen(c, g), b);
  }

  lemma {:induction false} AscendingDisjoint(runs: seq<Run>, n: nat)
    requires SortedByStart(runs) && Positive(runs) && Disjoint(runs) && n + 1 < |runs|
    ensures runs[n].End() <= runs[n + 1].start
  {
    var b := runs[n + 1].start;
    if runs[n].Has(b) {
      MultOfTwo(runs, n, n + 1, b);
    }
  }

  lemma {:induction false} PiecesApart(x: Run, y: Run, runs: seq<Run>, retained: seq<Run>)
    requires NoneTouch(runs) && x.gen == y.gen
    requires FitsSome(x, runs, retained) && FitsSome(y, runs, retained)
    requires Mult(retained, x.End() - 1) == 0 && Mult(retained, y.start) == 0
    ensures x.End() != y.start
  {
    var a :| 0 <= a < |runs| && EdgesFit(x, runs[a], retained);
    var c :| 0 <= c < |runs| && EdgesFit(y, runs[c], retained);
    assert runs[a] in runs && runs[c] in runs;
  }

  /** If no two runs of a generation touch, no two remaining pieces do. */
  lemma {:induction false} NoneTouchKept(out: seq<Run>, runs: seq<Run>, retained: seq<Run>)
    requires NoneTouch(runs) && OutFits(out, runs, retained) && Positive(out)
    requires Subtracted(out, runs, retained)
    ensures NoneTouch(out)
  {
    forall x, y | x in out && y in out && x.gen == y.gen
      ensures x.End() != y.start
    {
      var i :| 0 <= i < |out| && out[i] == x;
      var j :| 0 <= j < |out| && out[j] == y;
      RemainingIsUncovered(out, i, runs, retained, x.End() - 1);
      RemainingIsUncovered(out, j, runs, retained, y.start);
      PiecesApart(x, y, runs, retained);
    }
  }

  lemma {:induction false} NoneTouchPermutation(a: seq<Run>, c: seq<Run>)
    requires multiset(a) == multiset(c) && NoneTouch(a)
    ensures NoneTouch(c)
  {
    forall x | x in c ensures x in a {
      assert x in multiset(a);
    }
  }

  lemma {:induction false} RemainingIsUncovered(out: seq<Run>, i: nat, runs: seq<Run>, retained: seq<Run>, b: int)
    requires i < |out| && out[i].Has(b) && Subtracted(out, runs, retained)
    ensures Mult(retained, b) == 0
  {
    OfGenMember(out, i, b);
  }

  /** Remaining blocks are counted as before: once or not at all. */
  ghost predicate PlainlySubtracted(out: seq<Run>, runs: seq<Run>, retained: seq<Run>) {
    forall b :: Mult(out, b) == if Mult(retained, b) > 0 then 0 else Mult(runs, b)
  }

  lemma {:induction false} PlainStep(out: seq<Run>, runs: seq<Run>, n: nat, retained: seq<Run>, pieces: seq<Run>)
    requires n < |runs| && PlainlySubtracted(out, runs[..n], retained)
    requires PiecesCover(pieces, runs[n], retained, runs[n].End())
    ensures PlainlySubtracted(out + pieces, runs[..n + 1], retained)
  {
    MultStep(runs, n);
    forall b { MultConcat(out, pieces, b); }
  }

  /** Skip the retained runs that end before the next retired run starts. */
  method SkipBefore(retained: seq<Run>, from: nat, start: nat) returns (k: nat)
    requires EndedBy(retained, from, start)
    ensures from <= k && EndedBy(retained, k, start)
  {
    k := from;
    while k != |retained| && retained[k].End() <= start
      invariant from <= k && EndedBy(retained, k, start)
    {
      k := k + 1;
    }
  }

  /** The sweep over the first `n` runs. */
  ghost predicate Subtracting(out: seq<Run>, sorted: seq<Run>, n: nat, retained: seq<Run>, at: nat) {
    && n <= |sorted| && (n < |sorted| ==> EndedBy(retained, at, sorted[n].start))
    && Subtracted(out, sorted[..n], retained) && PlainlySubtracted(out, sorted[..n], retained)
    && (Positive(retained) ==> OutFits(out, sorted[..n], retained)) && Positive(out)
  }

  lemma {:induction false} SubtractingStep(out: seq<Run>, sorted: seq<Run>, n: nat, retained: seq<Run>, at: nat, pieces: seq<Run>, scan: nat)
    requires Subtracting(out, sorted, n, retained, at) && n < |sorted| && CutDone(sorted[n], retained, scan, pieces)
    requires SortedByStart(sorted) && Positive(sorted) && Disjoint(sorted)
    ensures Subtracting(out + pieces, sorted, n + 1, retained, scan)
  {
    if Positive(retained) {
      OutFitsExtend(out, sorted, n, retained, pieces);
    }
    SubtractedStep(out, sorted, n, retained, pieces);
    PlainStep(out, sorted, n, retained, pieces);
    if n + 1 < |sorted| {
      AscendingDisjoint(sorted, n);
    }
  }

  /** The sweep: what remains is the set difference, generation by generation,
      disjoint, in generation-then-start order and without empty runs; pieces of
      one generation never touch if the input runs did not. */
  method SubtractRetained(retired: seq<Run>, references: seq<Run>) returns (remaining: seq<Run>)
    requires Positive(retired) && Disjoint(retired)
    ensures Subtracted(remaining, retired, references)
    ensures PlainlySubtracted(remaining, retired, references)
    ensures Positive(remaining) && Disjoint(remaining) && SortedRuns(true, remaining)
    ensures NoneTouch(retired) && Positive(references) ==> NoneTouch(remaining)
  {
    var retained := CoalesceRetained(references);
    var sorted := SortByStart(retired);
    PositivePermutation(retired, sorted);
    var out := [];
    var at := 0;
    for n := 0 to |sorted|
      invariant Subtracting(out, sorted, n, retained, at)
    {
      var k := SkipBefore(retained, at, sorted[n].start);
      var pieces, scan := SubtractFromRun(sorted[n], retained, k);
      SubtractingStep(out, sorted, n, retained, at, pieces, scan);
      out := out + pieces;
      at := scan;
    }
    assert sorted[..|sorted|] == sorted;
    remaining := SortRuns(true, out);
    FinishSort(retired, sorted, out, remaining, retained, references);
  }

  lemma {:induction false} FinishSort(retired: seq<Run>, sorted: seq<Run>, out: seq<Run>, remaining: seq<Run>,
                   retained: seq<Run>, references: seq<Run>)
    requires multiset(sorted) == multiset(retired) && multiset(remaining) == multiset(out)
    requires forall b :: Mult(retained, b) > 0 <==> Mult(references, b) > 0
    requires Subtracted(out, sorted, retained) && PlainlySubtracted(out, sorted, retained)
    requires Positive(out) && Positive(sorted)
    requires Positive(references) ==> OutFits(out, sorted, retained)
    ensures Subtracted(remaining, retired, references)
    ensures PlainlySubtracted(remaining, retired, references)
    ensures Positive(remaining)
    ensures NoneTouch(retired) && Positive(references) ==> NoneTouch(remaining)
  {
    PositivePermutation(out, remaining);
    forall b: int, g: nat
      ensures Mult(OfGen(remaining, g), b) == Mult(OfGen(out, g), b)
      ensures Mult(OfGen(sorted, g), b) == Mult(OfGen(retired, g), b)
    {
      OfGenPermutation(remaining, out, g);
      OfGenPermutation(sorted, retired, g);
      MultPermutation(OfGen(remaining, g), OfGen(out, g), b);
      MultPermutation(OfGen(sorted, g), OfGen(retired, g), b);
    }
    forall b: int
      ensures Mult(remaining, b) == Mult(out, b) && Mult(sorted, b) == Mult(retired, b)
    {
      MultPermutation(remaining, out, b);
      MultPermutation(sorted, retired, b);
    }
    if NoneTouch(retired) && Positive(references) {
      NoneTouchPermutation(retired, sorted);
      NoneTouchKept(out, sorted, retained);
      NoneTouchPermutation(out, remaining);
    }
  }
}
