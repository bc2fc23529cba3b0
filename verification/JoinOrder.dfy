/** Join order analysis of recursive components (extensions/ql-vscode/src/log-insights/join-order.ts). */
module JoinOrder {
  import opened Groups
  import opened Wrappers

  // ---------------------------------------------------------------------------
  // Tuple counts

  const MAX_INT32 := 0x7fff_ffff

  /** Storing a number into an `Int32Array`. */
  function ToInt32(x: int): (r: int)
    ensures -0x8000_0000 <= r <= MAX_INT32
    ensures -0x8000_0000 <= x <= MAX_INT32 ==> r == x
  {
    var m := x % 0x1_0000_0000;
    if m >= 0x8000_0000 then m - 0x1_0000_0000 else m
  }

  function At(a: seq<int>, i: nat): int {
    if i < |a| then a[i] else 0
  }

  /** One line of the pointwise sum; `-1` says that the line has no tuple count. */
  function SumAt(a: seq<int>, b: seq<int>, i: nat): int {
    if i < |a| && i < |b| && (a[i] == -1 || b[i] == -1) then -1 else ToInt32(At(a, i) + At(b, i))
  }

  function Longer(a: seq<int>, b: seq<int>): nat {
    if |a| > |b| then |a| else |b|
  }

  function PointwiseSum(a: seq<int>, b: seq<int>): (r: seq<int>)
    ensures |r| == Longer(a, b)
  {
    seq(Longer(a, b), i requires 0 <= i => SumAt(a, b, i))
  }

  /** `pointwiseSum`: the array that the loop fills. */
  method ComputePointwiseSum(a: array<int>, b: array<int>) returns (result: array<int>)
    ensures fresh(result) && result[..] == PointwiseSum(a[..], b[..])
  {
    var length := if a.Length > b.Length then a.Length else b.Length;
    result := new int[length];
    var i := 0;
    while i < length
      invariant i <= length
      invariant forall k | 0 <= k < i :: result[k] == SumAt(a[..], b[..], k)
    {
      var ai := if i < a.Length then a[i] else 0;
      var bi := if i < b.Length then b[i] else 0;
      if i < a.Length && i < b.Length && (ai == -1 || bi == -1) {
        result[i] := -1;
      } else {
        result[i] := ToInt32(ai + bi);
      }
      i := i + 1;
    }
  }

  /** The tuple counts of a bucket after its runs have been added one by one. */
  function Accumulate(runs: seq<seq<int>>): seq<int> {
    if runs == [] then [] else PointwiseSum(Accumulate(runs[..|runs| - 1]), runs[|runs| - 1])
  }

  /** Counts as they come from the log, stored in an `Int32Array`: a number of tuples, or `-1`. */
  predicate AreCounts(runs: seq<seq<int>>) {
    forall r, i | 0 <= r < |runs| && 0 <= i < |runs[r]| :: -1 <= runs[r][i] <= MAX_INT32
  }

  predicate MarkedAbsent(runs: seq<seq<int>>, i: nat) {
    exists r :: 0 <= r < |runs| && i < |runs[r]| && runs[r][i] == -1
  }

  function Total(runs: seq<seq<int>>, i: nat): int {
    if runs == [] then 0 else Total(runs[..|runs| - 1], i) + At(runs[|runs| - 1], i)
  }

  lemma {:induction false} TotalIsNatural(runs: seq<seq<int>>, i: nat)
    requires AreCounts(runs) && !MarkedAbsent(runs, i)
    ensures Total(runs, i) >= 0
    ensures runs != [] ==> Total(runs[..|runs| - 1], i) <= Total(runs, i)
  {
    if runs != [] {
      FrontOfCounts(runs, i);
      TotalIsNatural(runs[..|runs| - 1], i);
      assert i < |runs[|runs| - 1]| ==> runs[|runs| - 1][i] != -1;
    }
  }

  lemma FrontOfCounts(runs: seq<seq<int>>, i: nat)
    requires AreCounts(runs) && runs != []
    ensures AreCounts(runs[..|runs| - 1])
    ensures MarkedAbsent(runs, i) <==>
            MarkedAbsent(runs[..|runs| - 1], i) || (i < |runs[|runs| - 1]| && runs[|runs| - 1][i] == -1)
  {
    var front := runs[..|runs| - 1];
    if r :| 0 <= r < |front| && i < |front[r]| && front[r][i] == -1 {
      assert runs[r][i] == -1;
    }
    if r :| 0 <= r < |runs| && i < |runs[r]| && runs[r][i] == -1 && r < |front| {
      assert front[r][i] == -1;
    }
  }

  /** Every line: a `-1` in any run makes it `-1` for good, whatever overflows; any other line holds the sum of
      its counts exactly if that sum fits into 32 bits. */
  lemma {:induction false} AccumulateLine(runs: seq<seq<int>>, i: nat)
    requires AreCounts(runs)
    ensures MarkedAbsent(runs, i) ==> i < |Accumulate(runs)| && Accumulate(runs)[i] == -1
    ensures !MarkedAbsent(runs, i) ==> (At(Accumulate(runs), i) == Total(runs, i) <==> Total(runs, i) <= MAX_INT32)
    ensures -0x8000_0000 <= At(Accumulate(runs), i) <= MAX_INT32
    decreases |runs|
  {
    if runs != [] {
      var front, last := runs[..|runs| - 1], runs[|runs| - 1];
      var acc := Accumulate(front);
      FrontOfCounts(runs, i);
      AccumulateLine(front, i);
      assert At(Accumulate(runs), i) == if i < Longer(acc, last) then SumAt(acc, last, i) else 0;
      if !MarkedAbsent(runs, i) {
        TotalIsNatural(runs, i);
        TotalIsNatural(front, i);
        assert i < |last| ==> runs[|runs| - 1][i] >= -1;
      }
    }
  }

  /** No 32-bit overflow on any line. */
  predicate Fits(runs: seq<seq<int>>) {
    forall i: nat | i < |Accumulate(runs)| && !MarkedAbsent(runs, i) :: Total(runs, i) <= MAX_INT32
  }

  lemma {:induction false} TotalOfSplit(a: seq<seq<int>>, b: seq<seq<int>>, i: nat)
    ensures Total(a + b, i) == Total(a, i) + Total(b, i)
    decreases |b|
  {
    if b == [] {
      assert a + b == a;
    } else {
      assert (a + b)[..|a + b| - 1] == a + b[..|b| - 1];
      TotalOfSplit(a, b[..|b| - 1], i);
    }
  }

  lemma {:induction false} LengthOfSplit(a: seq<seq<int>>, b: seq<seq<int>>)
    ensures |Accumulate(a + b)| == (if |Accumulate(a)| > |Accumulate(b)| then |Accumulate(a)| else |Accumulate(b)|)
    decreases |b|
  {
    if b == [] {
      assert a + b == a;
    } else {
      assert (a + b)[..|a + b| - 1] == a + b[..|b| - 1];
      LengthOfSplit(a, b[..|b| - 1]);
    }
  }

  lemma RemoveOne<T>(front: seq<T>, x: T, b1: seq<T>, b2: seq<T>)
    requires multiset(front + [x]) == multiset(b1 + [x] + b2)
    ensures multiset(front) == multiset(b1 + b2)
  {
    assert multiset(front) == multiset(front + [x]) - multiset{x};
    assert multiset(b1 + b2) == multiset(b1 + [x] + b2) - multiset{x};
  }

  /** Totals and lengths depend only on which runs there are. */
  lemma {:induction false} TotalOfPermutation(a: seq<seq<int>>, b: seq<seq<int>>, i: nat)
    requires multiset(a) == multiset(b)
    ensures Total(a, i) == Total(b, i) && |Accumulate(a)| == |Accumulate(b)|
    decreases |a|
  {
    if a == [] {
      assert |multiset(b)| == |b|;
    } else {
      var front, x := a[..|a| - 1], a[|a| - 1];
      assert a == front + [x];
      assert x in multiset(b);
      var j :| 0 <= j < |b| && b[j] == x;
      var b1, b2 := b[..j], b[j + 1..];
      assert b == b1 + [x] + b2;
      RemoveOne(front, x, b1, b2);
      TotalOfPermutation(front, b1 + b2, i);
      TotalOfSplit(b1, b2, i);
      TotalOfSplit(b1 + [x], b2, i);
      TotalOfSplit(b1, [x], i);
      TotalOfSplit(front, [x], i);
      LengthOfSplit(b1, b2);
      LengthOfSplit(b1 + [x], b2);
      LengthOfSplit(b1, [x]);
      LengthOfSplit(front, [x]);
    }
  }

  lemma MarkedAbsentOfPermutation(a: seq<seq<int>>, b: seq<seq<int>>, i: nat)
    requires multiset(a) == multiset(b)
    ensures MarkedAbsent(a, i) ==> MarkedAbsent(b, i)
  {
    if r :| 0 <= r < |a| && i < |a[r]| && a[r][i] == -1 {
      assert a[r] in multiset(b);
      var q :| 0 <= q < |b| && b[q] == a[r];
      assert i < |b[q]| && b[q][i] == -1;
    }
  }

  /** The accumulated counts do not depend on the order in which the runs are visited. */
  lemma AccumulateIsOrderFree(a: seq<seq<int>>, b: seq<seq<int>>)
    requires multiset(a) == multiset(b) && AreCounts(a) && AreCounts(b) && Fits(a)
    ensures Accumulate(a) == Accumulate(b)
  {
    TotalOfPermutation(a, b, 0);
    forall i: nat | i < |Accumulate(a)|
      ensures Accumulate(a)[i] == Accumulate(b)[i]
    {
      AccumulateLine(a, i);
      AccumulateLine(b, i);
      TotalOfPermutation(a, b, i);
      MarkedAbsentOfPermutation(a, b, i);
      MarkedAbsentOfPermutation(b, a, i);
    }
  }

  // ---------------------------------------------------------------------------
  // Overflow: a sum that wraps to -1 is taken for an absent count

  /** The sum of the first `k` runs is -1 modulo 2^32. */
  predicate WrapsAt(runs: seq<seq<int>>, i: nat, k: nat) {
    k <= |runs| && ToInt32(Total(runs[..k], i)) == -1
  }

  /** That happens somewhere on the way. */
  ghost predicate Wraps(runs: seq<seq<int>>, i: nat) {
    exists k: nat :: WrapsAt(runs, i, k)
  }

  lemma FrontWraps(runs: seq<seq<int>>, i: nat)
    requires runs != []
    ensures Wraps(runs, i) <==> Wraps(runs[..|runs| - 1], i) || ToInt32(Total(runs, i)) == -1
  {
    hide WrapsAt;
    var front := runs[..|runs| - 1];
    forall k: nat
      ensures WrapsAt(runs, i, k) <==> WrapsAt(front, i, k) || (k == |runs| && ToInt32(Total(runs, i)) == -1)
    {
      FrontWrapsAt(runs, i, k);
    }
    assert WrapsAt(runs, i, |runs|) <== ToInt32(Total(runs, i)) == -1;
  }

  lemma FrontWrapsAt(runs: seq<seq<int>>, i: nat, k: nat)
    requires runs != []
    ensures WrapsAt(runs, i, k) <==>
            WrapsAt(runs[..|runs| - 1], i, k) || (k == |runs| && ToInt32(Total(runs, i)) == -1)
  {
    hide ToInt32, Total;
    if k == |runs| {
      assert runs[..k] == runs;
    } else if k < |runs| {
      assert runs[..|runs| - 1][..k] == runs[..k];
    }
  }

  lemma WholeWraps(runs: seq<seq<int>>, i: nat)
    ensures ToInt32(Total(runs, i)) == -1 ==> Wraps(runs, i)
  {
    hide ToInt32, Total;
    assert runs[..|runs|] == runs;
    assert WrapsAt(runs, i, |runs|) <==> ToInt32(Total(runs, i)) == -1;
  }

  lemma WrapStep(acc: int, n: int, total: int)
    requires acc == ToInt32(total)
    ensures ToInt32(acc + n) == ToInt32(total + n)
  {
  }

  /** What each line holds in the end, whether or not it overflows. */
  lemma {:induction false} AccumulateLineIs(runs: seq<seq<int>>, i: nat)
    requires AreCounts(runs)
    ensures At(Accumulate(runs), i) ==
            if MarkedAbsent(runs, i) || Wraps(runs, i) then -1 else ToInt32(Total(runs, i))
    decreases |runs|
  {
    hide MarkedAbsent, Wraps;
    if runs == [] {
      NothingWraps(i);
    } else {
      var front, last := runs[..|runs| - 1], runs[|runs| - 1];
      var acc := Accumulate(front);
      FrontOfCounts(runs, i);
      FrontWraps(runs, i);
      AccumulateLineIs(front, i);
      AccumulateLine(front, i);
      assert At(Accumulate(runs), i) == if i < Longer(acc, last) then SumAt(acc, last, i) else 0;
      assert i < |last| ==> runs[|runs| - 1][i] >= -1;
      if !MarkedAbsent(front, i) && !Wraps(front, i) {
        WholeWraps(front, i);
        WrapStep(At(acc, i), At(last, i), Total(front, i));
      }
    }
  }

  lemma NothingWraps(i: nat)
    ensures !Wraps([], i) && !MarkedAbsent([], i)
  {
  }

  /** Two orders of the same runs agree on a line if and only if one of its counts is absent, or both or neither of
      them wrap it to -1 on the way. */
  lemma OrdersAgreeIff(a: seq<seq<int>>, b: seq<seq<int>>, i: nat)
    requires multiset(a) == multiset(b) && AreCounts(a)
    ensures At(Accumulate(a), i) == At(Accumulate(b), i) <==>
            MarkedAbsent(a, i) || (Wraps(a, i) <==> Wraps(b, i))
  {
    hide MarkedAbsent, Accumulate, ToInt32, AreCounts;
    CountsOfPermutation(a, b);
    AccumulateLineIs(a, i);
    AccumulateLineIs(b, i);
    TotalOfPermutation(a, b, i);
    MarkedAbsentOfPermutation(a, b, i);
    MarkedAbsentOfPermutation(b, a, i);
    WholeWraps(a, i);
    WholeWraps(b, i);
  }

  lemma CountsOfPermutation(a: seq<seq<int>>, b: seq<seq<int>>)
    requires multiset(a) == multiset(b) && AreCounts(a)
    ensures AreCounts(b)
  {
    forall r, i | 0 <= r < |b| && 0 <= i < |b[r]|
      ensures -1 <= b[r][i] <= MAX_INT32
    {
      assert b[r] in multiset(a);
      var q :| 0 <= q < |a| && a[q] == b[r];
      assert a[q][i] == b[r][i];
    }
  }

  ghost predicate IsOrder(b: seq<seq<int>>, runs: seq<seq<int>>) {
    multiset(b) == multiset(runs)
  }

  ghost predicate IsPart(part: seq<seq<int>>, rest: seq<seq<int>>, runs: seq<seq<int>>) {
    multiset(part + rest) == multiset(runs)
  }

  /** No part of the runs adds up to -1 modulo 2^32. */
  ghost predicate NoPartWraps(runs: seq<seq<int>>, i: nat) {
    forall part, rest | IsPart(part, rest, runs) :: ToInt32(Total(part, i)) != -1
  }

  ghost predicate EveryOrderWraps(runs: seq<seq<int>>, i: nat) {
    forall b | IsOrder(b, runs) :: Wraps(b, i)
  }

  lemma OrderOfPart(runs: seq<seq<int>>, part: seq<seq<int>>, rest: seq<seq<int>>, i: nat)
    requires IsPart(part, rest, runs) && ToInt32(Total(part, i)) == -1
    ensures IsOrder(part + rest, runs) && Wraps(part + rest, i)
  {
    hide ToInt32, Total;
    assert (part + rest)[..|part|] == part;
    assert WrapsAt(part + rest, i, |part|);
  }

  lemma PartOfOrder(runs: seq<seq<int>>, b: seq<seq<int>>, i: nat)
    requires IsOrder(b, runs) && NoPartWraps(runs, i)
    ensures !Wraps(b, i)
  {
    hide ToInt32, Total;
    forall k: nat | k <= |b|
      ensures !WrapsAt(b, i, k)
    {
      assert b[..k] + b[k..] == b;
      assert IsPart(b[..k], b[k..], runs);
    }
  }

  /** A line comes out the same in every order of the runs if and only if one of its counts is absent, or no part of
      the runs adds up to -1 modulo 2^32, or every order comes across such a part. */
  lemma OrderIsFreeIff(runs: seq<seq<int>>, i: nat)
    requires AreCounts(runs)
    ensures (forall b | IsOrder(b, runs) :: At(Accumulate(b), i) == At(Accumulate(runs), i)) <==>
            MarkedAbsent(runs, i) || NoPartWraps(runs, i) || EveryOrderWraps(runs, i)
  {
    hide MarkedAbsent, Accumulate, ToInt32, AreCounts, Total, At, Wraps;
    assert IsOrder(runs, runs);
    forall b | IsOrder(b, runs)
      ensures At(Accumulate(b), i) == At(Accumulate(runs), i) <==>
              MarkedAbsent(runs, i) || (Wraps(runs, i) <==> Wraps(b, i))
      ensures NoPartWraps(runs, i) ==> !Wraps(b, i)
    {
      OrdersAgreeIff(runs, b, i);
      if NoPartWraps(runs, i) {
        PartOfOrder(runs, b, i);
      }
    }
    if part, rest :| IsPart(part, rest, runs) && ToInt32(Total(part, i)) == -1 {
      OrderOfPart(runs, part, rest, i);
    }
  }

  lemma AccumulatePush(runs: seq<seq<int>>, run: seq<int>)
    ensures Accumulate(runs + [run]) == PointwiseSum(Accumulate(runs), run)
  {
    assert (runs + [run])[..|runs|] == runs;
  }

  function PlusLine(acc: int, n: int): int {
    if acc == -1 || n == -1 then -1 else ToInt32(acc + n)
  }

  lemma FourRuns(w: int, x: int, y: int, z: int)
    requires AreCounts([[w], [x], [y], [z]])
    ensures Accumulate([[w], [x], [y], [z]]) == [PlusLine(PlusLine(PlusLine(w, x), y), z)]
  {
    hide ToInt32;
    assert [[w], [x], [y], [z]][0][0] == w;
    assert ToInt32(w) == w;
    AccumulatePush([], [w]);
    AccumulatePush([[w]], [x]);
    AccumulatePush([[w], [x]], [y]);
    AccumulatePush([[w], [x], [y]], [z]);
    assert [] + [[w]] == [[w]] && [[w]] + [[x]] == [[w], [x]] && [[w], [x]] + [[y]] == [[w], [x], [y]];
    assert [[w], [x], [y]] + [[z]] == [[w], [x], [y], [z]];
  }

  /** Without the bound the order matters: a sum that wraps to `-1` is taken for an absent count. */
  lemma OverflowDependsOnOrder()
    ensures var x, y := [[MAX_INT32], [MAX_INT32], [1]], [[5]];
      && AreCounts(x + y) && AreCounts(y + x)
      && Accumulate(x + y) == [-1] && Accumulate(y + x) == [4]
  {
    hide Accumulate;
    var x, y := [[MAX_INT32], [MAX_INT32], [1]], [[5]];
    assert x + y == [[MAX_INT32], [MAX_INT32], [1], [5]];
    assert y + x == [[5], [MAX_INT32], [MAX_INT32], [1]];
    FourRuns(MAX_INT32, MAX_INT32, 1, 5);
    FourRuns(5, MAX_INT32, MAX_INT32, 1);
  }

  // ---------------------------------------------------------------------------
  // Iterating over a recursive component

  datatype PipelineRun = PipelineRun(raReference: string, counts: seq<int>)

  /** An event of the component: one predicate, with the time of each iteration, or `-1` if it was skipped. */
  datatype LayerEvent = LayerEvent(
    predicateName: string,
    predicateIterationMillis: seq<int>,
    pipelineRuns: seq<PipelineRun>,
    deltaSizes: seq<int>)

  /** One call of the visitor: which event of the component, which of its runs, and which iteration. */
  datatype Visit = Visit(event: nat, run: nat, iteration: nat)

  predicate Ran(e: LayerEvent, iteration: nat) {
    iteration < |e.predicateIterationMillis| && e.predicateIterationMillis[iteration] != -1
  }

  /** The number of iterations below `n` that were not skipped. */
  function RanBefore(e: LayerEvent, n: nat): nat {
    if n == 0 then 0 else RanBefore(e, n - 1) + (if Ran(e, n - 1) then 1 else 0)
  }

  /** The visit of an event in an iteration, if it was not skipped. */
  function VisitOf(e: LayerEvent, p: nat, iteration: nat): seq<Visit> {
    if Ran(e, iteration) then [Visit(p, RanBefore(e, iteration), iteration)] else []
  }

  function RowVisits(events: seq<LayerEvent>, iteration: nat, n: nat): seq<Visit>
    requires n <= |events|
  {
    if n == 0 then []
    else
      RowVisits(events, iteration, n - 1) + VisitOf(events[n - 1], n - 1, iteration)
  }

  function Visits(events: seq<LayerEvent>, n: nat): seq<Visit> {
    if n == 0 then [] else Visits(events, n - 1) + RowVisits(events, n - 1, |events|)
  }

  function MaxIteration(events: seq<LayerEvent>): (n: nat)
    ensures forall e | e in events :: |e.predicateIterationMillis| <= n
  {
    if events == [] then 0
    else
      var n := MaxIteration(events[1..]);
      if |events[0].predicateIterationMillis| > n then |events[0].predicateIterationMillis| else n
  }

  lemma RowStep(events: seq<LayerEvent>, iteration: nat, p: nat, before: seq<Visit>)
    requires p < |events|
    ensures before + RowVisits(events, iteration, p + 1) ==
            if Ran(events[p], iteration)
            then before + RowVisits(events, iteration, p) + [Visit(p, RanBefore(events[p], iteration), iteration)]
            else before + RowVisits(events, iteration, p)
  {
  }

  lemma RanStep(e: LayerEvent, iteration: nat)
    ensures RanBefore(e, iteration + 1) == RanBefore(e, iteration) + (if Ran(e, iteration) then 1 else 0)
  {
  }

  lemma NothingVisited(events: seq<LayerEvent>)
    ensures Visits(events, 0) == [] && forall q | 0 <= q < |events| :: RanBefore(events[q], 0) == 0
  {
  }

  lemma RowVisited(events: seq<LayerEvent>, iteration: nat)
    ensures Visits(events, iteration) + RowVisits(events, iteration, 0) == Visits(events, iteration)
    ensures Visits(events, iteration + 1) == Visits(events, iteration) + RowVisits(events, iteration, |events|)
  {
  }

  /** `iterateSCC`: the calls of the visitor, in order.  Only the cursors decide which run comes next. */
  method IterateScc(events: seq<LayerEvent>) returns (visits: seq<Visit>)
    ensures visits == Visits(events, MaxIteration(events))
  {
    hide Visits, RowVisits, RanBefore, MaxIteration, VisitOf;
    NothingVisited(events);
    var nextPipeline := new nat[|events|](_ => 0);
    visits := [];
    var maxIteration := MaxIteration(events);
    for iteration := 0 to maxIteration
      invariant visits == Visits(events, iteration)
      invariant forall q | 0 <= q < |events| :: nextPipeline[q] == RanBefore(events[q], iteration)
    {
      ghost var before := visits;
      RowVisited(events, iteration);
      for p := 0 to |events|
        invariant visits == before + RowVisits(events, iteration, p)
        invariant forall q | 0 <= q < p :: nextPipeline[q] == RanBefore(events[q], iteration + 1)
        invariant forall q | p <= q < |events| :: nextPipeline[q] == RanBefore(events[q], iteration)
      {
        RowStep(events, iteration, p, before);
        RanStep(events[p], iteration);
        var millis := events[p].predicateIterationMillis;
        var iterationTime := if |millis| <= iteration then -1 else millis[iteration];
        if iterationTime != -1 {
          visits := visits + [Visit(p, nextPipeline[p], iteration)];
          nextPipeline[p] := nextPipeline[p] + 1;
        }
      }
    }
  }

  /** The visits of one event, in order. */
  function VisitsTo(visits: seq<Visit>, p: nat): seq<Visit> {
    if visits == [] then []
    else
      VisitsTo(visits[..|visits| - 1], p) + (if visits[|visits| - 1].event == p then [visits[|visits| - 1]] else [])
  }

  /** What the visits of one predicate should be: run `0`, `1`, ... at the iterations that were not skipped. */
  function PredicateVisits(e: LayerEvent, p: nat, n: nat): seq<Visit> {
    if n == 0 then []
    else PredicateVisits(e, p, n - 1) + VisitOf(e, p, n - 1)
  }

  lemma {:induction false} VisitsToSplit(a: seq<Visit>, b: seq<Visit>, p: nat)
    ensures VisitsTo(a + b, p) == VisitsTo(a, p) + VisitsTo(b, p)
    decreases |b|
  {
    if b == [] {
      assert a + b == a;
    } else {
      assert (a + b)[..|a + b| - 1] == a + b[..|b| - 1];
      VisitsToSplit(a, b[..|b| - 1], p);
    }
  }

  lemma NoneVisited(p: nat)
    ensures VisitsTo([], p) == []
  {
  }

  lemma VisitsToOwn(e: LayerEvent, q: nat, iteration: nat, p: nat)
    ensures VisitsTo(VisitOf(e, q, iteration), p) == if p == q then VisitOf(e, q, iteration) else []
  {
    hide RanBefore, Ran;
  }

  lemma {:induction false} RowOfPredicate(events: seq<LayerEvent>, iteration: nat, n: nat, p: nat)
    requires p < |events| && n <= |events|
    ensures VisitsTo(RowVisits(events, iteration, n), p) ==
            if p < n then VisitOf(events[p], p, iteration) else []
    decreases n
  {
    hide VisitOf, VisitsTo;
    NoneVisited(p);
    if n > 0 {
      var row, next := RowVisits(events, iteration, n - 1), VisitOf(events[n - 1], n - 1, iteration);
      RowOfPredicate(events, iteration, n - 1, p);
      VisitsToSplit(row, next, p);
      VisitsToOwn(events[n - 1], n - 1, iteration, p);
    }
  }

  lemma {:induction false} VisitsOfPredicate(events: seq<LayerEvent>, n: nat, p: nat)
    requires p < |events|
    ensures VisitsTo(Visits(events, n), p) == PredicateVisits(events[p], p, n)
    decreases n
  {
    hide VisitOf, VisitsTo, RowVisits, Visits, PredicateVisits;
    if n == 0 {
      NoVisits(events, p);
    } else {
      var before, row := Visits(events, n - 1), RowVisits(events, n - 1, |events|);
      VisitsOfPredicate(events, n - 1, p);
      RowOfPredicate(events, n - 1, |events|, p);
      VisitsToSplit(before, row, p);
      VisitsStep(events, n - 1, p);
    }
  }

  lemma NoVisits(events: seq<LayerEvent>, p: nat)
    requires p < |events|
    ensures VisitsTo(Visits(events, 0), p) == PredicateVisits(events[p], p, 0)
  {
  }

  lemma VisitsStep(events: seq<LayerEvent>, n: nat, p: nat)
    requires p < |events|
    ensures Visits(events, n + 1) == Visits(events, n) + RowVisits(events, n, |events|)
    ensures PredicateVisits(events[p], p, n + 1) == PredicateVisits(events[p], p, n) + VisitOf(events[p], p, n)
  {
    hide RowVisits, VisitOf;
  }

  lemma {:induction false} PredicateVisitsInOrder(e: LayerEvent, p: nat, n: nat, k: nat)
    requires k < |PredicateVisits(e, p, n)|
    ensures |PredicateVisits(e, p, n)| == RanBefore(e, n)
    ensures var v := PredicateVisits(e, p, n)[k];
      v.event == p && v.run == k && v.iteration < n && Ran(e, v.iteration) && RanBefore(e, v.iteration) == k
    decreases n
  {
    PredicateVisitsCount(e, p, n - 1);
    if k < |PredicateVisits(e, p, n - 1)| {
      PredicateVisitsInOrder(e, p, n - 1, k);
    }
  }

  lemma {:induction false} PredicateVisitsCount(e: LayerEvent, p: nat, n: nat)
    ensures |PredicateVisits(e, p, n)| == RanBefore(e, n)
  {
    if n > 0 {
      PredicateVisitsCount(e, p, n - 1);
    }
  }

  lemma {:induction false} NoRunsAfterEnd(e: LayerEvent, n: nat)
    requires |e.predicateIterationMillis| <= n
    ensures RanBefore(e, n) == RanBefore(e, |e.predicateIterationMillis|)
    decreases n
  {
    if |e.predicateIterationMillis| < n {
      NoRunsAfterEnd(e, n - 1);
    }
  }

  /** The number of iterations of a predicate that were not skipped. */
  function RanCount(e: LayerEvent): nat {
    RanBefore(e, |e.predicateIterationMillis|)
  }

  /** The k-th visit of a predicate is its k-th run, at its k-th iteration that was not skipped, and there are as
      many visits as such iterations.  So if there are also as many runs, every run is visited exactly once, in
      order, at its own iteration. */
  lemma EveryRunIsVisitedOnce(events: seq<LayerEvent>, p: nat, k: nat)
    requires p < |events| && k < RanCount(events[p])
    ensures var visits := VisitsTo(Visits(events, MaxIteration(events)), p);
      && |visits| == RanCount(events[p])
      && visits[k].run == k
      && Ran(events[p], visits[k].iteration) && RanBefore(events[p], visits[k].iteration) == k
  {
    var n := MaxIteration(events);
    assert events[p] in events;
    VisitsOfPredicate(events, n, p);
    NoRunsAfterEnd(events[p], n);
    PredicateVisitsCount(events[p], p, n);
    PredicateVisitsInOrder(events[p], p, n, k);
  }

  // ---------------------------------------------------------------------------
  // Buckets

  /** What a call of the visitor sees: the predicate, the order it was evaluated in, and the measurements. */
  datatype Sample = Sample(
    predicateName: string,
    raReference: string,
    counts: seq<int>,
    deltaSize: Option<int>,          // missing if the event has fewer sizes than iterations
    dependentSizes: map<string, int>)

  datatype Key = Key(predicateName: string, raReference: string)

  /** A JavaScript number that is an integer, or not a number */
  datatype Number = NaN | Num(value: int)

  datatype Bucket = Bucket(tupleCounts: seq<int>, resultSize: Number, dependentPredicateSizes: map<string, int>)

  function KeyOf(s: Sample): Key {
    Key(s.predicateName, s.raReference)
  }

  function DeltaSizeOf(s: Sample): int {
    if s.deltaSize.Some? then s.deltaSize.value else 0
  }

  /** `resultSize + deltaSize`, which is not a number if the delta size is undefined */
  function Plus(a: Number, d: Option<int>): Number {
    if a.NaN? || d.None? then NaN else Num(a.value + d.value)
  }

  function ResultSize(group: seq<Sample>): Number {
    if group == [] then Num(0) else Plus(ResultSize(group[..|group| - 1]), group[|group| - 1].deltaSize)
  }

  predicate AllSized(group: seq<Sample>) {
    forall i | 0 <= i < |group| :: group[i].deltaSize.Some?
  }

  /** A result size is the sum of the delta sizes, unless one of them is missing. */
  lemma {:induction false} ResultSizeIs(group: seq<Sample>)
    ensures ResultSize(group) == if AllSized(group) then Num(Sum(group, DeltaSizeOf)) else NaN
    decreases |group|
  {
    if group != [] {
      var front, last := group[..|group| - 1], group[|group| - 1];
      ResultSizeIs(front);
      AllSizedPush(front, last);
      assert group == front + [last];
    }
  }

  lemma AllSizedPush(front: seq<Sample>, s: Sample)
    ensures AllSized(front + [s]) <==> AllSized(front) && s.deltaSize.Some?
  {
    var group := front + [s];
    assert group[|front|] == s;
    assert forall i | 0 <= i < |front| :: group[i] == front[i];
  }

  function MergeSizes(a: map<string, int>, b: map<string, int>): map<string, int> {
    map k | k in a.Keys + b.Keys :: (if k in a then a[k] else 0) + (if k in b then b[k] else 0)
  }

  function Counts(group: seq<Sample>): seq<seq<int>> {
    if group == [] then [] else Counts(group[..|group| - 1]) + [group[|group| - 1].counts]
  }

  function MergedSizes(group: seq<Sample>): map<string, int> {
    if group == [] then map[]
    else MergeSizes(MergedSizes(group[..|group| - 1]), group[|group| - 1].dependentSizes)
  }

  /** The bucket that a group of samples should end up with. */
  function BucketOf(group: seq<Sample>): Bucket {
    Bucket(Accumulate(Counts(group)), ResultSize(group), MergedSizes(group))
  }

  function AddSample(bucket: Bucket, s: Sample): Bucket {
    Bucket(PointwiseSum(bucket.tupleCounts, s.counts),
           Plus(bucket.resultSize, s.deltaSize),
           MergeSizes(bucket.dependentPredicateSizes, s.dependentSizes))
  }

  lemma BucketPush(group: seq<Sample>, s: Sample)
    ensures BucketOf(group + [s]) == AddSample(BucketOf(group), s)
  {
    hide PointwiseSum, MergeSizes, Accumulate;
    assert (group + [s])[..|group|] == group;
    AccumulatePush(Counts(group), s.counts);
  }

  /** The callback of `badnessInputsForRecursiveDelta`, applied to every sample in turn: a bucket exists for
      exactly the (predicate, order) pairs that occur, and depends only on the samples of its own pair. */
  method FillBuckets(samples: seq<Sample>) returns (buckets: map<Key, Bucket>)
    ensures forall k :: k in buckets <==> k in Keys(samples, KeyOf)
    ensures forall k | k in buckets :: buckets[k] == BucketOf(Filter(samples, KeyOf, k))
  {
    hide Keys, Filter, AddSample, BucketOf, KeyOf;
    buckets := map[];
    NoSamples();
    for n := 0 to |samples|
      invariant forall k :: k in buckets <==> k in Keys(samples[..n], KeyOf)
      invariant forall k | k in buckets :: buckets[k] == BucketOf(Filter(samples[..n], KeyOf, k))
    {
      var s := samples[n];
      var key := KeyOf(s);
      SampleStep(samples[..n], s);
      assert samples[..n + 1] == samples[..n] + [s];
      if key !in buckets {
        buckets := buckets[key := Bucket([], Num(0), map[])];
      }
      buckets := buckets[key := AddSample(buckets[key], s)];
    }
    assert samples[..|samples|] == samples;
  }

  lemma NoSamples()
    ensures Keys<Sample, Key>([], KeyOf) == []
  {
  }

  lemma SampleStep(samples: seq<Sample>, s: Sample)
    ensures forall k :: k in Keys(samples + [s], KeyOf) <==> k in Keys(samples, KeyOf) || k == KeyOf(s)
    ensures forall k | k != KeyOf(s) :: Filter(samples + [s], KeyOf, k) == Filter(samples, KeyOf, k)
    ensures var k := KeyOf(s);
      BucketOf(Filter(samples + [s], KeyOf, k)) ==
      AddSample(if k in Keys(samples, KeyOf) then BucketOf(Filter(samples, KeyOf, k)) else Bucket([], Num(0), map[]), s)
  {
    hide BucketOf, AddSample;
    var k := KeyOf(s);
    KeysPush(samples, KeyOf, s);
    forall other
      ensures Filter(samples + [s], KeyOf, other) ==
              if KeyOf(s) == other then Filter(samples, KeyOf, other) + [s] else Filter(samples, KeyOf, other)
    {
      FilterPush(samples, KeyOf, s, other);
    }
    BucketPush(Filter(samples, KeyOf, k), s);
    KeysAreComplete(samples, KeyOf, k);
    EmptyBucket();
  }

  lemma EmptyBucket()
    ensures BucketOf([]) == Bucket([], Num(0), map[])
  {
  }

  /** The dependent sizes of a bucket: a predicate is listed if some sample lists it, with the sum of its sizes. */
  lemma {:induction false} MergedSizesAddUp(group: seq<Sample>, name: string)
    ensures name in MergedSizes(group) <==> exists i :: 0 <= i < |group| && name in group[i].dependentSizes
    ensures name in MergedSizes(group) ==> MergedSizes(group)[name] == DependentTotal(group, name)
    decreases |group|
  {
    if group != [] {
      var front, last := group[..|group| - 1], group[|group| - 1];
      MergedSizesAddUp(front, name);
      if i :| 0 <= i < |front| && name in front[i].dependentSizes {
        assert name in group[i].dependentSizes;
      }
      if i :| 0 <= i < |group| && name in group[i].dependentSizes && i < |front| {
        assert name in front[i].dependentSizes;
      }
      if name !in MergedSizes(front) {
        NotListed(front, name);
      }
    }
  }

  function DependentTotal(group: seq<Sample>, name: string): int {
    if group == [] then 0
    else
      var last := group[|group| - 1].dependentSizes;
      DependentTotal(group[..|group| - 1], name) + (if name in last then last[name] else 0)
  }

  lemma {:induction false} NotListed(group: seq<Sample>, name: string)
    requires forall i | 0 <= i < |group| :: name !in group[i].dependentSizes
    ensures DependentTotal(group, name) == 0
    decreases |group|
  {
    if group != [] {
      NotListed(group[..|group| - 1], name);
    }
  }

  /** The result size of a bucket is the sum of its delta sizes, unless one of them is missing; and the sums of all
      buckets add up to the sizes of all visited deltas. */
  lemma ResultSizesAddUp(samples: seq<Sample>)
    ensures SumOfGroups(Keys(samples, KeyOf), samples, KeyOf, DeltaSizeOf) == Sum(samples, DeltaSizeOf)
    ensures forall k :: var group := Filter(samples, KeyOf, k);
              BucketOf(group).resultSize == if AllSized(group) then Num(Sum(group, DeltaSizeOf)) else NaN
  {
    hide Filter, AllSized, Sum, SumOfGroups;
    forall k
      ensures var group := Filter(samples, KeyOf, k);
        BucketOf(group).resultSize == if AllSized(group) then Num(Sum(group, DeltaSizeOf)) else NaN
    {
      ResultSizeIs(Filter(samples, KeyOf, k));
    }
    GroupsAddUp(samples, KeyOf, DeltaSizeOf);
  }

  /** A line of a bucket, in terms of the runs that went into it. */
  lemma BucketLine(samples: seq<Sample>, k: Key, i: nat)
    requires AreCounts(Counts(Filter(samples, KeyOf, k)))
    ensures var runs := Counts(Filter(samples, KeyOf, k));
      var counts := BucketOf(Filter(samples, KeyOf, k)).tupleCounts;
      && (MarkedAbsent(runs, i) ==> i < |counts| && counts[i] == -1)
      && (!MarkedAbsent(runs, i) ==> (At(counts, i) == Total(runs, i) <==> Total(runs, i) <= MAX_INT32))
  {
    AccumulateLine(Counts(Filter(samples, KeyOf, k)), i);
  }

  predicate HasRun(events: seq<LayerEvent>, v: Visit) {
    v.event < |events| && v.run < |events[v.event].pipelineRuns|
  }

  function SampleFor(events: seq<LayerEvent>, v: Visit, dependents: Visit -> map<string, int>): Sample
    requires HasRun(events, v)
  {
    var e := events[v.event];
    var run := e.pipelineRuns[v.run];
    Sample(e.predicateName, run.raReference, run.counts,
           if v.iteration < |e.deltaSizes| then Some(e.deltaSizes[v.iteration]) else None,
           dependents(v))
  }

  /** The samples of the visits; a visit whose run does not exist makes the visitor throw. */
  function SamplesOf(events: seq<LayerEvent>, visits: seq<Visit>, dependents: Visit -> map<string, int>)
    : Option<seq<Sample>>
  {
    if visits == [] then Some([])
    else
      var v := visits[|visits| - 1];
      var front := SamplesOf(events, visits[..|visits| - 1], dependents);
      if front.None? || !HasRun(events, v) then None else Some(front.value + [SampleFor(events, v, dependents)])
  }

  lemma {:induction false} SamplesExist(events: seq<LayerEvent>, visits: seq<Visit>,
                                        dependents: Visit -> map<string, int>)
    ensures SamplesOf(events, visits, dependents).Some? <==> forall v | v in visits :: HasRun(events, v)
    decreases |visits|
  {
    if visits != [] {
      var front, last := visits[..|visits| - 1], visits[|visits| - 1];
      SamplesExist(events, front, dependents);
      assert visits == front + [last] && last in visits;
      assert forall v | v in front :: v in visits;
    }
  }

  /** The analysis gets through a component without an exception exactly if no predicate has more iterations
      that were not skipped than pipeline runs. */
  lemma AnalysisSucceedsIff(events: seq<LayerEvent>, dependents: Visit -> map<string, int>)
    ensures SamplesOf(events, Visits(events, MaxIteration(events)), dependents).Some? <==>
            forall e | e in events :: RanCount(e) <= |e.pipelineRuns|
  {
    hide Visits, SamplesOf, RanCount, MaxIteration;
    var visits := Visits(events, MaxIteration(events));
    SamplesExist(events, visits, dependents);
    if forall v | v in visits :: HasRun(events, v) {
      forall e | e in events
        ensures RanCount(e) <= |e.pipelineRuns|
      {
        var p :| 0 <= p < |events| && events[p] == e;
        if RanCount(e) > 0 {
          EveryRunIsVisitedOnce(events, p, RanCount(e) - 1);
          VisitsToMember(visits, p, RanCount(e) - 1);
        }
      }
    }
    if forall e | e in events :: RanCount(e) <= |e.pipelineRuns| {
      forall v | v in visits
        ensures HasRun(events, v)
      {
        VisitIsRanked(events, v);
      }
    }
  }

  lemma {:induction false} VisitsToMember(visits: seq<Visit>, p: nat, k: nat)
    requires k < |VisitsTo(visits, p)|
    ensures VisitsTo(visits, p)[k] in visits && VisitsTo(visits, p)[k].event == p
    decreases |visits|
  {
    var front := visits[..|visits| - 1];
    if k < |VisitsTo(front, p)| {
      VisitsToMember(front, p, k);
    }
  }

  lemma {:induction false} MemberOfVisitsTo(visits: seq<Visit>, v: Visit)
    requires v in visits
    ensures v in VisitsTo(visits, v.event)
    decreases |visits|
  {
    var front := visits[..|visits| - 1];
    if v in front {
      MemberOfVisitsTo(front, v);
    }
  }

  lemma VisitIsRanked(events: seq<LayerEvent>, v: Visit)
    requires v in Visits(events, MaxIteration(events))
    ensures v.event < |events| && v.run < RanCount(events[v.event])
  {
    hide VisitsTo, Visits, PredicateVisits, MaxIteration;
    var n := MaxIteration(events);
    VisitsInRange(events, n, v);
    var p := v.event;
    MemberOfVisitsTo(Visits(events, n), v);
    VisitsOfPredicate(events, n, p);
    var k :| 0 <= k < |PredicateVisits(events[p], p, n)| && PredicateVisits(events[p], p, n)[k] == v;
    PredicateVisitsInOrder(events[p], p, n, k);
    MaxIterationBounds(events, p);
    NoRunsAfterEnd(events[p], n);
  }

  lemma MaxIterationBounds(events: seq<LayerEvent>, p: nat)
    requires p < |events|
    ensures |events[p].predicateIterationMillis| <= MaxIteration(events)
  {
    assert events[p] in events;
  }

  lemma {:induction false} VisitsInRange(events: seq<LayerEvent>, n: nat, v: Visit)
    requires v in Visits(events, n)
    ensures v.event < |events|
    decreases n
  {
    hide RowVisits;
    if v in RowVisits(events, n - 1, |events|) {
      RowInRange(events, n - 1, |events|, v);
    } else {
      VisitsInRange(events, n - 1, v);
    }
  }

  lemma {:induction false} RowInRange(events: seq<LayerEvent>, iteration: nat, n: nat, v: Visit)
    requires n <= |events| && v in RowVisits(events, iteration, n)
    ensures v.event < |events|
    decreases n
  {
    if v in RowVisits(events, iteration, n - 1) {
      RowInRange(events, iteration, n - 1, v);
    } else {
      assert v in VisitOf(events[n - 1], n - 1, iteration);
    }
  }

  // ---------------------------------------------------------------------------
  // The analysis, in terms of the events

  /** The sample of a visit: the predicate of its event, the order and the counts of its run, and the delta size of its
      iteration, if the event has one for it. */
  lemma {:induction false} SampleAt(events: seq<LayerEvent>, visits: seq<Visit>, dependents: Visit -> map<string, int>,
                                    k: nat)
    requires SamplesOf(events, visits, dependents).Some? && k < |visits|
    ensures var samples, v := SamplesOf(events, visits, dependents).value, visits[k];
      && |samples| == |visits| && v.event < |events| && v.run < |events[v.event].pipelineRuns|
      && var e := events[v.event];
      && samples[k].predicateName == e.predicateName
      && samples[k].raReference == e.pipelineRuns[v.run].raReference
      && samples[k].counts == e.pipelineRuns[v.run].counts
      && (v.iteration < |e.deltaSizes| ==> samples[k].deltaSize == Some(e.deltaSizes[v.iteration]))
      && (v.iteration >= |e.deltaSizes| ==> samples[k].deltaSize == None)
      && samples[k].dependentSizes == dependents(v)
    decreases |visits|
  {
    SamplesCount(events, visits[..|visits| - 1], dependents);
    if k < |visits| - 1 {
      SampleAt(events, visits[..|visits| - 1], dependents, k);
    }
  }

  lemma {:induction false} SamplesCount(events: seq<LayerEvent>, visits: seq<Visit>,
                                        dependents: Visit -> map<string, int>)
    ensures SamplesOf(events, visits, dependents).Some? ==>
              |SamplesOf(events, visits, dependents).value| == |visits|
    decreases |visits|
  {
    if visits != [] {
      SamplesCount(events, visits[..|visits| - 1], dependents);
    }
  }

  /** A weight of each iteration of an event, added up over the iterations below `n` that were not skipped */
  function EventTotal(e: LayerEvent, n: nat, w: (LayerEvent, nat) -> int): int {
    if n == 0 then 0
    else
      var k := n - 1;
      EventTotal(e, k, w) +
      (if k < |e.predicateIterationMillis| && e.predicateIterationMillis[k] != -1 then w(e, k) else 0)
  }

  /** ... and over the first `q` events */
  function ComponentTotal(events: seq<LayerEvent>, q: nat, n: nat, w: (LayerEvent, nat) -> int): int
    requires q <= |events|
  {
    if q == 0 then 0 else ComponentTotal(events, q - 1, n, w) + EventTotal(events[q - 1], n, w)
  }

  function DeltaAt(e: LayerEvent, iteration: nat): int {
    if iteration < |e.deltaSizes| then e.deltaSizes[iteration] else 0
  }

  /** The run of the event in the iteration was made in the order that belongs to the pair. */
  predicate BelongsTo(e: LayerEvent, iteration: nat, key: Key) {
    && e.predicateName == key.predicateName
    && RanBefore(e, iteration) < |e.pipelineRuns|
    && e.pipelineRuns[RanBefore(e, iteration)].raReference == key.raReference
  }

  /** The same weight, but only where the run belongs to the pair */
  function Within(key: Key, w: (LayerEvent, nat) -> int): (LayerEvent, nat) -> int {
    (e: LayerEvent, iteration: nat) => if BelongsTo(e, iteration, key) then w(e, iteration) else 0
  }

  /** The count on line `i` of the run that evaluated the event in the iteration */
  function CountAt(i: nat): (LayerEvent, nat) -> int {
    (e: LayerEvent, iteration: nat) =>
      if RanBefore(e, iteration) < |e.pipelineRuns| then At(e.pipelineRuns[RanBefore(e, iteration)].counts, i) else 0
  }

  function VisitWeight(events: seq<LayerEvent>, w: (LayerEvent, nat) -> int): Visit -> int {
    (v: Visit) => if v.event < |events| then w(events[v.event], v.iteration) else 0
  }

  lemma {:induction false} SumSplit<T>(a: seq<T>, b: seq<T>, w: T -> int)
    ensures Sum(a + b, w) == Sum(a, w) + Sum(b, w)
    decreases |b|
  {
    if b == [] {
      assert a + b == a;
    } else {
      assert (a + b)[..|a + b| - 1] == a + b[..|b| - 1];
      SumSplit(a, b[..|b| - 1], w);
    }
  }

  lemma VisitOfWeight(events: seq<LayerEvent>, p: nat, iteration: nat, w: (LayerEvent, nat) -> int)
    requires p < |events|
    ensures Sum(VisitOf(events[p], p, iteration), VisitWeight(events, w)) ==
            if Ran(events[p], iteration) then w(events[p], iteration) else 0
  {
    hide RanBefore;
    var v := Visit(p, RanBefore(events[p], iteration), iteration);
    assert [v][..0] == [] && Sum([], VisitWeight(events, w)) == 0;
  }

  lemma {:induction false} RowWeight(events: seq<LayerEvent>, iteration: nat, q: nat, w: (LayerEvent, nat) -> int)
    requires q <= |events|
    ensures ComponentTotal(events, q, iteration + 1, w) ==
            ComponentTotal(events, q, iteration, w) + Sum(RowVisits(events, iteration, q), VisitWeight(events, w))
    decreases q
  {
    hide VisitOf, VisitWeight;
    if q > 0 {
      RowWeight(events, iteration, q - 1, w);
      VisitOfWeight(events, q - 1, iteration, w);
      SumSplit(RowVisits(events, iteration, q - 1), VisitOf(events[q - 1], q - 1, iteration), VisitWeight(events, w));
    }
  }

  lemma {:induction false} NoIterations(events: seq<LayerEvent>, q: nat, w: (LayerEvent, nat) -> int)
    requires q <= |events|
    ensures ComponentTotal(events, q, 0, w) == 0
    decreases q
  {
    if q > 0 {
      NoIterations(events, q - 1, w);
    }
  }

  /** What the visits add up to, row by row, is what the events add up to, one after the other. */
  lemma {:induction false} VisitsWeight(events: seq<LayerEvent>, n: nat, w: (LayerEvent, nat) -> int)
    ensures Sum(Visits(events, n), VisitWeight(events, w)) == ComponentTotal(events, |events|, n, w)
    decreases n
  {
    hide RowVisits, VisitWeight, ComponentTotal;
    if n == 0 {
      NoIterations(events, |events|, w);
    } else {
      VisitsWeight(events, n - 1, w);
      RowWeight(events, n - 1, |events|, w);
      SumSplit(Visits(events, n - 1), RowVisits(events, n - 1, |events|), VisitWeight(events, w));
    }
  }

  /** The visit is to an iteration that was not skipped, and to the run of this iteration. */
  predicate IsDue(events: seq<LayerEvent>, v: Visit) {
    v.event < |events| && Ran(events[v.event], v.iteration) && v.run == RanBefore(events[v.event], v.iteration)
  }

  lemma {:induction false} RowIsDue(events: seq<LayerEvent>, iteration: nat, q: nat, v: Visit)
    requires q <= |events|
    ensures v in RowVisits(events, iteration, q) <==> IsDue(events, v) && v.iteration == iteration && v.event < q
    decreases q
  {
    hide RanBefore, Ran;
    if q > 0 {
      RowIsDue(events, iteration, q - 1, v);
    }
  }

  /** The visits are exactly those that are due. */
  lemma {:induction false} VisitsAreDue(events: seq<LayerEvent>, n: nat, v: Visit)
    ensures v in Visits(events, n) <==> IsDue(events, v) && v.iteration < n
    decreases n
  {
    hide RowVisits, RanBefore, Ran;
    if n > 0 {
      VisitsAreDue(events, n - 1, v);
      RowIsDue(events, n - 1, |events|, v);
    }
  }

  predicate IsBefore(v: Visit, w: Visit) {
    v.iteration < w.iteration || (v.iteration == w.iteration && v.event < w.event)
  }

  lemma {:induction false} RowIsOrdered(events: seq<LayerEvent>, iteration: nat, q: nat, a: nat, b: nat)
    requires q <= |events| && a < b < |RowVisits(events, iteration, q)|
    ensures IsBefore(RowVisits(events, iteration, q)[a], RowVisits(events, iteration, q)[b])
    decreases q
  {
    hide RanBefore, Ran;
    var row := RowVisits(events, iteration, q);
    RowIsDue(events, iteration, q - 1, row[a]);
    if b < |RowVisits(events, iteration, q - 1)| {
      RowIsOrdered(events, iteration, q - 1, a, b);
    }
  }

  /** The visits come iteration by iteration, and within an iteration in the order of the events. */
  lemma {:induction false} VisitsAreOrdered(events: seq<LayerEvent>, n: nat, a: nat, b: nat)
    requires a < b < |Visits(events, n)|
    ensures var v, w := Visits(events, n)[a], Visits(events, n)[b];
      v.iteration < w.iteration || (v.iteration == w.iteration && v.event < w.event)
    decreases n
  {
    hide RowVisits, IsDue;
    var before, row := Visits(events, n - 1), RowVisits(events, n - 1, |events|);
    if b < |before| {
      VisitsAreOrdered(events, n - 1, a, b);
    } else {
      RowIsDue(events, n - 1, |events|, row[b - |before|]);
      if a < |before| {
        VisitsAreDue(events, n - 1, before[a]);
      } else {
        RowIsOrdered(events, n - 1, |events|, a - |before|, b - |before|);
      }
    }
  }

  /** What the samples of a pair, and what all samples weigh, in terms of the visits */
  lemma {:induction false} SamplesWeight(events: seq<LayerEvent>, visits: seq<Visit>,
                                         dependents: Visit -> map<string, int>,
                                         key: Key, w: (LayerEvent, nat) -> int, ws: Sample -> int)
    requires SamplesOf(events, visits, dependents).Some?
    requires forall v | v in visits :: IsDue(events, v)
    requires forall v | v in visits && HasRun(events, v) ::
               ws(SampleFor(events, v, dependents)) == w(events[v.event], v.iteration)
    ensures var samples := SamplesOf(events, visits, dependents).value;
      && Sum(Filter(samples, KeyOf, key), ws) == Sum(visits, VisitWeight(events, Within(key, w)))
      && Sum(samples, ws) == Sum(visits, VisitWeight(events, w))
    decreases |visits|
  {
    hide Filter, Sum, RanBefore;
    if visits == [] {
      NothingWeighs(events, key, w, ws);
    } else {
      var front, v := visits[..|visits| - 1], visits[|visits| - 1];
      assert visits == front + [v] && v in visits;
      SamplesWeight(events, front, dependents, key, w, ws);
      var sample := SampleFor(events, v, dependents);
      var samples := SamplesOf(events, front, dependents).value;
      FilterPush(samples, KeyOf, sample, key);
      SumPush(Filter(samples, KeyOf, key), ws, sample);
      SumPush(samples, ws, sample);
      SumPush(front, VisitWeight(events, Within(key, w)), v);
      SumPush(front, VisitWeight(events, w), v);
    }
  }

  lemma NothingWeighs(events: seq<LayerEvent>, key: Key, w: (LayerEvent, nat) -> int, ws: Sample -> int)
    ensures Sum(Filter([], KeyOf, key), ws) == Sum([], VisitWeight(events, Within(key, w))) == 0
    ensures Sum([], ws) == Sum([], VisitWeight(events, w)) == 0
  {
  }

  /** ... and in terms of the events */
  lemma ComponentWeight(events: seq<LayerEvent>, dependents: Visit -> map<string, int>,
                        key: Key, w: (LayerEvent, nat) -> int, ws: Sample -> int)
    requires SamplesOf(events, Visits(events, MaxIteration(events)), dependents).Some?
    requires forall v | IsDue(events, v) && HasRun(events, v) ::
               ws(SampleFor(events, v, dependents)) == w(events[v.event], v.iteration)
    ensures var n := MaxIteration(events);
      var samples := SamplesOf(events, Visits(events, n), dependents).value;
      && Sum(Filter(samples, KeyOf, key), ws) == ComponentTotal(events, |events|, n, Within(key, w))
      && Sum(samples, ws) == ComponentTotal(events, |events|, n, w)
  {
    hide Visits, SamplesOf, Filter, Sum, ComponentTotal, VisitWeight, Within, MaxIteration, IsDue, SampleFor;
    var n := MaxIteration(events);
    forall v | v in Visits(events, n)
      ensures IsDue(events, v)
    {
      VisitsAreDue(events, n, v);
    }
    SamplesWeight(events, Visits(events, n), dependents, key, w, ws);
    VisitsWeight(events, n, Within(key, w));
    VisitsWeight(events, n, w);
  }

  lemma DeltaWeights(events: seq<LayerEvent>, dependents: Visit -> map<string, int>)
    ensures forall v | IsDue(events, v) && HasRun(events, v) ::
              DeltaSizeOf(SampleFor(events, v, dependents)) == DeltaAt(events[v.event], v.iteration)
  {
    hide RanBefore, Ran;
  }

  /** The delta sizes that go into all buckets together are those of all events in their iterations that were not
      skipped: nothing is lost, and nothing is counted in two buckets. */
  lemma DeltasAddUp(events: seq<LayerEvent>, dependents: Visit -> map<string, int>)
    requires SamplesOf(events, Visits(events, MaxIteration(events)), dependents).Some?
    ensures var samples := SamplesOf(events, Visits(events, MaxIteration(events)), dependents).value;
      SumOfGroups(Keys(samples, KeyOf), samples, KeyOf, DeltaSizeOf) ==
      ComponentTotal(events, |events|, MaxIteration(events), DeltaAt)
  {
    hide Visits, SamplesOf, Filter, Sum, SumOfGroups, Keys, ComponentTotal, MaxIteration, IsDue, SampleFor, DeltaAt;
    hide Within, DeltaSizeOf;
    DeltaWeights(events, dependents);
    ComponentWeight(events, dependents, Key("", ""), DeltaAt, DeltaSizeOf);
    GroupsAddUp(SamplesOf(events, Visits(events, MaxIteration(events)), dependents).value, KeyOf, DeltaSizeOf);
  }

  /** A run of the pair, in an iteration of one of the events that was not skipped */
  predicate Evaluated(events: seq<LayerEvent>, p: nat, iteration: nat, key: Key) {
    && p < |events|
    && iteration < |events[p].predicateIterationMillis| && events[p].predicateIterationMillis[iteration] != -1
    && BelongsTo(events[p], iteration, key)
  }

  predicate IsSampleOf(events: seq<LayerEvent>, dependents: Visit -> map<string, int>, p: nat, iteration: nat, key: Key,
                       s: Sample)
  {
    && Evaluated(events, p, iteration, key)
    && s == SampleFor(events, Visit(p, RanBefore(events[p], iteration), iteration), dependents)
  }

  /** Such a run, without a count on line `i` */
  predicate IsAbsent(events: seq<LayerEvent>, p: nat, iteration: nat, key: Key, i: nat) {
    && Evaluated(events, p, iteration, key)
    && var counts := RunOf(events[p], iteration).counts; i < |counts| && counts[i] == -1
  }

  function RunOf(e: LayerEvent, iteration: nat): PipelineRun
    requires RanBefore(e, iteration) < |e.pipelineRuns|
  {
    e.pipelineRuns[RanBefore(e, iteration)]
  }

  lemma {:induction false} SampleIs(events: seq<LayerEvent>, visits: seq<Visit>, dependents: Visit -> map<string, int>,
                                    s: Sample)
    requires SamplesOf(events, visits, dependents).Some?
    ensures s in SamplesOf(events, visits, dependents).value <==>
            exists v :: v in visits && HasRun(events, v) && s == SampleFor(events, v, dependents)
    decreases |visits|
  {
    hide SampleFor;
    if visits != [] {
      var front, last := visits[..|visits| - 1], visits[|visits| - 1];
      assert visits == front + [last];
      SampleIs(events, front, dependents, s);
    }
  }

  /** The group of a pair holds the samples of its runs, and no others. */
  lemma GroupIs(events: seq<LayerEvent>, dependents: Visit -> map<string, int>, key: Key, s: Sample)
    requires SamplesOf(events, Visits(events, MaxIteration(events)), dependents).Some?
    ensures s in Filter(SamplesOf(events, Visits(events, MaxIteration(events)), dependents).value, KeyOf, key) <==>
            exists p: nat, iteration: nat :: IsSampleOf(events, dependents, p, iteration, key, s)
  {
    hide Visits, SamplesOf, Filter, MaxIteration, RanBefore;
    var visits := Visits(events, MaxIteration(events));
    FilterHolds(SamplesOf(events, visits, dependents).value, KeyOf, key, s);
    SampleIs(events, visits, dependents, s);
    if v :| v in visits && HasRun(events, v) && s == SampleFor(events, v, dependents) && KeyOf(s) == key {
      VisitsAreDue(events, MaxIteration(events), v);
      assert IsSampleOf(events, dependents, v.event, v.iteration, key, s);
    }
    if p: nat, iteration: nat :| IsSampleOf(events, dependents, p, iteration, key, s) {
      MaxIterationBounds(events, p);
      VisitsAreDue(events, MaxIteration(events), Visit(p, RanBefore(events[p], iteration), iteration));
    }
  }

  lemma {:induction false} CountsAt(group: seq<Sample>, r: nat)
    requires r < |group|
    ensures |Counts(group)| == |group| && Counts(group)[r] == group[r].counts
    decreases |group|
  {
    CountsLength(group[..|group| - 1]);
    if r < |group| - 1 {
      CountsAt(group[..|group| - 1], r);
    }
  }

  lemma {:induction false} CountsLength(group: seq<Sample>)
    ensures |Counts(group)| == |group|
    decreases |group|
  {
    if group != [] {
      CountsLength(group[..|group| - 1]);
    }
  }

  function LineOf(i: nat): Sample -> int {
    (s: Sample) => At(s.counts, i)
  }

  lemma {:induction false} TotalIsSum(group: seq<Sample>, i: nat)
    ensures Total(Counts(group), i) == Sum(group, LineOf(i))
    decreases |group|
  {
    if group != [] {
      var front := group[..|group| - 1];
      TotalIsSum(front, i);
      assert Counts(group)[..|Counts(front)|] == Counts(front);
    }
  }

  lemma AbsentInGroup(group: seq<Sample>, i: nat)
    ensures MarkedAbsent(Counts(group), i) <==> exists s :: s in group && i < |s.counts| && s.counts[i] == -1
  {
    hide Counts;
    CountsLength(group);
    forall r | 0 <= r < |group|
      ensures Counts(group)[r] == group[r].counts
    {
      CountsAt(group, r);
    }
    if s :| s in group && i < |s.counts| && s.counts[i] == -1 {
      var r :| 0 <= r < |group| && group[r] == s;
      assert Counts(group)[r][i] == -1;
    }
  }

  /** What the bucket of a pair holds, in terms of the events: it exists exactly if some run belongs to the pair; its
      result size adds up the delta sizes of exactly the iterations of such runs, and is not a number if one of them
      is missing; and the totals of its lines are over exactly these runs (`AccumulateLineIs` says what becomes of
      them). */
  lemma BucketIs(events: seq<LayerEvent>, dependents: Visit -> map<string, int>, key: Key, i: nat)
    requires SamplesOf(events, Visits(events, MaxIteration(events)), dependents).Some?
    ensures var n := MaxIteration(events);
      var samples := SamplesOf(events, Visits(events, n), dependents).value;
      var group := Filter(samples, KeyOf, key);
      && (key in Keys(samples, KeyOf) <==> exists p: nat, iteration: nat :: Evaluated(events, p, iteration, key))
      && BucketOf(group).resultSize ==
         (if forall p: nat, iteration: nat | Evaluated(events, p, iteration, key) :: iteration < |events[p].deltaSizes|
          then Num(ComponentTotal(events, |events|, n, Within(key, DeltaAt))) else NaN)
      && BucketOf(group).tupleCounts == Accumulate(Counts(group))
      && Total(Counts(group), i) == ComponentTotal(events, |events|, n, Within(key, CountAt(i)))
      && (MarkedAbsent(Counts(group), i) <==>
            exists p: nat, iteration: nat :: IsAbsent(events, p, iteration, key, i))
  {
    BucketExists(events, dependents, key);
    BucketSize(events, dependents, key);
    BucketCounts(events, dependents, key, i);
  }

  lemma BucketExists(events: seq<LayerEvent>, dependents: Visit -> map<string, int>, key: Key)
    requires SamplesOf(events, Visits(events, MaxIteration(events)), dependents).Some?
    ensures var samples := SamplesOf(events, Visits(events, MaxIteration(events)), dependents).value;
      key in Keys(samples, KeyOf) <==> exists p: nat, iteration: nat :: Evaluated(events, p, iteration, key)
  {
    hide Visits, SamplesOf, Filter, MaxIteration, RanBefore, SampleFor, Keys;
    var samples := SamplesOf(events, Visits(events, MaxIteration(events)), dependents).value;
    var group := Filter(samples, KeyOf, key);
    KeysAreComplete(samples, KeyOf, key);
    if group != [] {
      GroupIs(events, dependents, key, group[0]);
    }
    if p: nat, iteration: nat :| Evaluated(events, p, iteration, key) {
      var s := SampleFor(events, Visit(p, RanBefore(events[p], iteration), iteration), dependents);
      assert IsSampleOf(events, dependents, p, iteration, key, s);
      GroupIs(events, dependents, key, s);
    }
  }

  lemma BucketSize(events: seq<LayerEvent>, dependents: Visit -> map<string, int>, key: Key)
    requires SamplesOf(events, Visits(events, MaxIteration(events)), dependents).Some?
    ensures var n := MaxIteration(events);
      var group := Filter(SamplesOf(events, Visits(events, n), dependents).value, KeyOf, key);
      BucketOf(group).resultSize ==
      (if forall p: nat, iteration: nat | Evaluated(events, p, iteration, key) :: iteration < |events[p].deltaSizes|
       then Num(ComponentTotal(events, |events|, n, Within(key, DeltaAt))) else NaN)
  {
    hide Visits, SamplesOf, Filter, Sum, ComponentTotal, MaxIteration, IsDue, RanBefore, DeltaAt, Within;
    hide DeltaSizeOf, MergedSizes, Accumulate, Counts, ResultSize;
    var group := Filter(SamplesOf(events, Visits(events, MaxIteration(events)), dependents).value, KeyOf, key);
    DeltaWeights(events, dependents);
    ComponentWeight(events, dependents, key, DeltaAt, DeltaSizeOf);
    ResultSizeIs(group);
    if AllSized(group) {
      forall p: nat, iteration: nat | Evaluated(events, p, iteration, key)
        ensures iteration < |events[p].deltaSizes|
      {
        var s := SampleFor(events, Visit(p, RanBefore(events[p], iteration), iteration), dependents);
        assert IsSampleOf(events, dependents, p, iteration, key, s);
        GroupIs(events, dependents, key, s);
      }
    }
    if i :| 0 <= i < |group| && group[i].deltaSize.None? {
      GroupIs(events, dependents, key, group[i]);
    }
  }

  lemma LineWeights(events: seq<LayerEvent>, dependents: Visit -> map<string, int>, i: nat)
    ensures forall v | IsDue(events, v) && HasRun(events, v) ::
              LineOf(i)(SampleFor(events, v, dependents)) == CountAt(i)(events[v.event], v.iteration)
  {
    hide Ran;
  }

  lemma BucketCounts(events: seq<LayerEvent>, dependents: Visit -> map<string, int>, key: Key, i: nat)
    requires SamplesOf(events, Visits(events, MaxIteration(events)), dependents).Some?
    ensures var n := MaxIteration(events);
      var group := Filter(SamplesOf(events, Visits(events, n), dependents).value, KeyOf, key);
      && Total(Counts(group), i) == ComponentTotal(events, |events|, n, Within(key, CountAt(i)))
      && (MarkedAbsent(Counts(group), i) <==>
            exists p: nat, iteration: nat :: IsAbsent(events, p, iteration, key, i))
  {
    hide Visits, SamplesOf, Filter, Sum, ComponentTotal, MaxIteration, IsDue, RanBefore, CountAt, LineOf, Within;
    hide MarkedAbsent, Counts, Total;
    var group := Filter(SamplesOf(events, Visits(events, MaxIteration(events)), dependents).value, KeyOf, key);
    LineWeights(events, dependents, i);
    ComponentWeight(events, dependents, key, CountAt(i), LineOf(i));
    TotalIsSum(group, i);
    AbsentInGroup(group, i);
    if s :| s in group && i < |s.counts| && s.counts[i] == -1 {
      GroupIs(events, dependents, key, s);
      var p: nat, iteration: nat :| IsSampleOf(events, dependents, p, iteration, key, s);
      assert IsAbsent(events, p, iteration, key, i);
    }
    if p: nat, iteration: nat :| IsAbsent(events, p, iteration, key, i) {
      var s := SampleFor(events, Visit(p, RanBefore(events[p], iteration), iteration), dependents);
      assert IsSampleOf(events, dependents, p, iteration, key, s);
      GroupIs(events, dependents, key, s);
    }
  }

  /** `badnessInputsForRecursiveDelta`; `None` stands for the exception thrown when a run is missing. */
  method BadnessInputsForRecursiveDelta(events: seq<LayerEvent>, dependents: Visit -> map<string, int>)
    returns (buckets: Option<map<Key, Bucket>>)
    ensures buckets.Some? <==> forall e | e in events :: RanCount(e) <= |e.pipelineRuns|
    ensures buckets.Some? ==>
              var samples := SamplesOf(events, Visits(events, MaxIteration(events)), dependents);
              && samples.Some?
              && (forall k :: k in buckets.value <==> k in Keys(samples.value, KeyOf))
              && (forall k | k in buckets.value :: buckets.value[k] == BucketOf(Filter(samples.value, KeyOf, k)))
    ensures buckets.Some? ==>
              forall k :: k in buckets.value <==> exists p: nat, iteration: nat :: Evaluated(events, p, iteration, k)
    ensures buckets.Some? ==>
              forall k | k in buckets.value ::
                buckets.value[k].resultSize ==
                if forall p: nat, iteration: nat | Evaluated(events, p, iteration, k) ::
                     iteration < |events[p].deltaSizes|
                then Num(ComponentTotal(events, |events|, MaxIteration(events), Within(k, DeltaAt))) else NaN
  {
    hide Visits, SamplesOf, RanCount, MaxIteration, Keys, Filter, BucketOf, BelongsTo, ComponentTotal, Within;
    AnalysisSucceedsIff(events, dependents);
    var visits := IterateScc(events);
    var samples := SamplesOf(events, visits, dependents);
    if samples.None? {
      return None;
    }
    var filled := FillBuckets(samples.value);
    buckets := Some(filled);
    forall k
      ensures k in filled <==> exists p: nat, iteration: nat :: Evaluated(events, p, iteration, k)
      ensures k in filled ==>
                filled[k].resultSize ==
                if forall p: nat, iteration: nat | Evaluated(events, p, iteration, k) ::
                     iteration < |events[p].deltaSizes|
                then Num(ComponentTotal(events, |events|, MaxIteration(events), Within(k, DeltaAt))) else NaN
    {
      BucketExists(events, dependents, k);
      BucketSize(events, dependents, k);
    }
  }
}
