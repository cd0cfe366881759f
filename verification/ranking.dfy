/**
 * One pass of the ranking loop: sort the whole pool by the area's score,
 * keep the first `Capacity` customers of that area, remove each kept
 * customer from the pool with `list.remove`, and total up the kept ones.
 * The two loops of the report differ only in the affinity they rank by,
 * so both are this one pass with an `Axis` parameter.
 */
module Ranking {
  import opened Wrappers
  import opened Enums
  import opened Customers
  import opened Seqs
  import opened StableSort
  import opened Scoring
  import opened Aggregation

  /** `c.area == area`; a customer whose area is `None` never matches. */
  function InArea(area: Area): Customer -> bool {
    (c: Customer) => c.area == Some(area)
  }

  function NotInArea(area: Area): Customer -> bool {
    (c: Customer) => c.area != Some(area)
  }

  /** The pool in the order the loop visits it: stable, by descending score. */
  function Ranked(pool: seq<Customer>, axis: Axis): seq<Customer> {
    SortDesc(pool, ScoreOf(axis))
  }

  /**
   * The area's customers in ranking order are the area's customers of the
   * pool sorted on their own.
   */
  lemma AreaRanked(pool: seq<Customer>, area: Area, axis: Axis)
    ensures Filter(Ranked(pool, axis), InArea(area)) == SortDesc(Filter(pool, InArea(area)), ScoreOf(axis))
  {
    FilterSortDesc(pool, ScoreOf(axis), InArea(area));
  }

  /**
   * The cohort of `area`: the first `Capacity` customers of that area in
   * ranking order. It holds `min(8, #area customers)` customers, all of
   * the area, each taken from the pool.
   */
  function Cohort(pool: seq<Customer>, area: Area, axis: Axis): (cohort: seq<Customer>)
    ensures |cohort| == Min(Capacity, |Filter(pool, InArea(area))|)
    ensures forall i :: 0 <= i < |cohort| ==> cohort[i].area == Some(area)
    ensures multiset(cohort) <= multiset(pool)
  {
    var matching := Filter(Ranked(pool, axis), InArea(area));
    AreaRanked(pool, area, axis);
    SortDescMultiset(Filter(pool, InArea(area)), ScoreOf(axis));
    FilterSubMultiset(pool, InArea(area));
    TakeSubMultiset(matching, Capacity);
    var cohort := Take(matching, Capacity);
    assert forall i :: 0 <= i < |cohort| ==> InArea(area)(cohort[i]) by {
      forall i | 0 <= i < |cohort| ensures InArea(area)(cohort[i]) {
        assert cohort[i] == matching[i];
      }
    }
    cohort
  }

  /** The cohort is in rank order: scores never increase. */
  lemma CohortSorted(pool: seq<Customer>, area: Area, axis: Axis)
    ensures SortedDesc(Cohort(pool, area, axis), ScoreOf(axis))
  {
    var matching := Filter(Ranked(pool, axis), InArea(area));
    AreaRanked(pool, area, axis);
    SortDescSorted(Filter(pool, InArea(area)), ScoreOf(axis));
    TakeSorted(matching, Capacity, ScoreOf(axis));
  }

  /**
   * The cohort is what ranking the area's customers on their own and
   * keeping the first `Capacity` gives: the sort of the whole pool is
   * needed for nothing but the order of the area's customers.
   */
  lemma CohortOfArea(pool: seq<Customer>, area: Area, axis: Axis)
    ensures Cohort(pool, area, axis) == Take(SortDesc(Filter(pool, InArea(area)), ScoreOf(axis)), Capacity)
  {
    AreaRanked(pool, area, axis);
  }

  /** What a pass leaves behind: the cohort and the remaining pool. */
  datatype Selection = Selection(cohort: seq<Customer>, rest: seq<Customer>)

  /**
   * A pass over the pool: the area's cohort, and the pool with each cohort
   * member removed once. The pool shrinks by the cohort's size and loses
   * exactly the cohort, counting duplicates.
   */
  function Select(pool: seq<Customer>, area: Area, axis: Axis): (s: Selection)
    ensures s.cohort == Cohort(pool, area, axis)
    ensures |s.rest| == |pool| - |s.cohort|
    ensures multiset(s.rest) == multiset(pool) - multiset(s.cohort)
  {
    var cohort := Cohort(pool, area, axis);
    Selection(cohort, RemoveEach(pool, cohort))
  }

  /** The remaining pool is the old pool with elements deleted, the rest in their order. */
  lemma {:induction false} SelectKeepsOrder(pool: seq<Customer>, area: Area, axis: Axis)
    ensures Subsequence(Select(pool, area, axis).rest, pool)
  {
    RemoveEachSubsequence(pool, Cohort(pool, area, axis));
  }

  /**
   * The pass leaves every customer of another area (or of none) where it
   * was: the other customers are the same, in the same order.
   */
  lemma SelectKeepsOthers(pool: seq<Customer>, area: Area, axis: Axis)
    ensures Filter(Select(pool, area, axis).rest, NotInArea(area)) == Filter(pool, NotInArea(area))
  {
    var cohort := Cohort(pool, area, axis);
    assert forall i :: 0 <= i < |cohort| ==> !NotInArea(area)(cohort[i]);
    FilterRemoveEachOther(pool, cohort, NotInArea(area));
  }

  /** A customer of the area left in the pool occurs more often among the area's customers than in the cohort. */
  lemma {:induction false} LeftBehind(pool: seq<Customer>, area: Area, axis: Axis, x: Customer)
    requires x in Select(pool, area, axis).rest && x.area == Some(area)
    ensures multiset(Filter(pool, InArea(area)))[x] > multiset(Cohort(pool, area, axis))[x]
  {
    FilterMultiset(pool, InArea(area));
    assert multiset(Select(pool, area, axis).rest)[x] > 0;
  }

  /**
   * The cohort is the top of its area: any customer of the area still in
   * the pool afterwards means the cohort is full and that customer scores
   * no higher than any cohort member.
   */
  lemma {:induction false} SelectTakesTop(pool: seq<Customer>, area: Area, axis: Axis, x: Customer)
    requires x in Select(pool, area, axis).rest && x.area == Some(area)
    ensures |Select(pool, area, axis).cohort| == Capacity
    ensures forall j :: 0 <= j < Capacity ==> Score(x, axis) <= Score(Select(pool, area, axis).cohort[j], axis)
  {
    var m := SortDesc(Filter(pool, InArea(area)), ScoreOf(axis));
    SortDescMultiset(Filter(pool, InArea(area)), ScoreOf(axis));
    SortDescSorted(Filter(pool, InArea(area)), ScoreOf(axis));
    CohortOfArea(pool, area, axis);
    LeftBehind(pool, area, axis, x);
    TakeBehind(m, Capacity, x, ScoreOf(axis));
  }

  /**
   * What the ranking loop knows after visiting the first `k` customers of
   * the ranked pool: the kept customers are the first (at most 8) of the
   * area among them, the pool has lost each of them once, and the totals
   * cover them.
   */
  predicate Scanned(pool: seq<Customer>, ranked: seq<Customer>, area: Area, axis: Axis, k: nat,
                    cohort: seq<Customer>, rest: seq<Customer>, totals: Totals)
  {
    && k <= |ranked|
    && cohort == Take(Filter(ranked[..k], InArea(area)), Capacity)
    && multiset(cohort) <= multiset(ranked[..k])
    && multiset(cohort) <= multiset(pool)
    && rest == RemoveEach(pool, cohort)
    && totals == TotalsOf(cohort, axis)
  }

  /** Before the loop nothing is visited, kept or removed. */
  lemma {:induction false} ScanStart(pool: seq<Customer>, ranked: seq<Customer>, area: Area, axis: Axis)
    ensures Scanned(pool, ranked, area, axis, 0, [], pool, Totals(0.0, 0.0, 0.0))
  {
    assert ranked[..0] == [];
  }

  /** After the whole ranked pool is visited, the loop has computed the pass. */
  lemma {:induction false} ScanDone(pool: seq<Customer>, area: Area, axis: Axis,
                                    cohort: seq<Customer>, rest: seq<Customer>, totals: Totals)
    requires Scanned(pool, Ranked(pool, axis), area, axis, |Ranked(pool, axis)|, cohort, rest, totals)
    ensures cohort == Cohort(pool, area, axis)
    ensures rest == Select(pool, area, axis).rest
    ensures totals == TotalsOf(cohort, axis)
  {
    var ranked := Ranked(pool, axis);
    assert ranked[..|ranked|] == ranked;
  }

  /** A visited customer that is skipped changes nothing. */
  lemma {:induction false} ScanSkip(pool: seq<Customer>, ranked: seq<Customer>, area: Area, axis: Axis, k: nat,
                                    cohort: seq<Customer>, rest: seq<Customer>, totals: Totals)
    requires Scanned(pool, ranked, area, axis, k, cohort, rest, totals) && k < |ranked|
    requires |cohort| >= Capacity || ranked[k].area != Some(area)
    ensures Scanned(pool, ranked, area, axis, k + 1, cohort, rest, totals)
  {
    TakeFilterStep(ranked, k, InArea(area), Capacity);
    PrefixStep(ranked, k);
  }

  /** A visited customer that is kept is found in the pool and removed from it. */
  lemma {:induction false} ScanKeep(pool: seq<Customer>, ranked: seq<Customer>, area: Area, axis: Axis, k: nat,
                                    cohort: seq<Customer>, rest: seq<Customer>, totals: Totals)
    requires Scanned(pool, ranked, area, axis, k, cohort, rest, totals) && k < |ranked|
    requires multiset(ranked) == multiset(pool)
    requires |cohort| < Capacity && ranked[k].area == Some(area)
    ensures ranked[k] in rest
    ensures Scanned(pool, ranked, area, axis, k + 1, cohort + [ranked[k]],
                    RemoveFirst(rest, ranked[k]), Add(totals, Contribution(ranked[k], axis)))
  {
    var c := ranked[k];
    TakeFilterStep(ranked, k, InArea(area), Capacity);
    PrefixStep(ranked, k);
    assert multiset(cohort + [c]) == multiset(cohort) + multiset{c};
    RemoveEachSnoc(pool, cohort, c);
    TotalsOfSnoc(cohort, c, axis);
  }

  /**
   * The ranking loop of the report, as written: walk the ranked pool,
   * skip everything once 8 are kept, skip other areas, otherwise add the
   * customer to the totals and remove it from the pool. It yields the
   * cohort, the remaining pool and the totals of the cohort.
   */
  method SelectArea(pool: seq<Customer>, area: Area, axis: Axis)
    returns (cohort: seq<Customer>, rest: seq<Customer>, totals: Totals)
    ensures cohort == Cohort(pool, area, axis)
    ensures rest == Select(pool, area, axis).rest
    ensures totals == TotalsOf(cohort, axis)
  {
    var ranked := Ranked(pool, axis);
    cohort, rest, totals := [], pool, Totals(0.0, 0.0, 0.0);
    SortDescMultiset(pool, ScoreOf(axis));
    ScanStart(pool, ranked, area, axis);
    var i := 0;
    for k := 0 to |ranked|
      invariant i == |cohort|
      invariant Scanned(pool, ranked, area, axis, k, cohort, rest, totals)
    {
      var c := ranked[k];
      // Both `continue` guards of the loop (src/main.py lines 140-141), in one test.
      if i >= Capacity || c.area != Some(area) {
        ScanSkip(pool, ranked, area, axis, k, cohort, rest, totals);
        continue;
      }
      ScanKeep(pool, ranked, area, axis, k, cohort, rest, totals);
      totals := Add(totals, Contribution(c, axis));
      rest := RemoveFirst(rest, c);
      cohort := cohort + [c];
      i := i + 1;
    }
    ScanDone(pool, area, axis, cohort, rest, totals);
  }
}
