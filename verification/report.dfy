/**
 * The whole report: three passes ranking by weed affinity over NORTHTOWN,
 * WESTVILLE and DOWNTOWN, then one pass ranking by coca affinity over
 * DOCKS. Each pass works on the pool the earlier passes left behind, so a
 * customer is reported at most once; SUBURBIA, UPTOWN and customers with
 * an unknown area are never reported.
 */
module Report {
  import opened Wrappers
  import opened Enums
  import opened Customers
  import opened Seqs
  import opened Scoring
  import opened Aggregation
  import opened Ranking

  /** One loop of the report: the area it lists and the affinity it ranks by. */
  datatype Pass = Pass(area: Area, axis: Axis)

  /** The passes in the order the report runs them. */
  const Plan: seq<Pass> := [Pass(Northtown, Weed), Pass(Westville, Weed), Pass(Downtown, Weed), Pass(Docks, Coca)]

  /** One area's table: the pass that made it and the customers it lists, in order. */
  datatype AreaReport = AreaReport(area: Area, axis: Axis, cohort: seq<Customer>)

  /** The summary printed under a table. */
  function Summary(r: AreaReport): Stats {
    Aggregate(TotalsOf(r.cohort, r.axis))
  }

  /** Every table of the report, and the customers no pass took. */
  datatype Outcome = Outcome(reports: seq<AreaReport>, remaining: seq<Customer>)

  /** A table lists at most `Capacity` customers, all of its area. */
  predicate Fits(r: AreaReport) {
    && |r.cohort| <= Capacity
    && (forall j :: 0 <= j < |r.cohort| ==> r.cohort[j].area == Some(r.area))
  }

  /** All customers listed in some table, counted with multiplicity. */
  function Assigned(reports: seq<AreaReport>): multiset<Customer> {
    if |reports| == 0 then multiset{} else multiset(reports[0].cohort) + Assigned(reports[1..])
  }

  /** The number of rows over all tables. */
  function Rows(reports: seq<AreaReport>): nat {
    if |reports| == 0 then 0 else |reports[0].cohort| + Rows(reports[1..])
  }

  /** No two passes list the same area. */
  predicate DistinctAreas(plan: seq<Pass>) {
    forall i, j :: 0 <= i < j < |plan| ==> plan[i].area != plan[j].area
  }

  /** Runs `plan` over `pool`, each pass on what the earlier ones left: one table per pass. */
  function Run(pool: seq<Customer>, plan: seq<Pass>): (o: Outcome)
    ensures |o.reports| == |plan|
    decreases |plan|
  {
    if |plan| == 0 then Outcome([], pool)
    else
      var pass := plan[0];
      var sel := Select(pool, pass.area, pass.axis);
      var later := Run(sel.rest, plan[1..]);
      Outcome([AreaReport(pass.area, pass.axis, sel.cohort)] + later.reports,
              later.remaining)
  }

  /** The first pass, and the run of the other passes on what it leaves. */
  lemma {:induction false} RunStep(pool: seq<Customer>, plan: seq<Pass>)
    requires |plan| > 0
    ensures var sel := Select(pool, plan[0].area, plan[0].axis);
      var later := Run(sel.rest, plan[1..]);
      && Run(pool, plan).reports[0] == AreaReport(plan[0].area, plan[0].axis, sel.cohort)
      && Run(pool, plan).reports[1..] == later.reports
      && Run(pool, plan).remaining == later.remaining
  {
  }

  /** The table of one pass belongs to it and fits it. */
  lemma {:induction false} PassFits(pool: seq<Customer>, pass: Pass)
    ensures Fits(AreaReport(pass.area, pass.axis, Select(pool, pass.area, pass.axis).cohort))
  {
  }

  /** Each table belongs to its pass and fits it. */
  lemma {:induction false} RunFits(pool: seq<Customer>, plan: seq<Pass>, i: nat)
    requires i < |plan|
    ensures Run(pool, plan).reports[i].area == plan[i].area
    ensures Run(pool, plan).reports[i].axis == plan[i].axis
    ensures Fits(Run(pool, plan).reports[i])
    decreases |plan|
  {
    if i == 0 {
      RunStep(pool, plan);
      PassFits(pool, plan[0]);
    } else {
      RunLater(pool, plan, i);
      RunFits(Select(pool, plan[0].area, plan[0].axis).rest, plan[1..], i - 1);
    }
  }

  /**
   * Every customer of the pool is either listed in exactly one table or
   * left over: nobody is lost, duplicated or listed twice.
   */
  lemma {:induction false} RunConserves(pool: seq<Customer>, plan: seq<Pass>)
    ensures multiset(pool) == multiset(Run(pool, plan).remaining) + Assigned(Run(pool, plan).reports)
    ensures |pool| == |Run(pool, plan).remaining| + Rows(Run(pool, plan).reports)
    decreases |plan|
  {
    if |plan| > 0 {
      RunStep(pool, plan);
      var sel := Select(pool, plan[0].area, plan[0].axis);
      var o, later := Run(pool, plan), Run(sel.rest, plan[1..]);
      RunConserves(sel.rest, plan[1..]);
      assert Assigned(o.reports) == multiset(sel.cohort) + Assigned(later.reports);
      assert Rows(o.reports) == |sel.cohort| + Rows(later.reports);
      MinusPlus(multiset(pool), multiset(sel.cohort));
    }
  }

  /** The customers of one area (or, for `None`, of no known area). */
  function HasArea(a: Option<Area>): Customer -> bool {
    (c: Customer) => c.area == a
  }

  /** A pass over another area takes nobody of area `a`. */
  lemma {:induction false} SelectKeepsArea(pool: seq<Customer>, pass: Pass, a: Option<Area>)
    requires a != Some(pass.area)
    ensures Filter(Select(pool, pass.area, pass.axis).rest, HasArea(a)) == Filter(pool, HasArea(a))
  {
    var cohort := Cohort(pool, pass.area, pass.axis);
    assert forall i :: 0 <= i < |cohort| ==> !HasArea(a)(cohort[i]);
    FilterRemoveEachOther(pool, cohort, HasArea(a));
  }

  /**
   * Customers of an area no pass lists are all left over, in their
   * original order.
   */
  lemma {:induction false} RunKeepsArea(pool: seq<Customer>, plan: seq<Pass>, a: Option<Area>)
    requires forall i :: 0 <= i < |plan| ==> a != Some(plan[i].area)
    ensures Filter(Run(pool, plan).remaining, HasArea(a)) == Filter(pool, HasArea(a))
    decreases |plan|
  {
    if |plan| > 0 {
      var sel := Select(pool, plan[0].area, plan[0].axis);
      SelectKeepsArea(pool, plan[0], a);
      RunKeepsArea(sel.rest, plan[1..], a);
    }
  }

  /**
   * The report's own plan lists nobody from SUBURBIA or UPTOWN, nor anyone
   * whose area was not recognised: they all remain, in their order.
   */
  lemma PlanKeepsUnlisted(pool: seq<Customer>, a: Option<Area>)
    requires a == Some(Suburbia) || a == Some(Uptown) || a == None
    ensures Filter(Run(pool, Plan).remaining, HasArea(a)) == Filter(pool, HasArea(a))
  {
    assert forall i :: 0 <= i < |Plan| ==> a != Some(Plan[i].area);
    RunKeepsArea(pool, Plan, a);
  }

  /** A pass over one area does not change the cohort of another. */
  lemma {:induction false} CohortAfterOtherPass(pool: seq<Customer>, first: Pass, area: Area, axis: Axis)
    requires first.area != area
    ensures Cohort(Select(pool, first.area, first.axis).rest, area, axis) == Cohort(pool, area, axis)
  {
    SelectKeepsArea(pool, first, Some(area));
    assert HasArea(Some(area)) == InArea(area);
    CohortOfArea(pool, area, axis);
    CohortOfArea(Select(pool, first.area, first.axis).rest, area, axis);
  }

  /** Dropping the first pass keeps the areas distinct. */
  lemma {:induction false} DistinctTail(plan: seq<Pass>)
    requires DistinctAreas(plan) && |plan| > 0
    ensures DistinctAreas(plan[1..])
  {
    var tail := plan[1..];
    forall i, j | 0 <= i < j < |tail| ensures tail[i].area != tail[j].area {
      assert tail[i] == plan[i + 1] && tail[j] == plan[j + 1];
    }
  }

  /**
   * With distinct areas, the order of the passes does not matter: each
   * table is the cohort its area would have in the untouched pool.
   */
  lemma {:induction false} RunCohortIndependent(pool: seq<Customer>, plan: seq<Pass>, i: nat)
    requires DistinctAreas(plan) && i < |plan|
    ensures Run(pool, plan).reports[i].cohort == Cohort(pool, plan[i].area, plan[i].axis)
    decreases |plan|
  {
    if i == 0 {
      RunStep(pool, plan);
    } else {
      RunLater(pool, plan, i);
      DistinctTail(plan);
      RunCohortIndependent(Select(pool, plan[0].area, plan[0].axis).rest, plan[1..], i - 1);
      CohortAfterOtherPass(pool, plan[0], plan[i].area, plan[i].axis);
    }
  }

  /** A customer left over at the end was left over by the first pass. */
  lemma {:induction false} LeftAfterFirst(pool: seq<Customer>, plan: seq<Pass>, x: Customer)
    requires |plan| > 0 && x in Run(pool, plan).remaining
    ensures x in Select(pool, plan[0].area, plan[0].axis).rest
  {
    RunStep(pool, plan);
    var rest := Select(pool, plan[0].area, plan[0].axis).rest;
    RunConserves(rest, plan[1..]);
    assert multiset(Run(rest, plan[1..]).remaining)[x] > 0;
    assert multiset(rest)[x] > 0;
  }

  /** Table `i` and the left-over pool come from the run of the later passes. */
  lemma {:induction false} RunLater(pool: seq<Customer>, plan: seq<Pass>, i: nat)
    requires 0 < i < |plan|
    ensures var later := Run(Select(pool, plan[0].area, plan[0].axis).rest, plan[1..]);
      && plan[1..][i - 1] == plan[i]
      && Run(pool, plan).reports[i] == later.reports[i - 1]
      && Run(pool, plan).remaining == later.remaining
  {
    RunStep(pool, plan);
  }

  /** Every row of `cohort` scores at least as much as `x` on `axis`. */
  predicate Outranks(cohort: seq<Customer>, x: Customer, axis: Axis) {
    forall j :: 0 <= j < |cohort| ==> Score(x, axis) <= Score(cohort[j], axis)
  }

  /**
   * A customer of a listed area who is left over was beaten: that area's
   * table is full and every row scores at least as much on its axis.
   */
  lemma {:induction false} RunTakesTop(pool: seq<Customer>, plan: seq<Pass>, i: nat, x: Customer)
    requires i < |plan|
    requires x in Run(pool, plan).remaining && x.area == Some(plan[i].area)
    ensures |Run(pool, plan).reports[i].cohort| == Capacity
    ensures Outranks(Run(pool, plan).reports[i].cohort, x, plan[i].axis)
    decreases |plan|
  {
    if i == 0 {
      RunStep(pool, plan);
      LeftAfterFirst(pool, plan, x);
      SelectTakesTop(pool, plan[0].area, plan[0].axis, x);
    } else {
      RunLater(pool, plan, i);
      RunTakesTop(Select(pool, plan[0].area, plan[0].axis).rest, plan[1..], i - 1, x);
    }
  }

  /**
   * The report's own plan: weed tables for NORTHTOWN, WESTVILLE and
   * DOWNTOWN, then a coca table for DOCKS, each the cohort of the
   * untouched pool, so DOCKS customers never appear in a weed table.
   */
  lemma PlanReports(pool: seq<Customer>)
    ensures var reports := Run(pool, Plan).reports;
      && |reports| == 4
      && reports[0].cohort == Cohort(pool, Northtown, Weed)
      && reports[1].cohort == Cohort(pool, Westville, Weed)
      && reports[2].cohort == Cohort(pool, Downtown, Weed)
      && reports[3].cohort == Cohort(pool, Docks, Coca)
  {
    assert DistinctAreas(Plan);
    RunCohortIndependent(pool, Plan, 0);
    RunCohortIndependent(pool, Plan, 1);
    RunCohortIndependent(pool, Plan, 2);
    RunCohortIndependent(pool, Plan, 3);
  }

  /** No DOCKS customer is listed in a weed table of the report. */
  lemma PlanWeedTablesHaveNoDocks(pool: seq<Customer>, i: nat, j: nat)
    requires i < 3 && j < |Run(pool, Plan).reports[i].cohort|
    ensures Run(pool, Plan).reports[i].axis == Weed
    ensures Run(pool, Plan).reports[i].cohort[j].area != Some(Docks)
  {
    RunFits(pool, Plan, i);
  }

  /**
   * After the first `k` passes of `plan`: the tables so far, followed by
   * the run of the other passes on what is left, make up the whole run.
   */
  predicate RanSoFar(pool: seq<Customer>, plan: seq<Pass>, k: nat, reports: seq<AreaReport>, remaining: seq<Customer>) {
    && k <= |plan|
    && Run(pool, plan) == Outcome(reports + Run(remaining, plan[k..]).reports, Run(remaining, plan[k..]).remaining)
  }

  /** Before the first pass the run is all ahead. */
  lemma {:induction false} RanNothing(pool: seq<Customer>, plan: seq<Pass>)
    ensures RanSoFar(pool, plan, 0, [], pool)
  {
    assert plan[0..] == plan;
  }

  /** One more pass moves its table from the run ahead to the tables so far. */
  lemma {:induction false} RanOneMore(pool: seq<Customer>, plan: seq<Pass>, k: nat, reports: seq<AreaReport>, remaining: seq<Customer>,
                                      cohort: seq<Customer>, rest: seq<Customer>)
    requires RanSoFar(pool, plan, k, reports, remaining) && k < |plan|
    requires cohort == Cohort(remaining, plan[k].area, plan[k].axis)
    requires rest == Select(remaining, plan[k].area, plan[k].axis).rest
    ensures RanSoFar(pool, plan, k + 1, reports + [AreaReport(plan[k].area, plan[k].axis, cohort)], rest)
  {
    var sel := Select(remaining, plan[k].area, plan[k].axis);
    var report := AreaReport(plan[k].area, plan[k].axis, cohort);
    RunStep(remaining, plan[k..]);
    assert plan[k..][0] == plan[k] && plan[k..][1..] == plan[k + 1..];
    var ahead := Run(sel.rest, plan[k + 1..]).reports;
    assert Run(remaining, plan[k..]).reports == [report] + ahead;
    assert reports + ([report] + ahead) == (reports + [report]) + ahead;
  }

  /** After the last pass nothing is ahead. */
  lemma {:induction false} RanAll(pool: seq<Customer>, plan: seq<Pass>, reports: seq<AreaReport>, remaining: seq<Customer>)
    requires RanSoFar(pool, plan, |plan|, reports, remaining)
    ensures Run(pool, plan) == Outcome(reports, remaining)
  {
    assert plan[|plan|..] == [];
    assert reports + [] == reports;
  }

  /** `summaries` holds the summary of each table, in order. */
  predicate Summarised(reports: seq<AreaReport>, summaries: seq<Stats>) {
    && |summaries| == |reports|
    && forall k :: 0 <= k < |reports| ==> summaries[k] == Summary(reports[k])
  }

  /** The running totals of a table's rows give its summary. */
  lemma {:induction false} SummariseOneMore(reports: seq<AreaReport>, summaries: seq<Stats>, r: AreaReport, totals: Totals)
    requires Summarised(reports, summaries)
    requires totals == TotalsOf(r.cohort, r.axis)
    ensures Summarised(reports + [r], summaries + [Aggregate(totals)])
  {
    var rs, ss := reports + [r], summaries + [Aggregate(totals)];
    forall k | 0 <= k < |rs| ensures ss[k] == Summary(rs[k]) {
      if k < |reports| {
        assert rs[k] == reports[k] && ss[k] == summaries[k];
      } else {
        assert rs[k] == r && ss[k] == Aggregate(totals);
      }
    }
  }

  /**
   * The report loops as `main` runs them, for `main`'s `Plan` or any other
   * plan: each pass ranks the current pool, keeps its area's top customers,
   * removes them from the pool and summarises them from the running
   * totals. It produces exactly the tables and the left-over pool of `Run`,
   * and each table's summary.
   */
  method RankAll(pool: seq<Customer>, plan: seq<Pass>) returns (reports: seq<AreaReport>, summaries: seq<Stats>, remaining: seq<Customer>)
    ensures Run(pool, plan) == Outcome(reports, remaining)
    ensures Summarised(reports, summaries)
  {
    reports, summaries, remaining := [], [], pool;
    RanNothing(pool, plan);
    for k := 0 to |plan|
      invariant RanSoFar(pool, plan, k, reports, remaining)
      invariant Summarised(reports, summaries)
    {
      var pass := plan[k];
      var cohort, rest, totals := SelectArea(remaining, pass.area, pass.axis);
      var report := AreaReport(pass.area, pass.axis, cohort);
      RanOneMore(pool, plan, k, reports, remaining, cohort, rest);
      SummariseOneMore(reports, summaries, report, totals);
      reports, summaries, remaining := reports + [report], summaries + [Aggregate(totals)], rest;
    }
    RanAll(pool, plan, reports, remaining);
  }
}
