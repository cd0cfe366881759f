/**
 * The summary printed under each area's table. The loop accumulates three
 * running totals over the cohort; the averages divide them by the fixed
 * cohort capacity 8, whatever the cohort's actual size, and the "sector
 * valuability" multiplies the three undivided totals.
 */
module Aggregation {
  import opened Customers
  import opened Scoring
  import opened Seqs

  /** The cohort size the report is built for, and the divisor of every average. */
  const Capacity: nat := 8

  /** Running totals of order mid-points, budget mid-points and affinities. */
  datatype Totals = Totals(orders: real, budget: real, affinity: real)

  /** What one cohort member adds to the totals. */
  function Contribution(c: Customer, axis: Axis): Totals {
    Totals(Mid(c.orders), Mid(c.budget), Affinity(c, axis))
  }

  function Add(t: Totals, u: Totals): Totals {
    Totals(t.orders + u.orders, t.budget + u.budget, t.affinity + u.affinity)
  }

  /** The totals after the loop has added the members of `cohort` in order. */
  function TotalsOf(cohort: seq<Customer>, axis: Axis): Totals
  {
    if |cohort| == 0 then Totals(0.0, 0.0, 0.0)
    else Add(TotalsOf(cohort[..|cohort| - 1], axis), Contribution(cohort[|cohort| - 1], axis))
  }

  /** The four printed figures. */
  datatype Stats = Stats(avgOrders: real, avgBudget: real, avgAffinity: real, valuability: real)

  /**
   * The summary of a cohort's totals. Each average is the total over the
   * fixed capacity, so `Capacity` times the average gives back the total;
   * the valuability is the product of the undivided totals over 1,000,000.
   */
  function Aggregate(t: Totals): (s: Stats)
    ensures s.avgOrders * Capacity as real == t.orders
    ensures s.avgBudget * Capacity as real == t.budget
    ensures s.avgAffinity * Capacity as real == t.affinity
    ensures s.valuability * 1000000.0 == t.orders * t.budget * t.affinity
  {
    var n := Capacity as real;
    Stats(t.orders / n, t.budget / n, t.affinity / n, t.orders * t.budget * t.affinity / 1000000.0)
  }

  /**
   * Since the totals are never divided before they are multiplied, the
   * valuability is `Capacity`^3 = 512 times the product of the printed
   * averages over 1,000,000.
   */
  lemma ValuabilityOfAverages(t: Totals)
    ensures var s := Aggregate(t);
      s.valuability == 512.0 * s.avgOrders * s.avgBudget * s.avgAffinity / 1000000.0
  {
    var s := Aggregate(t);
    assert t.orders == 8.0 * s.avgOrders && t.budget == 8.0 * s.avgBudget && t.affinity == 8.0 * s.avgAffinity;
    assert t.orders * t.budget * t.affinity == 512.0 * (s.avgOrders * s.avgBudget * s.avgAffinity);
  }

  /** One more member adds its contribution. */
  lemma {:induction false} TotalsOfSnoc(cohort: seq<Customer>, c: Customer, axis: Axis)
    ensures TotalsOf(cohort + [c], axis) == Add(TotalsOf(cohort, axis), Contribution(c, axis))
  {
    assert (cohort + [c])[..|cohort|] == cohort;
  }

  /** Totals add up over concatenation. */
  lemma {:induction false} TotalsOfAppend(a: seq<Customer>, b: seq<Customer>, axis: Axis)
    ensures TotalsOf(a + b, axis) == Add(TotalsOf(a, axis), TotalsOf(b, axis))
    decreases |b|
  {
    if |b| == 0 {
      assert a + b == a;
    } else {
      var b', last := b[..|b| - 1], b[|b| - 1];
      assert (a + b)[..|a + b| - 1] == a + b';
      assert (a + b)[|a + b| - 1] == last;
      TotalsOfAppend(a, b', axis);
    }
  }

  lemma {:induction false} TotalsRemoveAt(b: seq<Customer>, i: nat, axis: Axis)
    requires i < |b|
    ensures TotalsOf(b, axis) == Add(TotalsOf(b[..i] + b[i + 1..], axis), Contribution(b[i], axis))
  {
    assert b == (b[..i] + [b[i]]) + b[i + 1..];
    TotalsOfAppend(b[..i] + [b[i]], b[i + 1..], axis);
    TotalsOfAppend(b[..i], [b[i]], axis);
    TotalsOfAppend(b[..i], b[i + 1..], axis);
    assert [b[i]][..0] == [];
  }

  /**
   * The totals depend only on which customers are in the cohort, not on
   * the order in which the loop met them.
   */
  lemma {:induction false} TotalsOfPermutation(a: seq<Customer>, b: seq<Customer>, axis: Axis)
    requires multiset(a) == multiset(b)
    ensures TotalsOf(a, axis) == TotalsOf(b, axis)
    decreases |a|
  {
    if |a| > 0 {
      var x := a[|a| - 1];
      var a' := a[..|a| - 1];
      assert a == a' + [x];
      assert multiset(a') == multiset(a) - multiset{x};
      assert x in multiset(b);
      var i :| 0 <= i < |b| && b[i] == x;
      var b' := b[..i] + b[i + 1..];
      MultisetRemoveAt(b, i);
      TotalsOfPermutation(a', b', axis);
      TotalsRemoveAt(b, i, axis);
    }
  }

  /** Dividing by 8 is the mean over `n` scaled by `n / 8`. */
  lemma MeanScaled(a: real, n: real)
    requires n > 0.0
    ensures (a / n) * (n / 8.0) == a / 8.0
  {
    var m := a / n;
    assert m * n == a;
    assert m * (n / 8.0) == (m * n) / 8.0;
  }

  /** Over fewer than 8, a positive total's mean exceeds the total over 8. */
  lemma ShortMeanSmaller(a: real, n: real)
    requires 0.0 < n < 8.0 && a > 0.0
    ensures a / 8.0 < a / n
  {
    var m := a / n;
    assert m * n == a;
    assert m > 0.0;
    assert a / 8.0 == m * (n / 8.0);
    assert n / 8.0 < 1.0;
  }

  /**
   * One printed average, `total / 8`, for a total over `n` members: the
   * true mean scaled by `n / 8`, so the true mean for a full cohort and
   * less than it for a short one with a positive total.
   */
  lemma FixedMean(total: real, avg: real, n: nat)
    requires 0 < n <= Capacity && avg * Capacity as real == total
    ensures avg == (total / n as real) * (n as real / Capacity as real)
    ensures n == Capacity ==> avg == total / n as real
    ensures n < Capacity && total > 0.0 ==> avg < total / n as real
  {
    MeanScaled(total, n as real);
    if n < Capacity && total > 0.0 {
      ShortMeanSmaller(total, n as real);
    }
  }

  /** `FixedMean` for each of the three printed averages. */
  lemma ScaledAverage(t: Totals, n: nat)
    requires 0 < n <= Capacity
    ensures var s := Aggregate(t);
      && s.avgOrders == (t.orders / n as real) * (n as real / Capacity as real)
      && (n == Capacity ==> s.avgOrders == t.orders / n as real)
      && (n < Capacity && t.orders > 0.0 ==> s.avgOrders < t.orders / n as real)
    ensures var s := Aggregate(t);
      && s.avgBudget == (t.budget / n as real) * (n as real / Capacity as real)
      && (n == Capacity ==> s.avgBudget == t.budget / n as real)
      && (n < Capacity && t.budget > 0.0 ==> s.avgBudget < t.budget / n as real)
    ensures var s := Aggregate(t);
      && s.avgAffinity == (t.affinity / n as real) * (n as real / Capacity as real)
      && (n == Capacity ==> s.avgAffinity == t.affinity / n as real)
      && (n < Capacity && t.affinity > 0.0 ==> s.avgAffinity < t.affinity / n as real)
  {
    var s := Aggregate(t);
    FixedMean(t.orders, s.avgOrders, n);
    FixedMean(t.budget, s.avgBudget, n);
    FixedMean(t.affinity, s.avgAffinity, n);
  }

  /**
   * A full cohort's averages are true means. A shorter non-empty cohort's
   * averages are its true means scaled by `|cohort| / 8`: strictly smaller
   * where the true mean is positive.
   */
  lemma FixedDivisor(cohort: seq<Customer>, axis: Axis)
    requires 0 < |cohort| <= Capacity
    ensures var t, s := TotalsOf(cohort, axis), Aggregate(TotalsOf(cohort, axis));
      && s.avgOrders == (t.orders / |cohort| as real) * (|cohort| as real / Capacity as real)
      && (|cohort| == Capacity ==> s.avgOrders == t.orders / |cohort| as real)
      && (|cohort| < Capacity && t.orders > 0.0 ==> s.avgOrders < t.orders / |cohort| as real)
    ensures var t, s := TotalsOf(cohort, axis), Aggregate(TotalsOf(cohort, axis));
      && s.avgBudget == (t.budget / |cohort| as real) * (|cohort| as real / Capacity as real)
      && (|cohort| == Capacity ==> s.avgBudget == t.budget / |cohort| as real)
      && (|cohort| < Capacity && t.budget > 0.0 ==> s.avgBudget < t.budget / |cohort| as real)
    ensures var t, s := TotalsOf(cohort, axis), Aggregate(TotalsOf(cohort, axis));
      && s.avgAffinity == (t.affinity / |cohort| as real) * (|cohort| as real / Capacity as real)
      && (|cohort| == Capacity ==> s.avgAffinity == t.affinity / |cohort| as real)
      && (|cohort| < Capacity && t.affinity > 0.0 ==> s.avgAffinity < t.affinity / |cohort| as real)
  {
    ScaledAverage(TotalsOf(cohort, axis), |cohort|);
  }

  /**
   * Worked example: averages of 10 orders, 500 budget and 0.8 affinity
   * (totals 80, 4000 and 6.4) report a valuability of 2.048, which is 512
   * times the 0.004 the product of the averages over 1,000,000 would give.
   */
  lemma ValuabilityExample()
    ensures Aggregate(Totals(80.0, 4000.0, 6.4)) == Stats(10.0, 500.0, 0.8, 2.048)
    ensures 10.0 * 500.0 * 0.8 / 1000000.0 == 0.004 && 2.048 == 512.0 * 0.004
  {
  }
}
