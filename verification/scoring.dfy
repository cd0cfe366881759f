/**
 * A customer's value to an area: the area's affinity times the mid-point
 * of the weekly budget times the mid-point of the weekly order count.
 */
module Scoring {
  import opened Customers

  /** Which of the three affinities an area ranks by. */
  datatype Axis = Weed | Meth | Coca

  function Affinity(c: Customer, axis: Axis): real {
    match axis
    case Weed => c.weed
    case Meth => c.meth
    case Coca => c.coca
  }

  /** `(m.min + m.max) / 2` with Python's true division. */
  function Mid(m: MinMax): (r: real)
    ensures m.min <= m.max ==> m.min as real <= r <= m.max as real
    ensures r + r == (m.min + m.max) as real
  {
    (m.min + m.max) as real / 2.0
  }

  /** The sort key of the ranking loops. */
  function Score(c: Customer, axis: Axis): real {
    Affinity(c, axis) * Mid(c.budget) * Mid(c.orders)
  }

  /** `Score` with the axis fixed, as the key handed to the sort. */
  function ScoreOf(axis: Axis): Customer -> real {
    (c: Customer) => Score(c, axis)
  }

  /**
   * Among customers with the same positive budget and order ranges, the
   * one with the larger affinity scores strictly higher, and equal
   * affinities tie.
   */
  lemma ScoreFollowsAffinity(c: Customer, d: Customer, axis: Axis)
    requires c.budget == d.budget && c.orders == d.orders
    requires Mid(c.budget) > 0.0 && Mid(c.orders) > 0.0
    ensures Affinity(c, axis) > Affinity(d, axis) <==> Score(c, axis) > Score(d, axis)
    ensures Affinity(c, axis) == Affinity(d, axis) <==> Score(c, axis) == Score(d, axis)
  {
    var m := Mid(c.budget) * Mid(c.orders);
    assert m > 0.0;
    assert Score(c, axis) == Affinity(c, axis) * m;
    assert Score(d, axis) == Affinity(d, axis) * m;
    assert Score(c, axis) - Score(d, axis) == (Affinity(c, axis) - Affinity(d, axis)) * m;
  }
}
