/**
 * Sequence operations the selection loop is built from: filtering,
 * taking a prefix, Python's `list.remove` (first value-equal element),
 * and "is obtained by deleting elements" (subsequence).
 */
module Seqs {

  function Min(a: int, b: int): int {
    if a <= b then a else b
  }

  /** The elements of `s` satisfying `p`, in their order in `s`. */
  function Filter<T(!new)>(s: seq<T>, p: T -> bool): (r: seq<T>)
    ensures |r| <= |s|
    ensures forall i :: 0 <= i < |r| ==> p(r[i])
  {
    if |s| == 0 then []
    else (if p(s[0]) then [s[0]] else []) + Filter(s[1..], p)
  }

  /** Filtering keeps every `p`-element as often as it occurs, and nothing else. */
  lemma {:induction false} FilterMultiset<T(!new)>(s: seq<T>, p: T -> bool)
    ensures forall x :: multiset(Filter(s, p))[x] == if p(x) then multiset(s)[x] else 0
  {
    if |s| > 0 {
      FilterMultiset(s[1..], p);
      assert s == [s[0]] + s[1..];
    }
  }

  lemma {:induction false} FilterSubMultiset<T(!new)>(s: seq<T>, p: T -> bool)
    ensures multiset(Filter(s, p)) <= multiset(s)
  {
    FilterMultiset(s, p);
  }

  /** Filtering only drops elements. */
  lemma {:induction false} FilterMember<T(!new)>(s: seq<T>, p: T -> bool, x: T)
    requires x in Filter(s, p)
    ensures x in s && p(x)
  {
    FilterMultiset(s, p);
    assert x in multiset(Filter(s, p));
  }

  lemma {:induction false} FilterAppend<T(!new)>(a: seq<T>, b: seq<T>, p: T -> bool)
    ensures Filter(a + b, p) == Filter(a, p) + Filter(b, p)
  {
    if |a| == 0 {
      assert a + b == b;
    } else {
      assert (a + b)[0] == a[0];
      assert (a + b)[1..] == a[1..] + b;
      FilterAppend(a[1..], b, p);
    }
  }

  /** Every element satisfies `p` exactly when filtering by `p` changes nothing. */
  lemma {:induction false} FilterAll<T(!new)>(s: seq<T>, p: T -> bool)
    requires forall i :: 0 <= i < |s| ==> p(s[i])
    ensures Filter(s, p) == s
  {
    if |s| != 0 {
      FilterAll(s[1..], p);
    }
  }

  /** `s[:n]` for `n >= 0`: the first `n` elements, or all of `s` if it is shorter. */
  function Take<T>(s: seq<T>, n: nat): (r: seq<T>)
    ensures |r| == Min(n, |s|)
    ensures r == s[..|r|]
  {
    if n >= |s| then s else s[..n]
  }

  lemma {:induction false} TakeSubMultiset<T>(s: seq<T>, n: nat)
    ensures multiset(Take(s, n)) <= multiset(s)
  {
    var r := Take(s, n);
    assert s == r + s[|r|..];
  }

  /**
   * One step of "keep the first `n` elements satisfying `p`": the next
   * element is kept exactly when fewer than `n` are kept and it satisfies `p`.
   */
  lemma {:induction false} TakeFilterStep<T(!new)>(s: seq<T>, k: nat, p: T -> bool, n: nat)
    requires k < |s|
    ensures var kept := Take(Filter(s[..k], p), n);
      Take(Filter(s[..k + 1], p), n) == if |kept| >= n || !p(s[k]) then kept else kept + [s[k]]
  {
    assert s[..k + 1] == s[..k] + [s[k]];
    FilterAppend(s[..k], [s[k]], p);
    assert [s[k]][1..] == [];
  }

  /** Removing one more element extends `RemoveEach` by one `RemoveFirst`. */
  lemma {:induction false} RemoveEachSnoc<T>(s: seq<T>, xs: seq<T>, x: T)
    requires multiset(xs + [x]) <= multiset(s)
    ensures multiset(xs) <= multiset(s)
    ensures x in RemoveEach(s, xs)
    ensures RemoveEach(s, xs + [x]) == RemoveFirst(RemoveEach(s, xs), x)
  {
    assert (xs + [x])[..|xs|] == xs;
    assert multiset(xs + [x]) == multiset(xs) + multiset{x};
    assert x in multiset(RemoveEach(s, xs));
  }

  /** The position of the first element equal to `x`. */
  function IndexOf<T(==)>(s: seq<T>, x: T): (i: nat)
    requires x in s
    ensures i < |s| && s[i] == x
    ensures x !in s[..i]
  {
    if s[0] == x then 0 else 1 + IndexOf(s[1..], x)
  }

  /**
   * `s.remove(x)`: deletes the first element equal to `x`. Python raises
   * `ValueError` when there is none, so `x in s` is the caller's duty.
   */
  function RemoveFirst<T(==)>(s: seq<T>, x: T): (r: seq<T>)
    requires x in s
    ensures |r| == |s| - 1
  {
    if s[0] == x then s[1..]
    else [s[0]] + RemoveFirst(s[1..], x)
  }

  /** Exactly one copy of `x` goes. */
  lemma {:induction false} RemoveFirstMultiset<T>(s: seq<T>, x: T)
    requires x in s
    ensures multiset(RemoveFirst(s, x)) == multiset(s) - multiset{x}
  {
    assert s == [s[0]] + s[1..];
    if s[0] != x {
      RemoveFirstMultiset(s[1..], x);
    }
  }

  /** Deleting the first `x` cuts the sequence at the first position holding `x`. */
  lemma {:induction false} RemoveFirstAt<T>(s: seq<T>, x: T, i: nat)
    requires i < |s| && s[i] == x && x !in s[..i]
    ensures RemoveFirst(s, x) == s[..i] + s[i + 1..]
  {
    if i > 0 {
      assert s[0] in s[..i];
      var t := s[1..];
      assert t[..i - 1] == s[1..i];
      RemoveFirstAt(t, x, i - 1);
      assert s[..i] == [s[0]] + t[..i - 1];
      assert t[i..] == s[i + 1..];
    }
  }

  /** What is removed is exactly the element at the first position holding `x`. */
  lemma {:induction false} RemoveFirstAtIndexOf<T>(s: seq<T>, x: T)
    requires x in s
    ensures RemoveFirst(s, x) == s[..IndexOf(s, x)] + s[IndexOf(s, x) + 1..]
  {
    RemoveFirstAt(s, x, IndexOf(s, x));
  }

  /** `a` is `b` with some elements deleted; the survivors keep their order. */
  predicate Subsequence<T(==)>(a: seq<T>, b: seq<T>)
    decreases |b|
  {
    || |a| == 0
    || (&& |b| > 0
        && ((a[0] == b[0] && Subsequence(a[1..], b[1..])) || Subsequence(a, b[1..])))
  }

  lemma {:induction false} SubsequenceRefl<T>(a: seq<T>)
    ensures Subsequence(a, a)
  {
    if |a| > 0 {
      SubsequenceRefl(a[1..]);
    }
  }

  lemma {:induction false} SubsequenceTrans<T>(a: seq<T>, b: seq<T>, c: seq<T>)
    requires Subsequence(a, b) && Subsequence(b, c)
    ensures Subsequence(a, c)
    decreases |c|
  {
    if |a| == 0 {
    } else if Subsequence(b, c[1..]) {
      SubsequenceTrans(a, b, c[1..]);
    } else if a[0] == b[0] && Subsequence(a[1..], b[1..]) {
      SubsequenceTrans(a[1..], b[1..], c[1..]);
    } else {
      SubsequenceTrans(a, b[1..], c[1..]);
    }
  }

  /** Removing one element keeps everything else in order. */
  lemma {:induction false} RemoveFirstSubsequence<T>(s: seq<T>, x: T)
    requires x in s
    ensures Subsequence(RemoveFirst(s, x), s)
  {
    if s[0] == x {
      SubsequenceRefl(s[1..]);
    } else {
      RemoveFirstSubsequence(s[1..], x);
    }
  }

  /** Taking away `b` and then `c` is taking away both at once. */
  lemma MinusTwice<T>(a: multiset<T>, b: multiset<T>, c: multiset<T>)
    requires b + c <= a
    ensures b <= a && c <= a - b
    ensures a - b - c == a - (b + c)
  {
  }

  /**
   * `for x in xs: s.remove(x)`, one removal at a time in the order of `xs`.
   * Each removal finds its element when `xs` is contained in `s` with
   * multiplicities.
   */
  function RemoveEach<T(==)>(s: seq<T>, xs: seq<T>): (r: seq<T>)
    requires multiset(xs) <= multiset(s)
    ensures |r| == |s| - |xs|
    ensures multiset(r) == multiset(s) - multiset(xs)
    decreases |xs|
  {
    if |xs| == 0 then s
    else
      var init, last := xs[..|xs| - 1], xs[|xs| - 1];
      assert xs == init + [last];
      MinusTwice(multiset(s), multiset(init), multiset{last});
      var prev := RemoveEach(s, init);
      assert last in multiset(prev);
      RemoveFirstMultiset(prev, last);
      RemoveFirst(prev, last)
  }

  /** The removals keep the survivors in their original order. */
  lemma {:induction false} RemoveEachSubsequence<T>(s: seq<T>, xs: seq<T>)
    requires multiset(xs) <= multiset(s)
    ensures Subsequence(RemoveEach(s, xs), s)
    decreases |xs|
  {
    if |xs| == 0 {
      SubsequenceRefl(s);
    } else {
      var init, last := xs[..|xs| - 1], xs[|xs| - 1];
      assert xs == init + [last];
      var prev := RemoveEach(s, init);
      RemoveEachSubsequence(s, init);
      assert last in multiset(prev);
      RemoveFirstSubsequence(prev, last);
      SubsequenceTrans(RemoveFirst(prev, last), prev, s);
    }
  }

  /** Removing an element that fails `p` leaves the `p`-elements as they were. */
  lemma {:induction false} FilterRemoveOther<T(!new)>(s: seq<T>, x: T, p: T -> bool)
    requires x in s && !p(x)
    ensures Filter(RemoveFirst(s, x), p) == Filter(s, p)
  {
    if s[0] != x {
      FilterRemoveOther(s[1..], x, p);
      assert RemoveFirst(s, x) == [s[0]] + RemoveFirst(s[1..], x);
      assert ([s[0]] + RemoveFirst(s[1..], x))[1..] == RemoveFirst(s[1..], x);
    }
  }

  /**
   * Removing elements that all fail `p` leaves the sequence of
   * `p`-elements unchanged: same elements, same order.
   */
  lemma {:induction false} FilterRemoveEachOther<T(!new)>(s: seq<T>, xs: seq<T>, p: T -> bool)
    requires multiset(xs) <= multiset(s)
    requires forall i :: 0 <= i < |xs| ==> !p(xs[i])
    ensures Filter(RemoveEach(s, xs), p) == Filter(s, p)
    decreases |xs|
  {
    if |xs| > 0 {
      var init, last := xs[..|xs| - 1], xs[|xs| - 1];
      assert xs == init + [last];
      FilterRemoveEachOther(s, init, p);
      var prev := RemoveEach(s, init);
      assert last in multiset(prev);
      FilterRemoveOther(prev, last, p);
    }
  }

  /** Growing a prefix by one element grows its multiset by that element, inside the whole. */
  lemma {:induction false} PrefixStep<T>(s: seq<T>, k: nat)
    requires k < |s|
    ensures multiset(s[..k + 1]) == multiset(s[..k]) + multiset{s[k]}
    ensures multiset(s[..k + 1]) <= multiset(s)
  {
    assert s[..k + 1] == s[..k] + [s[k]];
    assert s == s[..k + 1] + s[k + 1..];
  }

  /** Cutting out position `i` takes away one copy of the element there. */
  lemma {:induction false} MultisetRemoveAt<T>(b: seq<T>, i: nat)
    requires i < |b|
    ensures multiset(b[..i] + b[i + 1..]) == multiset(b) - multiset{b[i]}
  {
    assert b == b[..i] + [b[i]] + b[i + 1..];
  }

  /** Taking away a part and putting it back gives the whole. */
  lemma MinusPlus<T>(a: multiset<T>, b: multiset<T>)
    requires b <= a
    ensures a == (a - b) + b
  {
  }
}
