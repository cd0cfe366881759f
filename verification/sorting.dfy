/**
 * `sorted(xs, key=key, reverse=True)`: a stable sort into descending key
 * order. Python documents the reversed sort as stable, so elements with
 * equal keys keep their original order. The model is an insertion sort;
 * `SortDescCharacterized` shows it is the only sequence that is descending
 * and keeps the original order within every key.
 */
module StableSort {
  import opened Seqs

  /** Keys never increase from left to right. */
  predicate SortedDesc<T>(s: seq<T>, key: T -> real) {
    forall i, j :: 0 <= i < j < |s| ==> key(s[i]) >= key(s[j])
  }

  /** The test "has key `k`", as a predicate to filter by. */
  function HasKey<T>(key: T -> real, k: real): T -> bool {
    x => key(x) == k
  }

  lemma {:induction false} TakeSorted<T>(s: seq<T>, n: nat, key: T -> real)
    requires SortedDesc(s, key)
    ensures SortedDesc(Take(s, n), key)
  {
    var r := Take(s, n);
    forall i, j | 0 <= i < j < |r| ensures key(r[i]) >= key(r[j]) {
      assert r[i] == s[i] && r[j] == s[j];
    }
  }

  /**
   * In a descending sequence, an element occurring more often than among
   * the first `n` sits behind them: the prefix is a full `n` long and none
   * of its elements has a smaller key.
   */
  lemma {:induction false} TakeBehind<T>(m: seq<T>, n: nat, x: T, key: T -> real)
    requires SortedDesc(m, key)
    requires multiset(m)[x] > multiset(Take(m, n))[x]
    ensures |Take(m, n)| == n
    ensures forall i :: 0 <= i < n ==> key(x) <= key(Take(m, n)[i])
  {
    var t := Take(m, n);
    var back := m[|t|..];
    assert m == t + back;
    assert multiset(back)[x] > 0;
    var j :| 0 <= j < |back| && back[j] == x;
    assert m[|t| + j] == x;
  }

  /** The elements whose key is `k`, in their order in `s`. */
  function KeyClass<T(!new)>(s: seq<T>, key: T -> real, k: real): seq<T> {
    Filter(s, HasKey(key, k))
  }

  /**
   * Puts `x` into a descending `s` in front of the first element whose key
   * is not larger than `x`'s, so `x` precedes the equal keys already there.
   */
  function Insert<T(!new)>(x: T, s: seq<T>, key: T -> real): (r: seq<T>)
    ensures |r| == |s| + 1
  {
    if |s| == 0 || key(x) >= key(s[0]) then [x] + s
    else [s[0]] + Insert(x, s[1..], key)
  }

  /** Inserting adds `x` and nothing else. */
  lemma {:induction false} InsertMultiset<T(!new)>(x: T, s: seq<T>, key: T -> real)
    ensures multiset(Insert(x, s, key)) == multiset(s) + multiset{x}
  {
    if |s| > 0 && key(x) < key(s[0]) {
      assert s == [s[0]] + s[1..];
      InsertMultiset(x, s[1..], key);
    }
  }

  /** Every element of `s` is bounded by `b`. */
  predicate KeysAtMost<T>(s: seq<T>, key: T -> real, b: real) {
    forall i :: 0 <= i < |s| ==> key(s[i]) <= b
  }

  /** Inserting keeps a sequence descending. */
  lemma {:induction false} InsertSorted<T(!new)>(x: T, s: seq<T>, key: T -> real)
    requires SortedDesc(s, key)
    ensures SortedDesc(Insert(x, s, key), key)
  {
    if |s| == 0 || key(x) >= key(s[0]) {
      var r := [x] + s;
      forall i, j | 0 <= i < j < |r| ensures key(r[i]) >= key(r[j]) {
        if i > 0 {
          assert r[i] == s[i - 1] && r[j] == s[j - 1];
        } else {
          assert r[j] == s[j - 1];
          assert key(s[0]) >= key(s[j - 1]);
        }
      }
    } else {
      var t := Insert(x, s[1..], key);
      InsertSorted(x, s[1..], key);
      InsertMultiset(x, s[1..], key);
      forall j | 0 <= j < |t| ensures key(t[j]) <= key(s[0]) {
        assert t[j] in multiset(t);
        if t[j] != x {
          assert t[j] in multiset(s[1..]);
          var m :| 0 <= m < |s[1..]| && s[1..][m] == t[j];
          assert s[m + 1] == t[j];
        }
      }
      var r := [s[0]] + t;
      forall i, j | 0 <= i < j < |r| ensures key(r[i]) >= key(r[j]) {
        if i > 0 {
          assert r[i] == t[i - 1] && r[j] == t[j - 1];
        } else {
          assert r[j] == t[j - 1];
        }
      }
    }
  }

  /** The stable descending sort. */
  function SortDesc<T(!new)>(s: seq<T>, key: T -> real): (r: seq<T>)
    ensures |r| == |s|
  {
    if |s| == 0 then []
    else Insert(s[0], SortDesc(s[1..], key), key)
  }

  /** The sort is a permutation. */
  lemma {:induction false} SortDescMultiset<T(!new)>(s: seq<T>, key: T -> real)
    ensures multiset(SortDesc(s, key)) == multiset(s)
  {
    if |s| > 0 {
      assert s == [s[0]] + s[1..];
      SortDescMultiset(s[1..], key);
      InsertMultiset(s[0], SortDesc(s[1..], key), key);
    }
  }

  /** The sort's output is descending. */
  lemma {:induction false} SortDescSorted<T(!new)>(s: seq<T>, key: T -> real)
    ensures SortedDesc(SortDesc(s, key), key)
  {
    if |s| > 0 {
      SortDescSorted(s[1..], key);
      InsertSorted(s[0], SortDesc(s[1..], key), key);
    }
  }

  /** `SortDesc` inserts the head into the sorted tail. */
  lemma {:induction false} SortDescCons<T(!new)>(y: T, s: seq<T>, key: T -> real)
    ensures SortDesc([y] + s, key) == Insert(y, SortDesc(s, key), key)
  {
    assert ([y] + s)[0] == y && ([y] + s)[1..] == s;
  }

  /** An element that outranks all of a descending sequence goes in front. */
  lemma {:induction false} InsertInFront<T(!new)>(x: T, s: seq<T>, key: T -> real)
    requires forall i :: 0 <= i < |s| ==> key(s[i]) <= key(x)
    ensures Insert(x, s, key) == [x] + s
  {
  }

  /** Filtering keeps an upper bound on the keys. */
  lemma {:induction false} FilterKeysAtMost<T(!new)>(s: seq<T>, key: T -> real, b: real, p: T -> bool)
    requires KeysAtMost(s, key, b)
    ensures KeysAtMost(Filter(s, p), key, b)
  {
    var f := Filter(s, p);
    forall i | 0 <= i < |f| ensures key(f[i]) <= b {
      FilterMember(s, p, f[i]);
    }
  }

  /** The head of a descending sequence bounds all of it. */
  lemma {:induction false} HeadBounds<T>(s: seq<T>, key: T -> real)
    requires SortedDesc(s, key) && |s| > 0
    ensures KeysAtMost(s, key, key(s[0]))
  {
    forall i | 0 <= i < |s| ensures key(s[i]) <= key(s[0]) {
      if i > 0 {
        assert key(s[0]) >= key(s[i]);
      }
    }
  }

  /** `Filter` peels off the first element. */
  lemma {:induction false} FilterCons<T(!new)>(y: T, s: seq<T>, p: T -> bool)
    ensures Filter([y] + s, p) == (if p(y) then [y] else []) + Filter(s, p)
  {
    assert ([y] + s)[0] == y && ([y] + s)[1..] == s;
  }

  /** The case where `x` goes in front. */
  lemma {:induction false} FilterInsertFront<T(!new)>(x: T, s: seq<T>, key: T -> real, p: T -> bool)
    requires SortedDesc(s, key)
    requires |s| == 0 || key(x) >= key(s[0])
    ensures Filter(Insert(x, s, key), p) == if p(x) then Insert(x, Filter(s, p), key) else Filter(s, p)
  {
    FilterCons(x, s, p);
    if p(x) && |s| > 0 {
      HeadBounds(s, key);
      FilterKeysAtMost(s, key, key(s[0]), p);
      InsertInFront(x, Filter(s, p), key);
    }
  }

  lemma {:induction false} SortedTail<T>(s: seq<T>, key: T -> real)
    requires SortedDesc(s, key) && |s| > 0
    ensures SortedDesc(s[1..], key)
  {
    forall i, j | 0 <= i < j < |s| - 1 ensures key(s[1..][i]) >= key(s[1..][j]) {
      assert s[1..][i] == s[i + 1] && s[1..][j] == s[j + 1];
    }
  }

  /** An element that ranks below the head goes behind it. */
  lemma {:induction false} InsertBehind<T(!new)>(x: T, y: T, s: seq<T>, key: T -> real)
    requires key(x) < key(y)
    ensures Insert(x, [y] + s, key) == [y] + Insert(x, s, key)
  {
    assert ([y] + s)[0] == y && ([y] + s)[1..] == s;
  }

  /** Filtering commutes with inserting into a descending sequence. */
  lemma {:induction false} FilterInsert<T(!new)>(x: T, s: seq<T>, key: T -> real, p: T -> bool)
    requires SortedDesc(s, key)
    ensures Filter(Insert(x, s, key), p) == if p(x) then Insert(x, Filter(s, p), key) else Filter(s, p)
  {
    if |s| == 0 || key(x) >= key(s[0]) {
      FilterInsertFront(x, s, key, p);
    } else {
      var y, rest := s[0], s[1..];
      assert s == [y] + rest;
      var t := Insert(x, rest, key);
      var f := Filter(rest, p);
      InsertBehind(x, y, rest, key);
      SortedTail(s, key);
      FilterCons(y, t, p);
      FilterCons(y, rest, p);
      FilterInsert(x, rest, key, p);
      assert Insert(x, s, key) == [y] + t;
      if !p(x) {
        assert Filter(t, p) == f;
        if p(y) {
          assert Filter(Insert(x, s, key), p) == [y] + f == Filter(s, p);
        } else {
          assert Filter(Insert(x, s, key), p) == f == Filter(s, p);
        }
      } else if !p(y) {
        assert Filter(Insert(x, s, key), p) == Filter(t, p) == Insert(x, f, key);
        assert Filter(s, p) == f;
      } else {
        assert Filter(Insert(x, s, key), p) == [y] + Filter(t, p) == [y] + Insert(x, f, key);
        InsertBehind(x, y, f, key);
        assert Filter(s, p) == [y] + f;
      }
    }
  }

  /**
   * Sorting then filtering is filtering then sorting: the customers of one
   * area come out of the global sort in the order a sort of just that area
   * would give them.
   */
  lemma {:induction false} FilterSortDesc<T(!new)>(s: seq<T>, key: T -> real, p: T -> bool)
    ensures Filter(SortDesc(s, key), p) == SortDesc(Filter(s, p), key)
  {
    if |s| > 0 {
      var y, rest := s[0], s[1..];
      assert s == [y] + rest;
      var sorted := SortDesc(rest, key);
      var f := Filter(rest, p);
      SortDescSorted(rest, key);
      SortDescCons(y, rest, key);
      FilterSortDesc(rest, key, p);
      FilterInsert(y, sorted, key, p);
      FilterCons(y, rest, p);
      if p(y) {
        SortDescCons(y, f, key);
        assert Filter(s, p) == [y] + f;
        assert Filter(SortDesc(s, key), p) == Insert(y, SortDesc(f, key), key);
      } else {
        assert Filter(s, p) == f;
        assert Filter(SortDesc(s, key), p) == SortDesc(f, key);
      }
    }
  }

  /** A sequence whose keys are all equal is already sorted and stays as it is. */
  lemma {:induction false} SortDescSameKey<T(!new)>(s: seq<T>, key: T -> real, k: real)
    requires forall i :: 0 <= i < |s| ==> key(s[i]) == k
    ensures SortDesc(s, key) == s
  {
    if |s| > 0 {
      SortDescSameKey(s[1..], key, k);
      InsertInFront(s[0], s[1..], key);
    }
  }

  /** Stability: within every key the sort keeps the original order. */
  lemma {:induction false} SortDescStable<T(!new)>(s: seq<T>, key: T -> real, k: real)
    ensures KeyClass(SortDesc(s, key), key, k) == KeyClass(s, key, k)
  {
    FilterSortDesc(s, key, HasKey(key, k));
    SortDescSameKey(Filter(s, HasKey(key, k)), key, k);
  }

  /** The head's key class is not empty. */
  lemma {:induction false} HeadHasClass<T(!new)>(s: seq<T>, key: T -> real)
    requires |s| > 0
    ensures KeyClass(s, key, key(s[0])) != []
  {
    assert s == [s[0]] + s[1..];
    FilterCons(s[0], s[1..], HasKey(key, key(s[0])));
  }

  /**
   * Two descending sequences that agree on the order within every key are
   * equal: a stable descending order is unique.
   */
  lemma {:induction false} SortedUnique<T(!new)>(a: seq<T>, b: seq<T>, key: T -> real)
    requires SortedDesc(a, key) && SortedDesc(b, key)
    requires forall k :: KeyClass(a, key, k) == KeyClass(b, key, k)
    ensures a == b
    decreases |a|
  {
    if |a| == 0 && |b| == 0 {
    } else if |a| == 0 {
      HeadHasClass(b, key);
      assert false;
    } else if |b| == 0 {
      HeadHasClass(a, key);
      assert false;
    } else {
      var ka, kb := key(a[0]), key(b[0]);
      assert a == [a[0]] + a[1..] && b == [b[0]] + b[1..];
      FilterCons(a[0], a[1..], HasKey(key, ka));
      FilterCons(b[0], b[1..], HasKey(key, kb));
      assert a[0] in KeyClass(b, key, ka);
      FilterMember(b, HasKey(key, ka), a[0]);
      HeadBounds(b, key);
      assert ka <= kb;
      assert b[0] in KeyClass(a, key, kb);
      FilterMember(a, HasKey(key, kb), b[0]);
      HeadBounds(a, key);
      assert kb <= ka;
      assert KeyClass(a, key, ka)[0] == a[0];
      assert KeyClass(b, key, ka)[0] == b[0];
      assert a[0] == b[0];
      forall k ensures KeyClass(a[1..], key, k) == KeyClass(b[1..], key, k) {
        FilterCons(a[0], a[1..], HasKey(key, k));
        FilterCons(b[0], b[1..], HasKey(key, k));
        assert KeyClass(a, key, k) == KeyClass(b, key, k);
        if k == ka {
          assert KeyClass(a, key, k) == [a[0]] + KeyClass(a[1..], key, k);
          assert KeyClass(b, key, k) == [a[0]] + KeyClass(b[1..], key, k);
          assert ([a[0]] + KeyClass(a[1..], key, k))[1..] == KeyClass(a[1..], key, k);
          assert ([a[0]] + KeyClass(b[1..], key, k))[1..] == KeyClass(b[1..], key, k);
        } else {
          assert KeyClass(a, key, k) == KeyClass(a[1..], key, k);
          assert KeyClass(b, key, k) == KeyClass(b[1..], key, k);
        }
      }
      SortedTail(a, key);
      SortedTail(b, key);
      SortedUnique(a[1..], b[1..], key);
    }
  }

  /**
   * `SortDesc(s)` is exactly the sequence that is descending and keeps,
   * for every key, the elements of that key in their order in `s`.
   */
  lemma {:induction false} SortDescCharacterized<T(!new)>(s: seq<T>, out: seq<T>, key: T -> real)
    ensures (SortedDesc(out, key) && forall k :: KeyClass(out, key, k) == KeyClass(s, key, k))
            <==> out == SortDesc(s, key)
  {
    if out == SortDesc(s, key) {
      SortDescSorted(s, key);
      forall k ensures KeyClass(out, key, k) == KeyClass(s, key, k) {
        SortDescStable(s, key, k);
      }
    }
    if SortedDesc(out, key) && forall k :: KeyClass(out, key, k) == KeyClass(s, key, k) {
      forall k ensures KeyClass(out, key, k) == KeyClass(SortDesc(s, key), key, k) {
        SortDescStable(s, key, k);
      }
      SortDescSorted(s, key);
      SortedUnique(out, SortDesc(s, key), key);
    }
  }
}
