/**
 * Array operations the components use on copies of their inputs: JavaScript's stable
 * comparator `sort`, `slice(0, k)`, `reverse`, and `Array.from(new Set(...))`.
 */
module Seqs {

  predicate NoDuplicates<T(==)>(s: seq<T>) {
    forall i, j :: 0 <= i < j < |s| ==> s[i] != s[j]
  }

  /** `s` is ordered by `key`, largest first. */
  predicate SortedDesc<T>(s: seq<T>, key: T -> real) {
    forall i, j :: 0 <= i < j < |s| ==> key(s[i]) >= key(s[j])
  }

  /**
   * Inserts `x` in front of the first element whose key is not larger, so that of two
   * equal keys the one inserted later (and so earlier in the input) comes first.
   */
  function Insert<T>(x: T, s: seq<T>, key: T -> real): (r: seq<T>)
    ensures |r| == |s| + 1
  {
    if s == [] then [x]
    else if key(x) >= key(s[0]) then [x] + s
    else [s[0]] + Insert(x, s[1..], key)
  }

  /** Inserting adds exactly `x`. */
  lemma {:induction false} InsertMultiset<T>(x: T, s: seq<T>, key: T -> real)
    ensures multiset(Insert(x, s, key)) == multiset(s) + multiset{x}
  {
    if s != [] {
      assert s == [s[0]] + s[1..];
      if !(key(x) >= key(s[0])) {
        InsertMultiset(x, s[1..], key);
      }
    }
  }

  /** Inserting into a sorted sequence keeps it sorted. */
  lemma {:induction false} InsertSorted<T>(x: T, s: seq<T>, key: T -> real)
    requires SortedDesc(s, key)
    ensures SortedDesc(Insert(x, s, key), key)
  {
    if s != [] && !(key(x) >= key(s[0])) {
      var rest := Insert(x, s[1..], key);
      InsertSorted(x, s[1..], key);
      InsertBounded(x, s[1..], key, key(s[0]));
      var r := [s[0]] + rest;
      forall i, j | 0 <= i < j < |r| ensures key(r[i]) >= key(r[j]) {
        assert r[j] == rest[j - 1];
        if i > 0 {
          assert r[i] == rest[i - 1];
        }
      }
    }
  }

  /** A bound on the keys of `x` and of `s` bounds the keys after inserting. */
  lemma {:induction false} InsertBounded<T>(x: T, s: seq<T>, key: T -> real, b: real)
    requires key(x) <= b && forall i :: 0 <= i < |s| ==> key(s[i]) <= b
    ensures forall i :: 0 <= i < |Insert(x, s, key)| ==> key(Insert(x, s, key)[i]) <= b
  {
    var r := Insert(x, s, key);
    if s != [] && !(key(x) >= key(s[0])) {
      var rest := Insert(x, s[1..], key);
      InsertBounded(x, s[1..], key, b);
      forall i | 0 <= i < |r| ensures key(r[i]) <= b {
        if i > 0 {
          assert r[i] == rest[i - 1];
        }
      }
    } else if s != [] {
      forall i | 0 <= i < |r| ensures key(r[i]) <= b {
        if i > 0 {
          assert r[i] == s[i - 1];
        }
      }
    }
  }

  /**
   * `[...s].sort((a, b) => key(b) - key(a))`: a stable sort, largest key first,
   * that leaves its input as it was.
   */
  function SortDesc<T>(s: seq<T>, key: T -> real): (r: seq<T>)
    ensures SortedDesc(r, key)
    ensures multiset(r) == multiset(s)
    ensures |r| == |s|
  {
    if s == [] then []
    else
      var rest := SortDesc(s[1..], key);
      InsertSorted(s[0], rest, key);
      InsertMultiset(s[0], rest, key);
      assert s == [s[0]] + s[1..];
      Insert(s[0], rest, key)
  }

  /** The elements of `s` whose key is `v`, in their order in `s`. */
  function WithKey<T>(s: seq<T>, key: T -> real, v: real): (r: seq<T>)
    ensures |r| <= |s|
  {
    if s == [] then []
    else (if key(s[0]) == v then [s[0]] else []) + WithKey(s[1..], key, v)
  }

  /** Inserting `x` puts it in front of every element with the same key. */
  lemma {:induction false} InsertWithKey<T>(x: T, s: seq<T>, key: T -> real, v: real)
    ensures WithKey(Insert(x, s, key), key, v) == (if key(x) == v then [x] else []) + WithKey(s, key, v)
  {
    if s != [] && !(key(x) >= key(s[0])) {
      InsertWithKey(x, s[1..], key, v);
      assert Insert(x, s, key)[1..] == Insert(x, s[1..], key);
    } else if s != [] {
      assert ([x] + s)[1..] == s;
    }
  }

  /** The sort is stable: elements with equal keys keep their order in the input. */
  lemma {:induction false} SortDescStable<T>(s: seq<T>, key: T -> real, v: real)
    ensures WithKey(SortDesc(s, key), key, v) == WithKey(s, key, v)
  {
    if s != [] {
      SortDescStable(s[1..], key, v);
      InsertWithKey(s[0], SortDesc(s[1..], key), key, v);
    }
  }

  /** `s.slice(0, k)`. */
  function Take<T>(s: seq<T>, k: nat): (r: seq<T>)
    ensures |r| <= k && |r| <= |s|
    ensures |s| <= k ==> r == s
    ensures r == s[..|r|]
  {
    if |s| <= k then s else s[..k]
  }

  /** `s.reverse()`. */
  function Reverse<T>(s: seq<T>): (r: seq<T>)
    ensures |r| == |s|
    ensures forall i :: 0 <= i < |s| ==> r[i] == s[|s| - 1 - i]
  {
    if s == [] then [] else Reverse(s[1..]) + [s[0]]
  }

  /** Position of the first occurrence of `x` in `s`. */
  function FirstIndex<T(==)>(s: seq<T>, x: T): (i: nat)
    requires x in s
    ensures i < |s| && s[i] == x
    ensures forall j :: 0 <= j < i ==> s[j] != x
  {
    if s[0] == x then 0 else 1 + FirstIndex(s[1..], x)
  }

  /** `Array.from(new Set(s))`: each value once, in order of first appearance. */
  function Distinct<T(==)>(s: seq<T>): seq<T>
  {
    if s == [] then []
    else
      var d := Distinct(s[..|s| - 1]);
      if s[|s| - 1] in d then d else d + [s[|s| - 1]]
  }

  /** `Distinct(s)` holds exactly the values of `s`, each once. */
  lemma {:induction false} DistinctMembers<T>(s: seq<T>)
    ensures NoDuplicates(Distinct(s))
    ensures forall x :: x in Distinct(s) <==> x in s
  {
    if s != [] {
      var p, x := s[..|s| - 1], s[|s| - 1];
      DistinctMembers(p);
      assert s == p + [x];
    }
  }

  /** One more value: `Distinct` grows by it exactly when it is new. */
  lemma DistinctSnoc<T>(s: seq<T>, x: T)
    ensures Distinct(s + [x]) == if x in s then Distinct(s) else Distinct(s) + [x]
  {
    DistinctMembers(s);
    assert (s + [x])[..|s + [x]| - 1] == s;
  }

  /** `Distinct(s)` lists its values in the order of their first position in `s`. */
  lemma {:induction false} DistinctOrder<T>(s: seq<T>)
    ensures forall x :: x in Distinct(s) ==> x in s
    ensures forall i, j :: 0 <= i < j < |Distinct(s)| ==>
              FirstIndex(s, Distinct(s)[i]) < FirstIndex(s, Distinct(s)[j])
  {
    DistinctMembers(s);
    if s != [] {
      var p, x := s[..|s| - 1], s[|s| - 1];
      DistinctOrder(p);
      DistinctMembers(p);
      var d := Distinct(p);
      assert s == p + [x];
      forall y | y in p ensures FirstIndex(s, y) == FirstIndex(p, y) {
        FirstIndexPrefix(p, x, y);
      }
      if x !in d {
        assert x !in p;
        assert forall j :: 0 <= j < |p| ==> s[j] != x by {
          forall j | 0 <= j < |p| ensures s[j] != x { assert s[j] == p[j]; }
        }
        FirstIndexUnique(s, x, |p|);
        var d' := Distinct(s);
        assert d' == d + [x];
        forall i, j | 0 <= i < j < |d'|
          ensures FirstIndex(s, d'[i]) < FirstIndex(s, d'[j])
        {
          assert d'[i] == d[i] && d[i] in p;
          if j < |d| {
            assert d'[j] == d[j] && d[j] in p;
          }
        }
      }
    }
  }

  lemma FirstIndexPrefix<T>(p: seq<T>, x: T, y: T)
    requires y in p
    ensures FirstIndex(p + [x], y) == FirstIndex(p, y)
  {
    var i := FirstIndex(p, y);
    var s := p + [x];
    assert s[i] == y;
    assert forall j :: 0 <= j < i ==> s[j] != y by {
      forall j | 0 <= j < i ensures s[j] != y { assert s[j] == p[j]; }
    }
    FirstIndexUnique(s, y, i);
  }

  lemma FirstIndexUnique<T>(s: seq<T>, x: T, i: nat)
    requires i < |s| && s[i] == x
    requires forall j :: 0 <= j < i ==> s[j] != x
    ensures FirstIndex(s, x) == i
  {
  }

  lemma {:induction false} NoDuplicatesCount<T>(s: seq<T>, x: T)
    requires NoDuplicates(s)
    ensures multiset(s)[x] <= 1
  {
    if s != [] {
      NoDuplicatesCount(s[1..], x);
      assert s == [s[0]] + s[1..];
      if s[0] == x {
        assert x !in s[1..];
      }
    }
  }

  /** Reordering a sequence without repeats cannot create one. */
  lemma PermutationKeepsNoDuplicates<T>(s: seq<T>, r: seq<T>)
    requires NoDuplicates(s) && multiset(r) == multiset(s)
    ensures NoDuplicates(r)
  {
    forall i, j | 0 <= i < j < |r| ensures r[i] != r[j] {
      if r[i] == r[j] {
        var x := r[i];
        assert r == r[..i] + [x] + r[i + 1..j] + [x] + r[j + 1..];
        assert multiset(r)[x] >= 2;
        NoDuplicatesCount(s, x);
        assert false;
      }
    }
  }

  /**
   * Keeping the first `k` of a sorted sequence keeps its `k` largest: nothing cut
   * off has a larger key than anything kept.
   */
  lemma TakeKeepsLargest<T>(s: seq<T>, key: T -> real, k: nat)
    requires SortedDesc(s, key)
    ensures SortedDesc(Take(s, k), key)
    ensures forall i, j :: 0 <= i < |Take(s, k)| <= j < |s| ==> key(s[i]) >= key(s[j])
  {
  }

  /** The first `k` after sorting are drawn from the input, and any value left out is outranked by all `k` of them. */
  lemma TopOfSorted<T>(s: seq<T>, key: T -> real, k: nat)
    ensures forall y :: y in Take(SortDesc(s, key), k) ==> y in s
    ensures forall x :: x in s && x !in Take(SortDesc(s, key), k) ==>
              |Take(SortDesc(s, key), k)| == k &&
              forall y :: y in Take(SortDesc(s, key), k) ==> key(y) >= key(x)
  {
    var sorted := SortDesc(s, key);
    var top := Take(sorted, k);
    TakeKeepsLargest(sorted, key, k);
    forall y | y in top ensures y in s {
      assert y in sorted;
      assert y in multiset(sorted);
    }
    forall x | x in s && x !in top
      ensures |top| == k && forall y :: y in top ==> key(y) >= key(x)
    {
      assert x in multiset(sorted);
      var m :| 0 <= m < |sorted| && sorted[m] == x;
      assert m >= |top|;
      forall y | y in top ensures key(y) >= key(x) {
        var i :| 0 <= i < |top| && top[i] == y;
        assert key(sorted[i]) >= key(sorted[m]);
      }
    }
  }

  /** Every value of a permutation is a value of the original, and the reverse. */
  lemma PermutationMembers<T>(s: seq<T>, r: seq<T>)
    requires multiset(r) == multiset(s)
    ensures forall x :: x in r <==> x in s
  {
    forall x ensures x in r <==> x in s {
      assert x in r <==> x in multiset(r);
      assert x in s <==> x in multiset(s);
    }
  }

  /** Reordering values whose keys are all different keeps the keys all different. */
  lemma PermutationKeepsKeysDistinct<T, K>(s: seq<T>, r: seq<T>, keyOf: T -> K)
    requires forall i, j :: 0 <= i < j < |s| ==> keyOf(s[i]) != keyOf(s[j])
    requires multiset(r) == multiset(s)
    ensures forall i, j :: 0 <= i < j < |r| ==> keyOf(r[i]) != keyOf(r[j])
  {
    assert NoDuplicates(s);
    PermutationKeepsNoDuplicates(s, r);
    PermutationMembers(s, r);
    forall i, j | 0 <= i < j < |r| ensures keyOf(r[i]) != keyOf(r[j]) {
      assert r[i] in s && r[j] in s;
      var a :| 0 <= a < |s| && s[a] == r[i];
      var b :| 0 <= b < |s| && s[b] == r[j];
      assert r[i] != r[j];
      if a < b {
        assert keyOf(s[a]) != keyOf(s[b]);
      } else {
        assert keyOf(s[b]) != keyOf(s[a]);
      }
    }
  }

  /** `s.reduce((sum, x) => sum + f(x), 0)`. */
  function SumOf<T>(s: seq<T>, f: T -> int): int {
    if s == [] then 0 else f(s[0]) + SumOf(s[1..], f)
  }

  lemma {:induction false} SumOfAppend<T>(s: seq<T>, x: T, f: T -> int)
    ensures SumOf(s + [x], f) == SumOf(s, f) + f(x)
  {
    if s != [] {
      assert (s + [x])[1..] == s[1..] + [x];
      SumOfAppend(s[1..], x, f);
    }
  }

  /** Changing one element changes the sum by the change in that element. */
  lemma {:induction false} SumOfUpdate<T>(s: seq<T>, k: nat, x: T, f: T -> int)
    requires k < |s|
    ensures SumOf(s[k := x], f) == SumOf(s, f) - f(s[k]) + f(x)
  {
    if k > 0 {
      assert s[k := x][1..] == s[1..][k - 1 := x];
      SumOfUpdate(s[1..], k - 1, x, f);
    }
  }

  lemma {:induction false} SumOfInsert<T>(x: T, s: seq<T>, key: T -> real, f: T -> int)
    requires SortedDesc(s, key)
    ensures SumOf(Insert(x, s, key), f) == f(x) + SumOf(s, f)
  {
    if s != [] && key(x) < key(s[0]) {
      SumOfInsert(x, s[1..], key, f);
    }
  }

  /** Sorting does not change a sum. */
  lemma {:induction false} SumOfSortDesc<T>(s: seq<T>, key: T -> real, f: T -> int)
    ensures SumOf(SortDesc(s, key), f) == SumOf(s, f)
  {
    if s != [] {
      SumOfSortDesc(s[1..], key, f);
      SumOfInsert(s[0], SortDesc(s[1..], key), key, f);
    }
  }

  /** `s.filter(p)`. */
  function Filter<T>(s: seq<T>, p: T -> bool): (r: seq<T>)
    ensures |r| <= |s|
  {
    if s == [] then []
    else (if p(s[0]) then [s[0]] else []) + Filter(s[1..], p)
  }

  /** The kept values are exactly the values of `s` that satisfy `p`, as often as in `s`. */
  lemma {:induction false} FilterCount<T>(s: seq<T>, p: T -> bool, x: T)
    ensures multiset(Filter(s, p))[x] == if p(x) then multiset(s)[x] else 0
  {
    if s != [] {
      FilterCount(s[1..], p, x);
      assert s == [s[0]] + s[1..];
    }
  }

  lemma FilterMembers<T>(s: seq<T>, p: T -> bool)
    ensures forall x :: x in Filter(s, p) <==> x in s && p(x)
  {
    forall x ensures x in Filter(s, p) <==> x in s && p(x) {
      FilterCount(s, p, x);
      assert x in Filter(s, p) <==> x in multiset(Filter(s, p));
      assert x in s <==> x in multiset(s);
    }
  }

  /** Filtering works stretch by stretch, so the kept values keep their order. */
  lemma {:induction false} FilterAppend<T>(a: seq<T>, b: seq<T>, p: T -> bool)
    ensures Filter(a + b, p) == Filter(a, p) + Filter(b, p)
  {
    if a != [] {
      FilterAppend(a[1..], b, p);
      assert (a + b)[1..] == a[1..] + b;
    } else {
      assert a + b == b;
    }
  }

  /** A filter every value passes keeps everything. */
  lemma {:induction false} FilterAll<T>(s: seq<T>, p: T -> bool)
    requires forall x :: x in s ==> p(x)
    ensures Filter(s, p) == s
  {
    if s != [] {
      FilterAll(s[1..], p);
      assert s == [s[0]] + s[1..];
    }
  }

  /** Two filters that agree on every value of `s` keep the same values. */
  lemma {:induction false} FilterEquiv<T>(s: seq<T>, p: T -> bool, q: T -> bool)
    requires forall x :: x in s ==> p(x) == q(x)
    ensures Filter(s, p) == Filter(s, q)
  {
    if s != [] {
      FilterEquiv(s[1..], p, q);
    }
  }
}
