/**
 * The grouping vocabulary shared by every aggregation: how often a value
 * occurs (the size of a pandas group), the distinct values in order of
 * first appearance, sums of counts, and a descending sort by a key (what
 * sort_values(..., ascending=False) and value_counts() do).
 */
module Counting {
  import opened Wrappers
  import opened Text

  /** No element occurs twice. */
  ghost predicate Distinct<T(!new)>(s: seq<T>)
  {
    forall x :: multiset(s)[x] <= 1
  }

  lemma DistinctIndices<T(!new)>(s: seq<T>, i: int, j: int)
    requires Distinct(s) && 0 <= i < j < |s|
    ensures s[i] != s[j]
  {
    assert s == s[..j] + s[j..];
    assert multiset(s) == multiset(s[..j]) + multiset(s[j..]);
    assert s[i] in multiset(s[..j]);
    assert s[j] in multiset(s[j..]);
    assert multiset(s)[s[j]] >= multiset(s[..j])[s[j]] + 1;
  }

  function Sum(s: seq<nat>): nat
  {
    if s == [] then 0 else s[0] + Sum(s[1..])
  }

  lemma {:induction false} SumBound(s: seq<nat>, i: int)
    requires 0 <= i < |s|
    ensures s[i] <= Sum(s)
  {
    if i > 0 {
      SumBound(s[1..], i - 1);
    }
  }

  /** One count per key: how often each key occurs in xs. */
  function CountsFor<T(==,!new)>(keys: seq<T>, xs: seq<T>): (r: seq<nat>)
    ensures |r| == |keys|
    ensures forall i :: 0 <= i < |keys| ==> r[i] == multiset(xs)[keys[i]]
  {
    if keys == [] then [] else [multiset(xs)[keys[0]]] + CountsFor(keys[1..], xs)
  }

  lemma {:induction false} CountsStep<T(!new)>(keys: seq<T>, xs: seq<T>, x: T)
    requires Distinct(keys)
    ensures Sum(CountsFor(keys, xs + [x])) == Sum(CountsFor(keys, xs)) + (if x in keys then 1 else 0)
  {
    if keys != [] {
      var tail := keys[1..];
      assert keys == [keys[0]] + tail;
      assert multiset(keys) == multiset{keys[0]} + multiset(tail);
      forall y ensures multiset(tail)[y] <= 1 {
        assert multiset(keys)[y] <= 1;
      }
      assert keys[0] !in tail by {
        assert multiset(keys)[keys[0]] <= 1;
      }
      CountsStep(tail, xs, x);
      assert x in keys <==> x == keys[0] || x in tail;
    }
  }

  /**
   * Counting every value of xs under a list of distinct keys that covers
   * them accounts for every element exactly once.
   */
  lemma {:induction false} SumOfCounts<T(!new)>(keys: seq<T>, xs: seq<T>)
    requires Distinct(keys)
    requires forall x :: x in xs ==> x in keys
    ensures Sum(CountsFor(keys, xs)) == |xs|
    decreases |xs|
  {
    if xs == [] {
      SumOfNoCounts(keys, xs);
    } else {
      var init := xs[..|xs| - 1];
      assert xs == init + [xs[|xs| - 1]];
      SumOfCounts(keys, init);
      CountsStep(keys, init, xs[|xs| - 1]);
    }
  }

  lemma {:induction false} SumOfNoCounts<T(!new)>(keys: seq<T>, xs: seq<T>)
    requires xs == []
    ensures Sum(CountsFor(keys, xs)) == 0
  {
    if keys != [] {
      SumOfNoCounts(keys[1..], xs);
    }
  }

  /** The distinct values of s, in order of first appearance. */
  function Dedup<T(==,!new)>(s: seq<T>): (r: seq<T>)
    ensures forall x :: x in r <==> x in s
    ensures Distinct(r)
  {
    if s == [] then []
    else
      var init := s[..|s| - 1];
      var d := Dedup(init);
      assert s == init + [s[|s| - 1]];
      if s[|s| - 1] in d then d else d + [s[|s| - 1]]
  }

  // ---------------------------------------------------------------------------
  // Descending sort by an integer key

  predicate SortedDesc<T>(s: seq<T>, key: T -> int)
  {
    forall i, j :: 0 <= i < j < |s| ==> key(s[i]) >= key(s[j])
  }

  /** Inserts x after every element whose key is at least x's. */
  function Insert<T>(x: T, s: seq<T>, key: T -> int): (r: seq<T>)
    requires SortedDesc(s, key)
    ensures |r| == |s| + 1
    ensures multiset(r) == multiset(s) + multiset{x}
    ensures SortedDesc(r, key)
    ensures r[0] == x || (|s| > 0 && r[0] == s[0])
  {
    if s == [] then [x]
    else if key(x) > key(s[0]) then
      ConsSorted(x, s, key);
      [x] + s
    else
      var rest := Insert(x, s[1..], key);
      assert s == [s[0]] + s[1..];
      ConsSorted(s[0], rest, key);
      [s[0]] + rest
  }

  lemma ConsSorted<T>(a: T, s: seq<T>, key: T -> int)
    requires SortedDesc(s, key) && (|s| > 0 ==> key(a) >= key(s[0]))
    ensures SortedDesc([a] + s, key)
  {
    var r := [a] + s;
    forall i, j | 0 <= i < j < |r| ensures key(r[i]) >= key(r[j]) {
      if i == 0 && j > 1 {
        assert key(s[0]) >= key(s[j - 1]);
      }
    }
  }

  /** A stable insertion sort, largest key first. */
  function SortDesc<T>(s: seq<T>, key: T -> int): (r: seq<T>)
    ensures |r| == |s|
    ensures multiset(r) == multiset(s)
    ensures SortedDesc(r, key)
  {
    if s == [] then []
    else
      var init := s[..|s| - 1];
      assert s == init + [s[|s| - 1]];
      Insert(s[|s| - 1], SortDesc(init, key), key)
  }

  // ---------------------------------------------------------------------------
  // value_counts()

  function Second<T>(p: (T, nat)): int
  {
    p.1
  }

  function Keys<K, V>(r: seq<(K, V)>): (ks: seq<K>)
    ensures |ks| == |r| && forall i :: 0 <= i < |r| ==> ks[i] == r[i].0
  {
    seq(|r|, i requires 0 <= i < |r| => r[i].0)
  }

  function Seconds<K, V>(r: seq<(K, V)>): (ns: seq<V>)
    ensures |ns| == |r| && forall i :: 0 <= i < |r| ==> ns[i] == r[i].1
  {
    seq(|r|, i requires 0 <= i < |r| => r[i].1)
  }

  /**
   * pandas' value_counts(): one (value, count) pair per distinct value, the
   * most frequent first. The order among equal counts is not specified.
   */
  function ValueCounts<T(==,!new)>(xs: seq<T>): (r: seq<(T, nat)>)
    ensures SortedDesc(r, Second)
    ensures forall i :: 0 <= i < |r| ==> r[i].1 == multiset(xs)[r[i].0] && r[i].1 > 0
    ensures forall x :: x in xs <==> x in Keys(r)
    ensures Distinct(Keys(r))
    ensures Sum(Seconds(r)) == |xs|
  {
    var keys := SortDesc(Dedup(xs), k => multiset(xs)[k] as int);
    var r := PairWithCounts(keys, xs);
    ValueCountsFacts(xs, keys, r);
    r
  }

  lemma ValueCountsFacts<T(!new)>(xs: seq<T>, keys: seq<T>, r: seq<(T, nat)>)
    requires multiset(keys) == multiset(Dedup(xs))
    requires SortedDesc(keys, k => multiset(xs)[k] as int)
    requires |r| == |keys| && Keys(r) == keys
    requires forall i :: 0 <= i < |r| ==> r[i] == (keys[i], multiset(xs)[keys[i]])
    ensures SortedDesc(r, Second)
    ensures forall i :: 0 <= i < |r| ==> r[i].1 == multiset(xs)[r[i].0] && r[i].1 > 0
    ensures forall x :: x in xs <==> x in Keys(r)
    ensures Distinct(Keys(r))
    ensures Sum(Seconds(r)) == |xs|
  {
    SortedKeysAreDistinct(Dedup(xs), keys);
    ValueCountsOrder(xs, keys, r);
    forall i | 0 <= i < |r| ensures r[i].1 > 0 {
      assert keys[i] in xs;
    }
    ValueCountsSum(xs, keys, r);
  }

  lemma ValueCountsOrder<T(!new)>(xs: seq<T>, keys: seq<T>, r: seq<(T, nat)>)
    requires SortedDesc(keys, k => multiset(xs)[k] as int)
    requires |r| == |keys|
    requires forall i :: 0 <= i < |r| ==> r[i] == (keys[i], multiset(xs)[keys[i]])
    ensures SortedDesc(r, Second)
  {
    forall i, j | 0 <= i < j < |r| ensures Second(r[i]) >= Second(r[j]) {
      assert (k => multiset(xs)[k] as int)(keys[i]) >= (k => multiset(xs)[k] as int)(keys[j]);
    }
  }

  lemma ValueCountsSum<T(!new)>(xs: seq<T>, keys: seq<T>, r: seq<(T, nat)>)
    requires Distinct(keys) && forall x :: x in xs ==> x in keys
    requires |r| == |keys|
    requires forall i :: 0 <= i < |r| ==> r[i] == (keys[i], multiset(xs)[keys[i]])
    ensures Sum(Seconds(r)) == |xs|
  {
    assert Seconds(r) == CountsFor(keys, xs);
    SumOfCounts(keys, xs);
  }

  function PairWithCounts<T(==,!new)>(keys: seq<T>, xs: seq<T>): (r: seq<(T, nat)>)
    ensures |r| == |keys| && Keys(r) == keys
    ensures forall i :: 0 <= i < |r| ==> r[i] == (keys[i], multiset(xs)[keys[i]])
  {
    var r := seq(|keys|, i requires 0 <= i < |keys| => (keys[i], multiset(xs)[keys[i]]));
    assert Keys(r) == keys;
    r
  }

  /** A reordering of distinct keys has the same keys and stays distinct. */
  lemma SortedKeysAreDistinct<T(!new)>(keys: seq<T>, sorted: seq<T>)
    requires Distinct(keys) && multiset(sorted) == multiset(keys)
    ensures Distinct(sorted)
    ensures forall x :: x in sorted <==> x in keys
  {
    forall x ensures x in sorted <==> x in keys {
      assert x in sorted <==> x in multiset(sorted);
      assert x in keys <==> x in multiset(keys);
    }
  }

  /** The first pair of value_counts() holds a most frequent value. */
  lemma ValueCountsHeadIsMax<T(!new)>(xs: seq<T>, x: T)
    requires |xs| > 0
    ensures |ValueCounts(xs)| > 0
    ensures multiset(xs)[x] <= ValueCounts(xs)[0].1
  {
    var r := ValueCounts(xs);
    assert xs[0] in Keys(r);
    if x in xs {
      assert x in Keys(r);
      var i :| 0 <= i < |r| && Keys(r)[i] == x;
      assert Second(r[0]) >= Second(r[i]) || i == 0;
    }
  }

  /**
   * value_counts().head(n): every value left out is no more frequent than
   * any value kept.
   */
  lemma ValueCountsHead<T(!new)>(xs: seq<T>, n: nat, x: T, i: int)
    requires 0 <= i < Min(n, |ValueCounts(xs)|)
    requires x !in Keys(ValueCounts(xs)[..Min(n, |ValueCounts(xs)|)])
    ensures multiset(xs)[x] <= ValueCounts(xs)[i].1
  {
    var r := ValueCounts(xs);
    var m := Min(n, |r|);
    var kept := Keys(r[..m]);
    assert forall k :: 0 <= k < m ==> kept[k] == Keys(r)[k];
    if x in xs {
      assert x in Keys(r);
      var j :| 0 <= j < |r| && Keys(r)[j] == x;
      assert j >= m;
      assert SortedDesc(r, Second);
      assert Second(r[i]) >= Second(r[j]);
    }
  }

  function Min(a: int, b: int): int
  {
    if a <= b then a else b
  }

  // ---------------------------------------------------------------------------
  // Boolean-mask selection: df[mask]

  /** The elements of s that satisfy p, in their original order. */
  function Filter<T(==,!new)>(s: seq<T>, p: T -> bool): (r: seq<T>)
    ensures |r| <= |s|
    ensures forall x :: multiset(r)[x] == if p(x) then multiset(s)[x] else 0
    ensures forall x :: x in r <==> x in s && p(x)
  {
    if s == [] then []
    else
      var init := s[..|s| - 1];
      var last := s[|s| - 1];
      assert s == init + [last];
      var f := Filter(init, p);
      var r := if p(last) then f + [last] else f;
      assert forall x :: x in r <==> x in multiset(r);
      assert forall x :: x in s <==> x in multiset(s);
      r
  }

  /** The values of the cells that are not missing, in order (dropna()). */
  function Present<T(==,!new)>(xs: seq<Option<T>>): (r: seq<T>)
    ensures |r| <= |xs|
    ensures forall x :: multiset(r)[x] == multiset(xs)[Some(x)]
    ensures forall x :: x in r <==> Some(x) in xs
  {
    if xs == [] then []
    else
      var init := xs[..|xs| - 1];
      var last := xs[|xs| - 1];
      assert xs == init + [last];
      var p := Present(init);
      var r := if last.Some? then p + [last.value] else p;
      assert forall x :: x in r <==> x in multiset(r);
      assert forall x :: Some(x) in xs <==> Some(x) in multiset(xs);
      r
  }

  /** Pairwise different elements occur once each. */
  lemma {:induction false} DistinctFromPairwise<T(!new)>(s: seq<T>)
    requires forall i, j :: 0 <= i < j < |s| ==> s[i] != s[j]
    ensures Distinct(s)
  {
    if s != [] {
      var init := s[..|s| - 1];
      DistinctFromPairwise(init);
      assert s == init + [s[|s| - 1]];
      assert s[|s| - 1] !in init;
      forall x ensures multiset(s)[x] <= 1 {
        assert multiset(s)[x] == multiset(init)[x] + multiset([s[|s| - 1]])[x];
      }
    }
  }

  /** Two duplicate-free sequences with the same elements have the same length. */
  lemma DistinctSameElements<T(!new)>(a: seq<T>, b: seq<T>)
    requires Distinct(a) && Distinct(b)
    requires forall x :: x in a <==> x in b
    ensures multiset(a) == multiset(b)
    ensures |a| == |b|
  {
    forall x ensures multiset(a)[x] == multiset(b)[x] {
      if x in a {
        assert multiset(a)[x] == 1 && multiset(b)[x] == 1;
      }
    }
    assert multiset(a) == multiset(b);
    assert |multiset(a)| == |multiset(b)|;
  }

  /**
   * nunique(): the number of different values; every duplicate-free
   * listing of exactly those values has this length.
   */
  function NUnique<T(==,!new)>(xs: seq<T>): (n: nat)
    ensures n <= |xs|
    ensures n == 0 <==> |xs| == 0
    ensures forall d :: Distinct(d) && (forall x :: x in d <==> x in xs) ==> |d| == n
  {
    var d := Dedup(xs);
    forall e | Distinct(e) && (forall x :: x in e <==> x in xs) ensures |e| == |d| {
      DistinctSameElements(e, d);
    }
    DistinctAtMost(d, xs);
    assert |xs| > 0 ==> xs[0] in d;
    |d|
  }

  /** A prefix of a duplicate-free sequence is duplicate-free. */
  lemma DistinctPrefix<T(!new)>(s: seq<T>, n: nat)
    requires Distinct(s) && n <= |s|
    ensures Distinct(s[..n])
  {
    assert s == s[..n] + s[n..];
    assert multiset(s) == multiset(s[..n]) + multiset(s[n..]);
    forall x ensures multiset(s[..n])[x] <= 1 {
      assert multiset(s[..n])[x] <= multiset(s)[x];
    }
  }

  /** A duplicate-free sequence of elements of xs is no longer than xs. */
  lemma DistinctAtMost<T(!new)>(d: seq<T>, xs: seq<T>)
    requires Distinct(d) && forall x :: x in d ==> x in xs
    ensures |d| <= |xs|
  {
    forall x ensures multiset(d)[x] <= multiset(xs)[x] {
      if x in d {
        assert x in multiset(xs);
      }
    }
    assert multiset(d) <= multiset(xs);
    assert multiset(xs) == multiset(d) + (multiset(xs) - multiset(d));
  }

  /** Sorted strings that are all different are strictly ascending. */
  lemma StrictlyAscending(gs: seq<string>)
    requires StrSorted(gs) && Distinct(gs)
    ensures forall i, j :: 0 <= i < j < |gs| ==> StrLt(gs[i], gs[j])
  {
    forall i, j | 0 <= i < j < |gs| ensures StrLt(gs[i], gs[j]) {
      DistinctIndices(gs, i, j);
      StrLtTotal(gs[i], gs[j]);
    }
  }
}
