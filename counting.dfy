/**
  Python's `collections.Counter` over a list, `most_common(n)` and
  `sorted` on integers.  A Counter lists its keys in first-seen order, and
  `most_common(n)` is documented as `sorted(items, key=count, reverse=True)[:n]`,
  a stable sort: equal counts keep first-seen order.
*/
module Counting {
  import opened Strings

  function Count<T(==)>(s: seq<T>, x: T): nat {
    if s == [] then 0 else Count(s[..|s| - 1], x) + (if s[|s| - 1] == x then 1 else 0)
  }

  lemma {:induction false} CountAppend<T>(a: seq<T>, b: seq<T>, x: T)
    ensures Count(a + b, x) == Count(a, x) + Count(b, x)
    decreases |b|
  {
    if b == [] {
      assert a + b == a;
    } else {
      assert (a + b)[..|a + b| - 1] == a + b[..|b| - 1];
      CountAppend(a, b[..|b| - 1], x);
    }
  }

  lemma {:induction false} CountPositive<T>(s: seq<T>, x: T)
    ensures Count(s, x) > 0 <==> x in s
  {
    if s != [] {
      CountPositive(s[..|s| - 1], x);
      assert s == s[..|s| - 1] + [s[|s| - 1]];
    }
  }

  predicate NoDuplicates<T(==)>(s: seq<T>) {
    forall i, j :: 0 <= i < j < |s| ==> s[i] != s[j]
  }

  /** The distinct elements of `s`, in order of first occurrence (the keys of `Counter(s)`). */
  function Distinct<T(==)>(s: seq<T>): (d: seq<T>)
    ensures forall k :: 0 <= k < |d| ==> d[k] in s
    ensures forall k :: 0 <= k < |s| ==> s[k] in d
    ensures NoDuplicates(d)
    ensures |d| <= |s|
  {
    if s == [] then []
    else
      var d := Distinct(s[..|s| - 1]);
      var x := s[|s| - 1];
      if x in d then d else d + [x]
  }

  /** No element is lost exactly when no element repeats. */
  lemma {:induction false} DistinctAllUnique<T>(s: seq<T>)
    ensures |Distinct(s)| == |s| <==> NoDuplicates(s)
  {
    if s != [] {
      var p := s[..|s| - 1];
      var x := s[|s| - 1];
      DistinctAllUnique(p);
      if NoDuplicates(s) {
        assert NoDuplicates(p) by {
          forall i, j | 0 <= i < j < |p| ensures p[i] != p[j] { assert p[i] == s[i] && p[j] == s[j]; }
        }
        assert x !in p;
      }
      if |Distinct(s)| == |s| {
        assert x !in Distinct(p);
        forall i, j | 0 <= i < j < |s| ensures s[i] != s[j] {
          if j < |s| - 1 {
            assert s[i] == p[i] && s[j] == p[j];
          } else {
            assert s[i] == p[i];
          }
        }
      }
    }
  }

  /** Without repeats, the distinct elements are the sequence itself. */
  lemma {:induction false} DistinctOfUnique<T>(s: seq<T>)
    requires NoDuplicates(s)
    ensures Distinct(s) == s
  {
    if s != [] {
      var p := s[..|s| - 1];
      assert NoDuplicates(p) by {
        forall i, j | 0 <= i < j < |p| ensures p[i] != p[j] { assert p[i] == s[i] && p[j] == s[j]; }
      }
      DistinctOfUnique(p);
      assert s[|s| - 1] !in p;
      assert s == p + [s[|s| - 1]];
    }
  }

  /** `Counter(s).items()`: each distinct element with its number of occurrences, first-seen order. */
  function Counter<T(==)>(s: seq<T>): (c: seq<(T, nat)>)
    ensures |c| == |Distinct(s)|
    ensures forall k :: 0 <= k < |c| ==> c[k].0 == Distinct(s)[k] && c[k].1 == Count(s, c[k].0)
  {
    var d := Distinct(s);
    seq(|d|, k requires 0 <= k < |d| => (d[k], Count(s, d[k])))
  }

  function Keys<T>(c: seq<(T, nat)>): (ks: seq<T>)
    ensures |ks| == |c| && forall k :: 0 <= k < |c| ==> ks[k] == c[k].0
  {
    if c == [] then [] else [c[0].0] + Keys(c[1..])
  }

  predicate NonIncreasing<T>(c: seq<(T, nat)>) {
    forall i, j :: 0 <= i < j < |c| ==> c[i].1 >= c[j].1
  }

  /** The entries of `c` whose count is `n`, in the order of `c`. */
  function WithCount<T>(c: seq<(T, nat)>, n: nat): seq<(T, nat)> {
    if c == [] then [] else (if c[0].1 == n then [c[0]] else []) + WithCount(c[1..], n)
  }

  /** Puts `x` before the first entry whose count is not larger than its own. */
  function InsertByCount<T>(x: (T, nat), l: seq<(T, nat)>): seq<(T, nat)> {
    if l == [] || x.1 >= l[0].1 then [x] + l else [l[0]] + InsertByCount(x, l[1..])
  }

  /** `sorted(c, key=count, reverse=True)`: insertion sort, stable. */
  function SortByCount<T>(c: seq<(T, nat)>): seq<(T, nat)> {
    if c == [] then [] else InsertByCount(c[0], SortByCount(c[1..]))
  }

  lemma {:induction false} InsertByCountPermutes<T>(x: (T, nat), l: seq<(T, nat)>)
    ensures multiset(InsertByCount(x, l)) == multiset(l) + multiset{x}
  {
    if !(l == [] || x.1 >= l[0].1) {
      InsertByCountPermutes(x, l[1..]);
      assert l == [l[0]] + l[1..];
    }
  }

  lemma {:induction false} InsertByCountSorted<T>(x: (T, nat), l: seq<(T, nat)>)
    requires NonIncreasing(l)
    ensures NonIncreasing(InsertByCount(x, l))
  {
    if !(l == [] || x.1 >= l[0].1) {
      var t := l[1..];
      InsertByCountSorted(x, t);
      InsertByCountPermutes(x, t);
      var r := [l[0]] + InsertByCount(x, t);
      forall j | 0 < j < |r| ensures r[0].1 >= r[j].1 {
        assert r[j] == InsertByCount(x, t)[j - 1];
        assert r[j] in multiset(t) + multiset{x};
      }
    }
  }

  lemma {:induction false} InsertByCountStable<T>(x: (T, nat), l: seq<(T, nat)>, n: nat)
    ensures WithCount(InsertByCount(x, l), n) == (if x.1 == n then [x] else []) + WithCount(l, n)
  {
    if l == [] || x.1 >= l[0].1 {
      assert ([x] + l)[1..] == l;
    } else {
      var t := l[1..];
      var u := InsertByCount(x, t);
      var r := [l[0]] + u;
      InsertByCountStable(x, t, n);
      assert r[0] == l[0] && r[1..] == u;
      assert WithCount(r, n) == (if l[0].1 == n then [l[0]] else []) + WithCount(u, n);
      assert WithCount(l, n) == (if l[0].1 == n then [l[0]] else []) + WithCount(t, n);
      if x.1 == n {
        assert l[0].1 != n;
      }
    }
  }

  /**
    The sort puts counts in non-increasing order, is a permutation, and is
    stable: the entries with any one count keep their original order.
  */
  lemma {:induction false} SortByCountFacts<T>(c: seq<(T, nat)>)
    ensures NonIncreasing(SortByCount(c))
    ensures multiset(SortByCount(c)) == multiset(c)
    ensures forall n :: WithCount(SortByCount(c), n) == WithCount(c, n)
  {
    if c != [] {
      SortByCountFacts(c[1..]);
      InsertByCountSorted(c[0], SortByCount(c[1..]));
      InsertByCountPermutes(c[0], SortByCount(c[1..]));
      assert c == [c[0]] + c[1..];
      forall n ensures WithCount(SortByCount(c), n) == WithCount(c, n) {
        InsertByCountStable(c[0], SortByCount(c[1..]), n);
      }
    }
  }

  /** `Counter(s).most_common(n)`. */
  function MostCommon<T(==)>(s: seq<T>, n: nat): seq<(T, nat)> {
    Take(SortByCount(Counter(s)), n)
  }

  lemma {:induction false} WithCountPrefix<T>(c: seq<(T, nat)>, k: nat, n: nat)
    requires k <= |c|
    ensures IsPrefixOf(WithCount(c[..k], n), WithCount(c, n))
  {
    if k > 0 {
      assert c[..k][1..] == c[1..][..k - 1];
      WithCountPrefix(c[1..], k - 1, n);
    }
  }

  ghost predicate IsPrefixOf<T>(p: seq<T>, s: seq<T>) {
    |p| <= |s| && s[..|p|] == p
  }

  /** A repeated element occurs at least twice in the multiset. */
  lemma Repeated<T>(s: seq<T>, i: nat, j: nat)
    requires i < j < |s| && s[i] == s[j]
    ensures multiset(s)[s[i]] >= 2
  {
    assert s == s[..j] + [s[j]] + s[j + 1..];
    assert s[i] in multiset(s[..j]) by { assert s[..j][i] == s[i]; }
  }

  /** Without repeats, every element occurs at most once in the multiset. */
  lemma {:induction false} UniqueOnce<T>(s: seq<T>, x: T)
    requires NoDuplicates(s)
    ensures multiset(s)[x] <= 1
  {
    if s != [] {
      var p := s[..|s| - 1];
      assert NoDuplicates(p) by {
        forall i, j | 0 <= i < j < |p| ensures p[i] != p[j] { assert p[i] == s[i] && p[j] == s[j]; }
      }
      UniqueOnce(p, x);
      assert s == p + [s[|s| - 1]];
      assert s[|s| - 1] !in p;
    }
  }

  /** Every entry of `Counter(s)` is an element of `s` with its exact count, and no entry repeats. */
  lemma CounterEntries<T>(s: seq<T>)
    ensures forall e :: e in Counter(s) ==> e.0 in s && e.1 == Count(s, e.0)
    ensures NoDuplicates(Counter(s))
  {
    var c := Counter(s);
    forall i, j | 0 <= i < j < |c| ensures c[i] != c[j] {
      assert c[i].0 == Distinct(s)[i] && c[j].0 == Distinct(s)[j];
    }
  }

  /** The sorted counter is as long as the counter, and `most_common(n)` is a prefix of it. */
  lemma MostCommonPrefix<T>(s: seq<T>, n: nat)
    ensures |SortByCount(Counter(s))| == |Distinct(s)|
    ensures MostCommon(s, n) == SortByCount(Counter(s))[..|MostCommon(s, n)|]
    ensures |MostCommon(s, n)| == if n < |Distinct(s)| then n else |Distinct(s)|
  {
    SortByCountFacts(Counter(s));
    assert |multiset(SortByCount(Counter(s)))| == |multiset(Counter(s))|;
  }

  lemma MostCommonExact<T>(s: seq<T>, n: nat)
    ensures var top := MostCommon(s, n);
      forall k :: 0 <= k < |top| ==> top[k].0 in s && top[k].1 == Count(s, top[k].0)
  {
    var c := Counter(s);
    var l := SortByCount(c);
    var top := MostCommon(s, n);
    MostCommonPrefix(s, n);
    SortByCountFacts(c);
    CounterEntries(s);
    forall k | 0 <= k < |top| ensures top[k].0 in s && top[k].1 == Count(s, top[k].0) {
      assert top[k] == l[k];
      assert l[k] in multiset(c);
    }
  }

  lemma MostCommonUnique<T>(s: seq<T>, n: nat)
    ensures NoDuplicates(Keys(MostCommon(s, n)))
  {
    var c := Counter(s);
    var l := SortByCount(c);
    var top := MostCommon(s, n);
    MostCommonPrefix(s, n);
    MostCommonExact(s, n);
    SortByCountFacts(c);
    CounterEntries(s);
    forall i, j | 0 <= i < j < |top| ensures Keys(top)[i] != Keys(top)[j] {
      if top[i].0 == top[j].0 {
        assert top[i] == l[i] && top[j] == l[j];
        Repeated(l, i, j);
        UniqueOnce(c, l[i]);
      }
    }
  }

  lemma MostCommonOrdered<T>(s: seq<T>, n: nat)
    ensures NonIncreasing(MostCommon(s, n))
    ensures forall m :: IsPrefixOf(WithCount(MostCommon(s, n), m), WithCount(Counter(s), m))
  {
    var l := SortByCount(Counter(s));
    MostCommonPrefix(s, n);
    SortByCountFacts(Counter(s));
    forall m ensures IsPrefixOf(WithCount(MostCommon(s, n), m), WithCount(Counter(s), m)) {
      WithCountPrefix(l, |MostCommon(s, n)|, m);
    }
  }

  lemma MostCommonDominates<T>(s: seq<T>, n: nat, x: T)
    requires x in s && x !in Keys(MostCommon(s, n))
    ensures |MostCommon(s, n)| == n
    ensures n > 0 ==> Count(s, x) <= MostCommon(s, n)[n - 1].1
  {
    var c := Counter(s);
    var l := SortByCount(c);
    var top := MostCommon(s, n);
    MostCommonPrefix(s, n);
    SortByCountFacts(c);
    var d := Distinct(s);
    var j :| 0 <= j < |d| && d[j] == x;
    assert c[j] == (x, Count(s, x));
    assert c[j] in multiset(l);
    var p :| 0 <= p < |l| && l[p] == c[j];
    assert p >= |top|;
    if n > 0 {
      assert top[n - 1] == l[n - 1];
    }
  }

  /**
    `Counter(s).most_common(n)`: at most `n` entries, each an element of `s`
    with its exact count, no element twice, counts non-increasing, entries
    with equal counts in first-seen order, and an element of `s` is left out
    only when `n` entries are listed whose counts are at least its own.
  */
  lemma MostCommonFacts<T>(s: seq<T>, n: nat)
    ensures var top := MostCommon(s, n);
      |top| == (if n < |Distinct(s)| then n else |Distinct(s)|) &&
      (forall k :: 0 <= k < |top| ==> top[k].0 in s && top[k].1 == Count(s, top[k].0)) &&
      NoDuplicates(Keys(top)) &&
      NonIncreasing(top) &&
      (forall m :: IsPrefixOf(WithCount(top, m), WithCount(Counter(s), m)))
    ensures var top := MostCommon(s, n);
      forall x :: x in s && x !in Keys(top) ==> |top| == n && (n > 0 ==> Count(s, x) <= top[n - 1].1)
  {
    MostCommonPrefix(s, n);
    MostCommonExact(s, n);
    MostCommonUnique(s, n);
    MostCommonOrdered(s, n);
    forall x | x in s && x !in Keys(MostCommon(s, n))
      ensures |MostCommon(s, n)| == n && (n > 0 ==> Count(s, x) <= MostCommon(s, n)[n - 1].1)
    {
      MostCommonDominates(s, n, x);
    }
  }

  /** Sorted order for integers. */
  predicate Ascending(s: seq<int>) {
    forall i, j :: 0 <= i < j < |s| ==> s[i] <= s[j]
  }

  function InsertAscending(x: int, l: seq<int>): (r: seq<int>)
    ensures |r| == |l| + 1
  {
    if l == [] || x <= l[0] then [x] + l else [l[0]] + InsertAscending(x, l[1..])
  }

  /** `sorted(xs)` for integers. */
  function SortAscending(xs: seq<int>): (r: seq<int>)
    ensures |r| == |xs|
  {
    if xs == [] then [] else InsertAscending(xs[0], SortAscending(xs[1..]))
  }

  /** How many elements of `xs` are below `m`, and how many above. */
  function CountBelow(xs: seq<int>, m: int): nat {
    if xs == [] then 0 else (if xs[0] < m then 1 else 0) + CountBelow(xs[1..], m)
  }

  function CountAbove(xs: seq<int>, m: int): nat {
    if xs == [] then 0 else (if xs[0] > m then 1 else 0) + CountAbove(xs[1..], m)
  }

  lemma {:induction false} InsertAscendingPermutes(x: int, l: seq<int>)
    ensures multiset(InsertAscending(x, l)) == multiset(l) + multiset{x}
  {
    if !(l == [] || x <= l[0]) {
      InsertAscendingPermutes(x, l[1..]);
      assert l == [l[0]] + l[1..];
    }
  }

  /** Inserting above the head of an ascending list into its tail keeps every element at least the head. */
  lemma InsertAboveHead(x: int, l: seq<int>)
    requires Ascending(l) && l != [] && l[0] < x
    ensures forall j :: 0 <= j < |InsertAscending(x, l[1..])| ==> l[0] <= InsertAscending(x, l[1..])[j]
  {
    var t := l[1..];
    var u := InsertAscending(x, t);
    InsertAscendingPermutes(x, t);
    forall j | 0 <= j < |u| ensures l[0] <= u[j] {
      assert u[j] in multiset(t) + multiset{x};
    }
  }

  lemma {:induction false} InsertAscendingSorted(x: int, l: seq<int>)
    requires Ascending(l)
    ensures Ascending(InsertAscending(x, l))
  {
    if !(l == [] || x <= l[0]) {
      var t := l[1..];
      InsertAscendingSorted(x, t);
      InsertAboveHead(x, l);
      var u := InsertAscending(x, t);
      var r := [l[0]] + u;
      forall i, j | 0 <= i < j < |r| ensures r[i] <= r[j] {
        assert r[j] == u[j - 1];
        if i > 0 {
          assert r[i] == u[i - 1];
        } else {
          assert r[0] == l[0] <= u[j - 1];
        }
      }
    }
  }

  lemma {:induction false} InsertAscendingCounts(x: int, l: seq<int>, m: int)
    ensures CountBelow(InsertAscending(x, l), m) == CountBelow(l, m) + (if x < m then 1 else 0)
    ensures CountAbove(InsertAscending(x, l), m) == CountAbove(l, m) + (if x > m then 1 else 0)
  {
    if l == [] || x <= l[0] {
      assert ([x] + l)[1..] == l;
    } else {
      InsertAscendingCounts(x, l[1..], m);
      assert ([l[0]] + InsertAscending(x, l[1..]))[1..] == InsertAscending(x, l[1..]);
    }
  }

  lemma {:induction false} SortAscendingSorted(xs: seq<int>)
    ensures Ascending(SortAscending(xs))
  {
    if xs != [] {
      SortAscendingSorted(xs[1..]);
      InsertAscendingSorted(xs[0], SortAscending(xs[1..]));
    }
  }

  lemma {:induction false} SortAscendingPermutes(xs: seq<int>)
    ensures multiset(SortAscending(xs)) == multiset(xs)
  {
    if xs != [] {
      SortAscendingPermutes(xs[1..]);
      InsertAscendingPermutes(xs[0], SortAscending(xs[1..]));
      assert xs == [xs[0]] + xs[1..];
    }
  }

  lemma {:induction false} SortAscendingCounts(xs: seq<int>, m: int)
    ensures CountBelow(SortAscending(xs), m) == CountBelow(xs, m)
    ensures CountAbove(SortAscending(xs), m) == CountAbove(xs, m)
  {
    if xs != [] {
      SortAscendingCounts(xs[1..], m);
      InsertAscendingCounts(xs[0], SortAscending(xs[1..]), m);
    }
  }

  /** `sorted(xs)` is ascending, a permutation of `xs`, and has as many elements below and above any value. */
  lemma SortAscendingFacts(xs: seq<int>)
    ensures Ascending(SortAscending(xs))
    ensures multiset(SortAscending(xs)) == multiset(xs)
    ensures forall m :: CountBelow(SortAscending(xs), m) == CountBelow(xs, m)
    ensures forall m :: CountAbove(SortAscending(xs), m) == CountAbove(xs, m)
  {
    SortAscendingSorted(xs);
    SortAscendingPermutes(xs);
    forall m ensures CountBelow(SortAscending(xs), m) == CountBelow(xs, m)
      && CountAbove(SortAscending(xs), m) == CountAbove(xs, m) {
      SortAscendingCounts(xs, m);
    }
  }

  lemma {:induction false} NoneBelow(t: seq<int>, m: int)
    requires forall k :: 0 <= k < |t| ==> t[k] >= m
    ensures CountBelow(t, m) == 0
  {
    if t != [] {
      NoneBelow(t[1..], m);
    }
  }

  lemma {:induction false} NoneAbove(t: seq<int>, m: int)
    requires forall k :: 0 <= k < |t| ==> t[k] <= m
    ensures CountAbove(t, m) == 0
  {
    if t != [] {
      NoneAbove(t[1..], m);
    }
  }

  /** In an ascending sequence, at most `p` elements lie below `t[p]` and at most `|t| - 1 - p` above it. */
  lemma {:induction false} AscendingRanks(t: seq<int>, p: nat)
    requires Ascending(t) && p < |t|
    ensures CountBelow(t, t[p]) <= p
    ensures CountAbove(t, t[p]) <= |t| - 1 - p
  {
    var t' := t[1..];
    assert Ascending(t');
    if p == 0 {
      NoneBelow(t, t[0]);
    } else {
      AscendingRanks(t', p - 1);
      assert t'[p - 1] == t[p];
    }
    if p == |t| - 1 {
      NoneAbove(t, t[p]);
    } else {
      if p > 0 {
        AscendingRanks(t', p - 1);
        assert t'[p - 1] == t[p];
      } else {
        NoneAboveStart(t);
      }
    }
  }

  lemma NoneAboveStart(t: seq<int>)
    requires Ascending(t) && |t| > 0
    ensures CountAbove(t, t[0]) <= |t| - 1
  {
    CountAboveAtMost(t[1..], t[0]);
  }

  lemma {:induction false} CountAboveAtMost(t: seq<int>, m: int)
    ensures CountAbove(t, m) <= |t|
  {
    if t != [] {
      CountAboveAtMost(t[1..], m);
    }
  }
}
