/**
  Sequence vocabulary shared by the table computations: element-wise maps, filters,
  group-by on a key, counting, sums, min/max/mean, the sample variance, the set of
  distinct values, and "sorted unique values" under a strict total order.
  Recursion is on the last element, so that a loop that appends row by row is
  specified by the same functions.
*/
module Seqs {
  import opened Wrappers

  // ---------------------------------------------------------------- maps and filters

  function Map<T, U>(s: seq<T>, f: T -> U): (r: seq<U>)
    ensures |r| == |s|
    ensures forall i :: 0 <= i < |s| ==> r[i] == f(s[i])
  {
    seq(|s|, i requires 0 <= i < |s| => f(s[i]))
  }

  lemma TakeSnoc<T>(s: seq<T>, k: nat)
    requires k < |s|
    ensures s[..k + 1] == s[..k] + [s[k]]
  {
  }

  /** The elements of s that satisfy p, in their original order. */
  function Filter<T(!new)>(s: seq<T>, p: T -> bool): (r: seq<T>)
    ensures |r| <= |s|
    ensures forall x :: x in r <==> x in s && p(x)
  {
    if s == [] then []
    else
      var r := Filter(s[..|s| - 1], p);
      assert s == s[..|s| - 1] + [s[|s| - 1]];
      if p(s[|s| - 1]) then r + [s[|s| - 1]] else r
  }

  /** The rows of s whose key is k: one group of a pandas group-by. */
  function Group<T(!new), K(==)>(s: seq<T>, key: T -> K, k: K): (g: seq<T>)
    ensures |g| <= |s|
    ensures forall x :: x in g <==> x in s && key(x) == k
  {
    Filter(s, x => key(x) == k)
  }

  lemma GroupSnoc<T(!new), K>(s: seq<T>, x: T, key: T -> K, k: K)
    ensures Group(s + [x], key, k) == Group(s, key, k) + (if key(x) == k then [x] else [])
  {
    assert (s + [x])[..|s + [x]| - 1] == s;
  }

  /** Number of occurrences of x in s (a value count). */
  function Count<T(==)>(s: seq<T>, x: T): (n: nat)
    ensures n <= |s|
    ensures n > 0 <==> x in s
  {
    if s == [] then 0
    else
      assert s == s[..|s| - 1] + [s[|s| - 1]];
      Count(s[..|s| - 1], x) + (if s[|s| - 1] == x then 1 else 0)
  }

  lemma CountSnoc<T>(s: seq<T>, y: T, x: T)
    ensures Count(s + [y], x) == Count(s, x) + (if y == x then 1 else 0)
  {
    assert (s + [y])[..|s + [y]| - 1] == s;
  }

  /** Over values drawn from {0, 1, 2}, the three counts add up to the length. */
  lemma {:induction false} CountThree(s: seq<int>)
    requires forall i :: 0 <= i < |s| ==> 0 <= s[i] <= 2
    ensures Count(s, 0) + Count(s, 1) + Count(s, 2) == |s|
  {
    if s != [] {
      var prefix, last := s[..|s| - 1], s[|s| - 1];
      CountThree(prefix);
      assert s == prefix + [last];
      CountSnoc(prefix, last, 0);
      CountSnoc(prefix, last, 1);
      CountSnoc(prefix, last, 2);
    }
  }

  function Id<T>(x: T): T { x }

  /** A value count is the size of that value's group when the rows are grouped by themselves. */
  lemma {:induction false} CountIsGroupSize<T(!new)>(s: seq<T>, x: T)
    ensures Count(s, x) == |Group(s, Id, x)|
  {
    if s != [] {
      var s', y := s[..|s| - 1], s[|s| - 1];
      assert s == s' + [y];
      CountIsGroupSize(s', x);
      CountSnoc(s', y, x);
      GroupSnoc(s', y, Id, x);
    }
  }

  /** Number of elements of s that satisfy p. */
  function CountIf<T(!new)>(s: seq<T>, p: T -> bool): (n: nat)
    ensures n <= |s|
  {
    |Filter(s, p)|
  }

  lemma FilterSnoc<T(!new)>(s: seq<T>, x: T, p: T -> bool)
    ensures Filter(s + [x], p) == Filter(s, p) + (if p(x) then [x] else [])
  {
    assert (s + [x])[..|s + [x]| - 1] == s;
  }

  /** Two predicates that never hold together select at most |s| elements between them. */
  lemma {:induction false} CountIfDisjoint<T(!new)>(s: seq<T>, p: T -> bool, q: T -> bool)
    requires forall x :: x in s ==> !(p(x) && q(x))
    ensures CountIf(s, p) + CountIf(s, q) <= |s|
  {
    if s != [] {
      var s', x := s[..|s| - 1], s[|s| - 1];
      assert s == s' + [x];
      CountIfDisjoint(s', p, q);
      FilterSnoc(s', x, p);
      FilterSnoc(s', x, q);
    }
  }

  /** ... and exactly |s| when one of them holds for every element. */
  lemma {:induction false} CountIfComplement<T(!new)>(s: seq<T>, p: T -> bool, q: T -> bool)
    requires forall x :: x in s ==> (p(x) || q(x)) && !(p(x) && q(x))
    ensures CountIf(s, p) + CountIf(s, q) == |s|
  {
    if s != [] {
      var s', x := s[..|s| - 1], s[|s| - 1];
      assert s == s' + [x];
      CountIfComplement(s', p, q);
      FilterSnoc(s', x, p);
      FilterSnoc(s', x, q);
    }
  }

  // ---------------------------------------------------------------- sums

  function Sum(s: seq<real>): real {
    if s == [] then 0.0 else Sum(s[..|s| - 1]) + s[|s| - 1]
  }

  function SumInt(s: seq<int>): int {
    if s == [] then 0 else SumInt(s[..|s| - 1]) + s[|s| - 1]
  }

  lemma SumSnoc(s: seq<real>, x: real)
    ensures Sum(s + [x]) == Sum(s) + x
  {
    assert (s + [x])[..|s + [x]| - 1] == s;
  }

  lemma SumIntSnoc(s: seq<int>, x: int)
    ensures SumInt(s + [x]) == SumInt(s) + x
  {
    assert (s + [x])[..|s + [x]| - 1] == s;
  }

  /** Every element between lo and hi puts the sum between |s|*lo and |s|*hi. */
  lemma {:induction false} SumBounds(s: seq<real>, lo: real, hi: real)
    requires forall i :: 0 <= i < |s| ==> lo <= s[i] <= hi
    ensures |s| as real * lo <= Sum(s) <= |s| as real * hi
  {
    if s != [] {
      SumBounds(s[..|s| - 1], lo, hi);
      assert |s| as real * lo == (|s| - 1) as real * lo + lo;
      assert |s| as real * hi == (|s| - 1) as real * hi + hi;
    }
  }

  // ---------------------------------------------------------------- min, max, mean, variance

  function Min(s: seq<real>): (m: real)
    requires |s| > 0
    ensures m in s
    ensures forall i :: 0 <= i < |s| ==> m <= s[i]
  {
    if |s| == 1 then s[0]
    else
      var m := Min(s[..|s| - 1]);
      assert s == s[..|s| - 1] + [s[|s| - 1]];
      if s[|s| - 1] < m then s[|s| - 1] else m
  }

  function Max(s: seq<real>): (m: real)
    requires |s| > 0
    ensures m in s
    ensures forall i :: 0 <= i < |s| ==> s[i] <= m
  {
    if |s| == 1 then s[0]
    else
      var m := Max(s[..|s| - 1]);
      assert s == s[..|s| - 1] + [s[|s| - 1]];
      if m < s[|s| - 1] then s[|s| - 1] else m
  }

  function MinInt(s: seq<int>): (m: int)
    requires |s| > 0
    ensures m in s
    ensures forall i :: 0 <= i < |s| ==> m <= s[i]
  {
    if |s| == 1 then s[0]
    else
      var m := MinInt(s[..|s| - 1]);
      assert s == s[..|s| - 1] + [s[|s| - 1]];
      if s[|s| - 1] < m then s[|s| - 1] else m
  }

  function MaxInt(s: seq<int>): (m: int)
    requires |s| > 0
    ensures m in s
    ensures forall i :: 0 <= i < |s| ==> s[i] <= m
  {
    if |s| == 1 then s[0]
    else
      var m := MaxInt(s[..|s| - 1]);
      assert s == s[..|s| - 1] + [s[|s| - 1]];
      if m < s[|s| - 1] then s[|s| - 1] else m
  }

  /** The arithmetic mean of a non-empty sequence. */
  function Mean(s: seq<real>): real
    requires |s| > 0
  {
    Sum(s) / |s| as real
  }

  lemma MeanBetween(s: seq<real>)
    requires |s| > 0
    ensures Min(s) <= Mean(s) <= Max(s)
  {
    MeanWithin(s, Min(s), Max(s));
  }

  lemma DivideBounds(total: real, n: real, lo: real, hi: real)
    requires n > 0.0
    requires n * lo <= total <= n * hi
    ensures lo <= total / n <= hi
  {
    assert (total / n) * n == total;
  }

  /** A mean of values that all lie in [lo, hi] lies in [lo, hi]. */
  lemma MeanWithin(s: seq<real>, lo: real, hi: real)
    requires |s| > 0
    requires forall i :: 0 <= i < |s| ==> lo <= s[i] <= hi
    ensures lo <= Mean(s) <= hi
  {
    SumBounds(s, lo, hi);
    DivideBounds(Sum(s), |s| as real, lo, hi);
  }

  lemma SquareNonnegative(d: real)
    ensures d * d >= 0.0
  {
    if d < 0.0 {
      assert d * d == (-d) * (-d);
    }
  }

  function SquaredDeviations(s: seq<real>, m: real): (r: seq<real>)
    ensures |r| == |s|
    ensures forall i :: 0 <= i < |r| ==> r[i] >= 0.0
  {
    var r := Map(s, x => (x - m) * (x - m));
    assert forall i :: 0 <= i < |r| ==> r[i] >= 0.0 by {
      forall i | 0 <= i < |r| ensures r[i] >= 0.0 {
        SquareNonnegative(s[i] - m);
      }
    }
    r
  }

  /** The sample variance (denominator n - 1, as pandas' std uses); the standard deviation is its square root. */
  function SampleVariance(s: seq<real>): (v: real)
    requires |s| >= 2
    ensures v >= 0.0
  {
    var d := SquaredDeviations(s, Mean(s));
    SumBounds(d, 0.0, Max(d));
    Sum(d) / (|s| - 1) as real
  }

  // ---------------------------------------------------------------- distinct values

  /** The set of values of s; its size is pandas' nunique. */
  function Elements<T>(s: seq<T>): set<T> {
    set x | x in s
  }

  lemma ElementsSnoc<T>(s: seq<T>, x: T)
    ensures Elements(s + [x]) == Elements(s) + {x}
  {
  }

  lemma {:induction false} ElementsCard<T>(s: seq<T>)
    ensures |Elements(s)| <= |s|
  {
    if s != [] {
      var s', x := s[..|s| - 1], s[|s| - 1];
      assert s == s' + [x];
      ElementsCard(s');
      ElementsSnoc(s', x);
    }
  }

  predicate Distinct<T(==)>(s: seq<T>) {
    forall i, j :: 0 <= i < j < |s| ==> s[i] != s[j]
  }

  lemma {:induction false} DistinctElementsCard<T>(s: seq<T>)
    requires Distinct(s)
    ensures |Elements(s)| == |s|
  {
    if s != [] {
      var s', x := s[..|s| - 1], s[|s| - 1];
      assert s == s' + [x];
      assert x !in s';
      DistinctElementsCard(s');
      ElementsSnoc(s', x);
    }
  }

  /** A subset of a finite set is no larger. */
  lemma SubsetCard<T>(a: set<T>, b: set<T>)
    requires a <= b
    ensures |a| <= |b|
  {
    assert b == a + (b - a);
  }

  /** A distinct sequence drawn from a set is no longer than the set. */
  lemma DistinctWithin<T>(s: seq<T>, b: set<T>)
    requires Distinct(s)
    requires forall x :: x in s ==> x in b
    ensures |s| <= |b|
  {
    DistinctElementsCard(s);
    SubsetCard(Elements(s), b);
  }

  // ---------------------------------------------------------------- orders and sorted unique values

  ghost predicate StrictTotalOrder<T(!new)>(less: (T, T) -> bool) {
    && (forall x :: !less(x, x))
    && (forall x, y, z :: less(x, y) && less(y, z) ==> less(x, z))
    && (forall x, y :: x != y ==> less(x, y) || less(y, x))
  }

  predicate Increasing<T>(s: seq<T>, less: (T, T) -> bool) {
    forall i, j :: 0 <= i < j < |s| ==> less(s[i], s[j])
  }

  lemma IncreasingDistinct<T(!new)>(s: seq<T>, less: (T, T) -> bool)
    requires StrictTotalOrder(less)
    requires Increasing(s, less)
    ensures Distinct(s)
  {
  }

  /** Inserts x into an increasing sequence, unless it is already there. */
  function Insert<T(==,!new)>(x: T, r: seq<T>, less: (T, T) -> bool): (r': seq<T>)
    requires StrictTotalOrder(less)
    requires Increasing(r, less)
    ensures Increasing(r', less)
    ensures forall y :: y in r' <==> y == x || y in r
  {
    if r == [] then [x]
    else if x == r[0] then r
    else if less(x, r[0]) then [x] + r
    else
      assert r == [r[0]] + r[1..];
      var t := Insert(x, r[1..], less);
      assert forall y :: y in t ==> less(r[0], y);
      [r[0]] + t
  }

  /** An increasing sequence holds each value at most once: a constant one has at most one element. */
  lemma IncreasingConstant<T(!new)>(s: seq<T>, less: (T, T) -> bool, x: T)
    requires StrictTotalOrder(less) && Increasing(s, less)
    requires forall i :: 0 <= i < |s| ==> s[i] == x
    ensures |s| <= 1
  {
    if |s| > 1 {
      IncreasingPair(s, less, 0, 1);
      assert false;
    }
  }

  lemma IncreasingPair<T>(s: seq<T>, less: (T, T) -> bool, i: nat, j: nat)
    requires Increasing(s, less) && i < j < |s|
    ensures less(s[i], s[j])
  {
  }

  /** The distinct values of s in increasing order (pandas' sorted group keys, sorted(unique)). */
  function SortedDistinct<T(==,!new)>(s: seq<T>, less: (T, T) -> bool): (r: seq<T>)
    requires StrictTotalOrder(less)
    ensures Increasing(r, less)
    ensures forall y :: y in r <==> y in s
  {
    if s == [] then []
    else
      assert s == s[..|s| - 1] + [s[|s| - 1]];
      Insert(s[|s| - 1], SortedDistinct(s[..|s| - 1], less), less)
  }

  predicate IntLess(a: int, b: int) {
    a < b
  }

  lemma IntLessIsOrder()
    ensures StrictTotalOrder(IntLess)
  {
  }

  /** Lexicographic order on strings by code point, with a proper prefix first (Python's <). */
  predicate StrLess(a: string, b: string) {
    if a == [] then b != []
    else if b == [] then false
    else if a[0] != b[0] then a[0] < b[0]
    else StrLess(a[1..], b[1..])
  }

  lemma {:induction false} StrLessIrreflexive(a: string)
    ensures !StrLess(a, a)
  {
    if a != [] {
      StrLessIrreflexive(a[1..]);
    }
  }

  lemma {:induction false} StrLessTransitive(a: string, b: string, c: string)
    requires StrLess(a, b) && StrLess(b, c)
    ensures StrLess(a, c)
  {
    if a != [] && b != [] && c != [] && a[0] == b[0] && b[0] == c[0] {
      StrLessTransitive(a[1..], b[1..], c[1..]);
    }
  }

  lemma {:induction false} StrLessTotal(a: string, b: string)
    requires a != b
    ensures StrLess(a, b) || StrLess(b, a)
  {
    if a != [] && b != [] && a[0] == b[0] {
      assert a == [a[0]] + a[1..] && b == [b[0]] + b[1..];
      StrLessTotal(a[1..], b[1..]);
    }
  }

  lemma StrLessIsOrder()
    ensures StrictTotalOrder(StrLess)
  {
    forall a: string ensures !StrLess(a, a) {
      StrLessIrreflexive(a);
    }
    forall a: string, b: string, c: string | StrLess(a, b) && StrLess(b, c) ensures StrLess(a, c) {
      StrLessTransitive(a, b, c);
    }
    forall a: string, b: string | a != b ensures StrLess(a, b) || StrLess(b, a) {
      StrLessTotal(a, b);
    }
  }

  // ---------------------------------------------------------------- group-by totals

  /** Sum over the keys ks of the size of each key's group. */
  function GroupSizes<T(!new), K(==)>(s: seq<T>, key: T -> K, ks: seq<K>): int {
    if ks == [] then 0 else GroupSizes(s, key, ks[..|ks| - 1]) + |Group(s, key, ks[|ks| - 1])|
  }

  lemma {:induction false} GroupSizesSnoc<T(!new), K>(s: seq<T>, x: T, key: T -> K, ks: seq<K>)
    requires Distinct(ks)
    ensures GroupSizes(s + [x], key, ks) == GroupSizes(s, key, ks) + (if key(x) in ks then 1 else 0)
  {
    if ks != [] {
      var ks', k := ks[..|ks| - 1], ks[|ks| - 1];
      assert ks == ks' + [k];
      GroupSizesSnoc(s, x, key, ks');
      GroupSnoc(s, x, key, k);
      assert k !in ks';
    }
  }

  /** The groups of distinct keys that cover every row's key partition the rows: their sizes add up. */
  lemma {:induction false} GroupSizesTotal<T(!new), K>(s: seq<T>, key: T -> K, ks: seq<K>)
    requires Distinct(ks)
    requires forall x :: x in s ==> key(x) in ks
    ensures GroupSizes(s, key, ks) == |s|
  {
    if s == [] {
      GroupSizesEmpty(key, ks);
    } else {
      var s', x := s[..|s| - 1], s[|s| - 1];
      assert s == s' + [x];
      GroupSizesTotal(s', key, ks);
      GroupSizesSnoc(s', x, key, ks);
    }
  }

  lemma {:induction false} GroupSizesEmpty<T(!new), K>(key: T -> K, ks: seq<K>)
    ensures GroupSizes([], key, ks) == 0
  {
    if ks != [] {
      GroupSizesEmpty(key, ks[..|ks| - 1]);
    }
  }

  /** Sum of an integer weight over the rows. */
  function SumBy<T>(s: seq<T>, w: T -> int): int {
    if s == [] then 0 else SumBy(s[..|s| - 1], w) + w(s[|s| - 1])
  }

  lemma SumBySnoc<T>(s: seq<T>, x: T, w: T -> int)
    ensures SumBy(s + [x], w) == SumBy(s, w) + w(x)
  {
    assert (s + [x])[..|s + [x]| - 1] == s;
  }

  /** Sum over the keys ks of each group's total weight. */
  function GroupSums<T(!new), K(==)>(s: seq<T>, key: T -> K, w: T -> int, ks: seq<K>): int {
    if ks == [] then 0 else GroupSums(s, key, w, ks[..|ks| - 1]) + SumBy(Group(s, key, ks[|ks| - 1]), w)
  }

  lemma {:induction false} GroupSumsSnoc<T(!new), K>(s: seq<T>, x: T, key: T -> K, w: T -> int, ks: seq<K>)
    requires Distinct(ks)
    ensures GroupSums(s + [x], key, w, ks) == GroupSums(s, key, w, ks) + (if key(x) in ks then w(x) else 0)
  {
    if ks != [] {
      var ks', k := ks[..|ks| - 1], ks[|ks| - 1];
      assert ks == ks' + [k];
      GroupSumsSnoc(s, x, key, w, ks');
      GroupSnoc(s, x, key, k);
      SumBySnoc(Group(s, key, k), x, w);
      assert k !in ks';
    }
  }

  lemma {:induction false} GroupSumsEmpty<T(!new), K>(key: T -> K, w: T -> int, ks: seq<K>)
    ensures GroupSums([], key, w, ks) == 0
  {
    if ks != [] {
      GroupSumsEmpty(key, w, ks[..|ks| - 1]);
    }
  }

  /** Grouping preserves a weighted total: the group totals add up to the overall total. */
  lemma {:induction false} GroupSumsTotal<T(!new), K>(s: seq<T>, key: T -> K, w: T -> int, ks: seq<K>)
    requires Distinct(ks)
    requires forall x :: x in s ==> key(x) in ks
    ensures GroupSums(s, key, w, ks) == SumBy(s, w)
  {
    if s == [] {
      GroupSumsEmpty(key, w, ks);
    } else {
      var s', x := s[..|s| - 1], s[|s| - 1];
      assert s == s' + [x];
      GroupSumsTotal(s', key, w, ks);
      GroupSumsSnoc(s', x, key, w, ks);
      SumBySnoc(s', x, w);
    }
  }

  // ---------------------------------------------------------------- shares

  /** part / whole, and 0 for an empty whole. */
  function Ratio(part: nat, whole: nat): real {
    if whole > 0 then part as real / whole as real else 0.0
  }

  lemma RatioBounds(part: nat, whole: nat)
    requires part <= whole
    ensures 0.0 <= Ratio(part, whole) <= 1.0
  {
    if whole > 0 {
      DivideBounds(part as real, whole as real, 0.0, 1.0);
    }
  }

  lemma RatioSum(a: nat, b: nat, whole: nat)
    requires whole > 0
    ensures Ratio(a, whole) + Ratio(b, whole) == Ratio(a + b, whole)
  {
  }

  /** Two shares of one whole with disjoint parts add up to at most 1. */
  lemma RatioPairAtMostOne(a: nat, b: nat, whole: nat)
    requires whole > 0 && a + b <= whole
    ensures Ratio(a, whole) + Ratio(b, whole) <= 1.0
  {
  }

  /** Two shares of one whole whose parts cover it add up to exactly 1. */
  lemma RatioPairCovers(a: nat, b: nat, whole: nat)
    requires whole > 0 && a + b == whole
    ensures Ratio(a, whole) + Ratio(b, whole) == 1.0
  {
  }

  // ---------------------------------------------------------------- collecting over group numbers

  /** The values f gives for 0 .. n - 1, in order, skipping the numbers where it gives None. */
  function Collect<R>(n: nat, f: nat -> Option<R>): seq<R> {
    if n == 0 then []
    else Collect(n - 1, f) + (match f(n - 1) case Some(v) => [v] case None => [])
  }

  /** The numbers below n where f gives a value, ascending. */
  function CollectedAt<R>(n: nat, f: nat -> Option<R>): (ids: seq<nat>)
    ensures |ids| <= n
    ensures forall k :: 0 <= k < |ids| ==> ids[k] < n && f(ids[k]).Some?
    ensures forall k, l :: 0 <= k < l < |ids| ==> ids[k] < ids[l]
    ensures forall i :: 0 <= i < n && f(i).Some? ==> i in ids
  {
    if n == 0 then []
    else CollectedAt(n - 1, f) + (if f(n - 1).Some? then [n - 1] else [])
  }

  /** Collect holds, position by position, the value f gives at each number CollectedAt lists. */
  lemma {:induction false} CollectFacts<R>(n: nat, f: nat -> Option<R>)
    ensures |Collect(n, f)| == |CollectedAt(n, f)|
    ensures forall k :: 0 <= k < |Collect(n, f)| ==> f(CollectedAt(n, f)[k]) == Some(Collect(n, f)[k])
  {
    if n > 0 {
      CollectFacts(n - 1, f);
      var rows, ids := Collect(n - 1, f), CollectedAt(n - 1, f);
      if f(n - 1).Some? {
        assert Collect(n, f) == rows + [f(n - 1).value];
        assert CollectedAt(n, f) == ids + [n - 1];
      } else {
        assert Collect(n, f) == rows;
        assert CollectedAt(n, f) == ids;
      }
    }
  }
}
