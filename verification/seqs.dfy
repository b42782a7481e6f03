/** Order-preserving sequence operations that stand for JavaScript's
    `Array.prototype.filter` and `Array.from(new Set(xs))`. */
module Seqs {

  /** `xs.filter(keep)`: exactly the kept elements, in their original order
      (the order part is `FilterAppend` below). */
  function Filter<T(==)>(xs: seq<T>, keep: T -> bool): (r: seq<T>)
    ensures |r| <= |xs|
    ensures forall i :: 0 <= i < |r| ==> keep(r[i]) && r[i] in xs
    ensures forall i :: 0 <= i < |xs| && keep(xs[i]) ==> xs[i] in r
    ensures (forall i :: 0 <= i < |xs| ==> keep(xs[i])) ==> r == xs
  {
    if |xs| == 0 then []
    else
      var rest := Filter(xs[1..], keep);
      assert forall i :: 1 <= i < |xs| ==> xs[i] == xs[1..][i - 1];
      if keep(xs[0]) then [xs[0]] + rest else rest
  }

  /** Filtering distributes over concatenation, so it keeps relative order. */
  lemma {:induction false} FilterAppend<T>(a: seq<T>, b: seq<T>, keep: T -> bool)
    ensures Filter(a + b, keep) == Filter(a, keep) + Filter(b, keep)
  {
    if |a| == 0 {
      assert a + b == b;
    } else {
      assert (a + b)[1..] == a[1..] + b;
      FilterAppend(a[1..], b, keep);
    }
  }

  /** Two filters in a row are one filter by the conjunction. */
  lemma {:induction false} FilterFilter<T>(xs: seq<T>, f: T -> bool, g: T -> bool, both: T -> bool)
    requires forall x :: both(x) == (f(x) && g(x))
    ensures Filter(Filter(xs, f), g) == Filter(xs, both)
  {
    if |xs| > 0 {
      FilterFilter(xs[1..], f, g, both);
    }
  }

  /** Filtering by a predicate that is the same on every element of `xs`
      gives the same result. */
  lemma {:induction false} FilterCongruent<T>(xs: seq<T>, f: T -> bool, g: T -> bool)
    requires forall i :: 0 <= i < |xs| ==> f(xs[i]) == g(xs[i])
    ensures Filter(xs, f) == Filter(xs, g)
  {
    if |xs| > 0 {
      FilterCongruent(xs[1..], f, g);
    }
  }

  predicate Distinct<T(==)>(xs: seq<T>) {
    forall i, j :: 0 <= i < j < |xs| ==> xs[i] != xs[j]
  }

  /** Index of the first occurrence of `x` in `xs`. */
  function FirstIndex<T(==)>(xs: seq<T>, x: T): (k: nat)
    requires x in xs
    ensures k < |xs| && xs[k] == x
    ensures forall i :: 0 <= i < k ==> xs[i] != x
  {
    if xs[0] == x then 0 else 1 + FirstIndex(xs[1..], x)
  }

  lemma FirstIndexPrefix<T>(xs: seq<T>, y: T, x: T)
    requires x in xs
    ensures x in xs + [y] && FirstIndex(xs + [y], x) == FirstIndex(xs, x)
  {
    var k := FirstIndex(xs, x);
    var k' := FirstIndex(xs + [y], x);
    assert (xs + [y])[k] == x;
  }

  /** `Array.from(new Set(xs))`: every value once, in the order of its first
      occurrence in `xs`. */
  function Dedup<T(==)>(xs: seq<T>): (r: seq<T>)
    ensures Distinct(r)
    ensures forall i :: 0 <= i < |r| ==> r[i] in xs
    ensures forall i :: 0 <= i < |xs| ==> xs[i] in r
    ensures forall i, j :: 0 <= i < j < |r| ==> FirstIndex(xs, r[i]) < FirstIndex(xs, r[j])
  {
    if |xs| == 0 then []
    else
      var p := xs[..|xs| - 1];
      var last := xs[|xs| - 1];
      var d := Dedup(p);
      assert xs == p + [last];
      forall x | x in p ensures FirstIndex(xs, x) == FirstIndex(p, x) {
        FirstIndexPrefix(p, last, x);
      }
      if last in d then d
      else
        assert last !in p;
        DedupSnoc(xs, p, last, d);
        d + [last]
  }

  /** Appending a value not met before keeps the first-occurrence order. */
  lemma DedupSnoc<T>(xs: seq<T>, p: seq<T>, last: T, d: seq<T>)
    requires xs == p + [last] && last !in d && last !in p && Distinct(d)
    requires forall i :: 0 <= i < |d| ==> d[i] in p
    requires forall x :: x in p ==> FirstIndex(xs, x) == FirstIndex(p, x)
    requires forall i, j :: 0 <= i < j < |d| ==> FirstIndex(xs, d[i]) < FirstIndex(xs, d[j])
    ensures Distinct(d + [last])
    ensures forall i, j :: 0 <= i < j < |d + [last]| ==> FirstIndex(xs, (d + [last])[i]) < FirstIndex(xs, (d + [last])[j])
  {
    assert FirstIndex(xs, last) == |xs| - 1 by {
      assert forall k :: 0 <= k < |p| ==> xs[k] == p[k];
    }
    forall i | 0 <= i < |d| ensures FirstIndex(xs, d[i]) < |xs| - 1 {
      assert FirstIndex(xs, d[i]) == FirstIndex(p, d[i]);
    }
  }

  /** Without repeats, the head is not in the tail and the tail has none. */
  lemma DistinctTail<T>(xs: seq<T>)
    requires Distinct(xs) && |xs| > 0
    ensures Distinct(xs[1..]) && xs[0] !in xs[1..]
  {
    forall a, b | 0 <= a < b < |xs[1..]| ensures xs[1..][a] != xs[1..][b] {
      assert xs[1..][a] == xs[a + 1] && xs[1..][b] == xs[b + 1];
    }
    forall k | 0 <= k < |xs[1..]| ensures xs[1..][k] != xs[0] {
      assert xs[1..][k] == xs[k + 1];
    }
  }

  /** Two equal elements at different indices count at least twice. */
  lemma CountAtLeastTwo<T>(xs: seq<T>, i: nat, j: nat)
    requires i < j < |xs| && xs[i] == xs[j]
    ensures multiset(xs)[xs[i]] >= 2
  {
    assert xs == xs[..j] + [xs[j]] + xs[j + 1..];
    assert xs[..j][i] == xs[i];
    assert multiset(xs[..j])[xs[i]] >= 1;
  }

  /** In a sequence without repeats every element counts once. */
  lemma {:induction false} DistinctCountsOnce<T>(xs: seq<T>, x: T)
    requires Distinct(xs)
    ensures multiset(xs)[x] <= 1
  {
    if |xs| > 0 {
      assert xs == [xs[0]] + xs[1..];
      DistinctTail(xs);
      DistinctCountsOnce(xs[1..], x);
    }
  }

  /** A permutation of a sequence without repeats has no repeats. */
  lemma PermutationKeepsDistinct<T>(xs: seq<T>, ys: seq<T>)
    requires Distinct(xs) && multiset(ys) == multiset(xs)
    ensures Distinct(ys)
  {
    forall i, j | 0 <= i < j < |ys| ensures ys[i] != ys[j] {
      if ys[i] == ys[j] {
        CountAtLeastTwo(ys, i, j);
        DistinctCountsOnce(xs, ys[i]);
      }
    }
  }

  /** Filtering a sequence without repeats leaves none. */
  lemma FilterKeepsDistinct<T>(xs: seq<T>, keep: T -> bool)
    requires Distinct(xs)
    ensures Distinct(Filter(xs, keep))
  {
    forall i, j | 0 <= i < j < |Filter(xs, keep)| ensures Filter(xs, keep)[i] != Filter(xs, keep)[j] {
      FilteredApart(xs, keep, i, j);
    }
  }

  lemma {:induction false} FilteredApart<T>(xs: seq<T>, keep: T -> bool, i: nat, j: nat)
    requires Distinct(xs)
    requires i < j < |Filter(xs, keep)|
    ensures Filter(xs, keep)[i] != Filter(xs, keep)[j]
  {
    var rest := Filter(xs[1..], keep);
    DistinctTail(xs);
    if keep(xs[0]) {
      if i == 0 {
        assert Filter(xs, keep)[j] == rest[j - 1];
        assert rest[j - 1] in xs[1..];
      } else {
        FilteredApart(xs[1..], keep, i - 1, j - 1);
      }
    } else {
      FilteredApart(xs[1..], keep, i, j);
    }
  }
}
