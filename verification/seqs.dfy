/** Order-preserving filtering of sequences, the `Array.prototype.filter`
    that every list view of the dashboard is built on, with the facts the
    views rely on: membership, subsequence, idempotence and partition. */
module Seqs {

  /** The elements of `xs` satisfying `p`, in their original order. */
  function Filter<T(!new)>(xs: seq<T>, p: T -> bool): (r: seq<T>)
    ensures |r| <= |xs|
    ensures forall x :: x in r <==> x in xs && p(x)
    ensures forall i :: 0 <= i < |r| ==> p(r[i])
  {
    if xs == [] then []
    else (if p(xs[0]) then [xs[0]] else []) + Filter(xs[1..], p)
  }

  /** `xs.map(f)`: `f` applied to every element, in order. */
  function Map<T, U>(xs: seq<T>, f: T -> U): (r: seq<U>)
    ensures |r| == |xs|
    ensures forall i :: 0 <= i < |xs| ==> r[i] == f(xs[i])
  {
    seq(|xs|, i requires 0 <= i < |xs| => f(xs[i]))
  }

  /** `a` can be obtained from `b` by deleting elements: its elements
      appear in `b` in the same relative order. */
  predicate IsSubseq<T(==)>(a: seq<T>, b: seq<T>)
    decreases |b|
  {
    if a == [] then true
    else if b == [] then false
    else if a[0] == b[0] then IsSubseq(a[1..], b[1..])
    else IsSubseq(a, b[1..])
  }

  /** No value occurs twice. */
  predicate NoDup<T(==)>(s: seq<T>) {
    forall i, j :: 0 <= i < j < |s| ==> s[i] != s[j]
  }

  /** The set of values occurring in `s`. */
  function Elems<T>(s: seq<T>): set<T> {
    set x | x in s
  }

  lemma {:induction false} FilterIsSubseq<T(!new)>(xs: seq<T>, p: T -> bool)
    ensures IsSubseq(Filter(xs, p), xs)
  {
    if xs != [] {
      FilterIsSubseq(xs[1..], p);
      var r := Filter(xs, p);
      if p(xs[0]) {
        assert r == [xs[0]] + Filter(xs[1..], p);
        assert r[1..] == Filter(xs[1..], p);
      } else {
        assert r == Filter(xs[1..], p);
        SubseqDropHead(r, xs);
      }
    }
  }

  /** A subsequence of the tail is a subsequence of the whole. */
  lemma {:induction false} SubseqDropHead<T>(a: seq<T>, b: seq<T>)
    requires b != []
    requires IsSubseq(a, b[1..])
    ensures IsSubseq(a, b)
    decreases |b|, 0
  {
    if a != [] && a[0] == b[0] {
      SubseqTail(a, b[1..]);
    }
  }

  /** Dropping the head of a subsequence keeps it a subsequence. */
  lemma {:induction false} SubseqTail<T>(a: seq<T>, b: seq<T>)
    requires a != []
    requires IsSubseq(a, b)
    ensures IsSubseq(a[1..], b)
    decreases |b|, 1
  {
    assert b != [];
    if a[0] == b[0] {
      if a[1..] != [] {
        SubseqDropHead(a[1..], b);
      }
    } else {
      SubseqTail(a, b[1..]);
      if a[1..] != [] {
        SubseqDropHead(a[1..], b);
      }
    }
  }

  /** Filtering distributes over concatenation; the loops of the views
      push one element at a time, which is this fact with `ys` a singleton. */
  lemma {:induction false} FilterAppend<T(!new)>(xs: seq<T>, ys: seq<T>, p: T -> bool)
    ensures Filter(xs + ys, p) == Filter(xs, p) + Filter(ys, p)
  {
    if xs == [] {
      assert xs + ys == ys;
    } else {
      assert (xs + ys)[1..] == xs[1..] + ys;
      FilterAppend(xs[1..], ys, p);
    }
  }

  /** Extending a prefix by one element extends its filter by at most that element. */
  lemma FilterSnoc<T(!new)>(xs: seq<T>, i: int, p: T -> bool)
    requires 0 <= i < |xs|
    ensures Filter(xs[..i + 1], p) == Filter(xs[..i], p) + (if p(xs[i]) then [xs[i]] else [])
  {
    assert xs[..i + 1] == xs[..i] + [xs[i]];
    FilterAppend(xs[..i], [xs[i]], p);
  }

  /** When some element fails, the filter is strictly shorter. */
  lemma {:induction false} FilterShrinks<T(!new)>(xs: seq<T>, p: T -> bool, x: T)
    requires x in xs && !p(x)
    ensures |Filter(xs, p)| < |xs|
  {
    if xs[0] != x {
      FilterShrinks(xs[1..], p, x);
    }
  }

  /** When every element passes, the filter returns its input unchanged. */
  lemma {:induction false} FilterKeepsAll<T(!new)>(xs: seq<T>, p: T -> bool)
    requires forall x :: x in xs ==> p(x)
    ensures Filter(xs, p) == xs
  {
    if xs != [] {
      FilterKeepsAll(xs[1..], p);
    }
  }

  /** When no element passes, the filter is empty. */
  lemma FilterDropsAll<T(!new)>(xs: seq<T>, p: T -> bool)
    requires forall x :: x in xs ==> !p(x)
    ensures Filter(xs, p) == []
  {
  }

  /** Filtering twice by the same predicate is filtering once. */
  lemma FilterIdempotent<T(!new)>(xs: seq<T>, p: T -> bool)
    ensures Filter(Filter(xs, p), p) == Filter(xs, p)
  {
    FilterKeepsAll(Filter(xs, p), p);
  }

  /** Two predicates that agree on every element of `xs` filter it alike. */
  lemma {:induction false} FilterCongruent<T(!new)>(xs: seq<T>, p: T -> bool, q: T -> bool)
    requires forall x :: x in xs ==> p(x) == q(x)
    ensures Filter(xs, p) == Filter(xs, q)
  {
    if xs != [] {
      FilterCongruent(xs[1..], p, q);
    }
  }

  /** Each element keeps all of its occurrences when it passes and loses
      all of them when it fails. */
  lemma {:induction false} FilterCounts<T(!new)>(xs: seq<T>, p: T -> bool)
    ensures forall x :: multiset(Filter(xs, p))[x] == if p(x) then multiset(xs)[x] else 0
  {
    if xs != [] {
      FilterCounts(xs[1..], p);
      assert xs == [xs[0]] + xs[1..];
    }
  }

  /** A sequence without duplicates has as many distinct values as elements. */
  lemma {:induction false} NoDupCard<T>(s: seq<T>)
    requires NoDup(s)
    ensures |Elems(s)| == |s|
  {
    if s != [] {
      NoDupTail(s);
      NoDupCard(s[1..]);
      assert Elems(s) == {s[0]} + Elems(s[1..]);
      assert s[0] !in Elems(s[1..]);
    }
  }

  /** Filtering keeps a sequence free of duplicates. */
  lemma {:induction false} FilterNoDup<T(!new)>(xs: seq<T>, p: T -> bool)
    requires NoDup(xs)
    ensures NoDup(Filter(xs, p))
  {
    if xs != [] {
      NoDupTail(xs);
      FilterNoDup(xs[1..], p);
      var rest := Filter(xs[1..], p);
      if p(xs[0]) {
        assert xs[0] !in xs[1..];
        ConsNoDup(xs[0], rest);
      }
    }
  }

  lemma NoDupTail<T>(xs: seq<T>)
    requires xs != [] && NoDup(xs)
    ensures NoDup(xs[1..])
  {
    forall i, j | 0 <= i < j < |xs[1..]|
      ensures xs[1..][i] != xs[1..][j]
    {
      assert xs[1..][i] == xs[i + 1] && xs[1..][j] == xs[j + 1];
    }
  }

  lemma ConsNoDup<T>(x: T, s: seq<T>)
    requires x !in s && NoDup(s)
    ensures NoDup([x] + s)
  {
    var t := [x] + s;
    forall i, j | 0 <= i < j < |t|
      ensures t[i] != t[j]
    {
      assert t[j] == s[j - 1];
      if i > 0 {
        assert t[i] == s[i - 1];
      }
    }
  }
}
