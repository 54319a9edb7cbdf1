/** Order-preserving selection over sequences, and the interleaving relation
    that says one sequence is split into two without loss, duplication or
    reordering. */
module Sequences {

  /** The elements of `s` that satisfy `p`, in their original order
      (a list comprehension with an `if` clause). */
  function Filter<T>(s: seq<T>, p: T -> bool): (r: seq<T>)
    ensures |r| <= |s|
    ensures forall i :: 0 <= i < |r| ==> r[i] in s && p(r[i])
    ensures forall i :: 0 <= i < |s| && p(s[i]) ==> s[i] in r
    decreases |s|
  {
    if s == [] then []
    else Filter(s[..|s| - 1], p) + (if p(s[|s| - 1]) then [s[|s| - 1]] else [])
  }

  /** `f` applied to every element of `s`, in order. */
  function Map<T, U>(s: seq<T>, f: T -> U): (r: seq<U>)
    ensures |r| == |s|
    ensures forall i :: 0 <= i < |s| ==> r[i] == f(s[i])
    decreases |s|
  {
    if s == [] then [] else Map(s[..|s| - 1], f) + [f(s[|s| - 1])]
  }

  /** The number of times `x` occurs in `s`. */
  function Occurrences<T(==)>(s: seq<T>, x: T): (n: nat)
    ensures n <= |s|
    decreases |s|
  {
    if s == [] then 0
    else Occurrences(s[..|s| - 1], x) + (if s[|s| - 1] == x then 1 else 0)
  }

  /** `s` is obtained by merging `a` and `b` while keeping the order of each:
      every element of `s` comes from exactly one of them. */
  predicate Interleaves<T(==)>(s: seq<T>, a: seq<T>, b: seq<T>)
    decreases |s|
  {
    if s == [] then a == [] && b == []
    else
      (a != [] && a[|a| - 1] == s[|s| - 1] && Interleaves(s[..|s| - 1], a[..|a| - 1], b)) ||
      (b != [] && b[|b| - 1] == s[|s| - 1] && Interleaves(s[..|s| - 1], a, b[..|b| - 1]))
  }

  /** Selecting by a predicate and by its negation splits a sequence into two
      interleaved parts. */
  lemma {:induction false} FilterPartition<T>(s: seq<T>, p: T -> bool, q: T -> bool)
    requires forall i :: 0 <= i < |s| ==> q(s[i]) == !p(s[i])
    ensures Interleaves(s, Filter(s, p), Filter(s, q))
    decreases |s|
  {
    if s != [] {
      var init := s[..|s| - 1];
      FilterPartition(init, p, q);
      var a, b := Filter(s, p), Filter(s, q);
      if p(s[|s| - 1]) {
        assert a[..|a| - 1] == Filter(init, p);
        assert b == Filter(init, q);
      } else {
        assert a == Filter(init, p);
        assert b[..|b| - 1] == Filter(init, q);
      }
    }
  }

  /** An interleaving accounts for every element exactly once. */
  lemma {:induction false} InterleavesCounts<T>(s: seq<T>, a: seq<T>, b: seq<T>)
    requires Interleaves(s, a, b)
    ensures |a| + |b| == |s|
    ensures multiset(a) + multiset(b) == multiset(s)
    decreases |s|
  {
    if s != [] {
      var init, last := s[..|s| - 1], s[|s| - 1];
      assert s == init + [last];
      if a != [] && a[|a| - 1] == last && Interleaves(init, a[..|a| - 1], b) {
        InterleavesCounts(init, a[..|a| - 1], b);
        assert a == a[..|a| - 1] + [last];
      } else {
        InterleavesCounts(init, a, b[..|b| - 1]);
        assert b == b[..|b| - 1] + [last];
      }
    }
  }

  /** Applying the same function to a sequence and to both of its parts keeps
      the interleaving. */
  lemma {:induction false} InterleavesMap<T, U>(s: seq<T>, a: seq<T>, b: seq<T>, f: T -> U)
    requires Interleaves(s, a, b)
    ensures Interleaves(Map(s, f), Map(a, f), Map(b, f))
    decreases |s|
  {
    if s != [] {
      var init, last := s[..|s| - 1], s[|s| - 1];
      var ms := Map(s, f);
      assert ms[..|ms| - 1] == Map(init, f);
      if a != [] && a[|a| - 1] == last && Interleaves(init, a[..|a| - 1], b) {
        InterleavesMap(init, a[..|a| - 1], b, f);
        var ma := Map(a, f);
        assert ma[..|ma| - 1] == Map(a[..|a| - 1], f);
      } else {
        InterleavesMap(init, a, b[..|b| - 1], f);
        var mb := Map(b, f);
        assert mb[..|mb| - 1] == Map(b[..|b| - 1], f);
      }
    }
  }

  /** An element is selected iff it occurs and satisfies the predicate. */
  lemma {:induction false} FilterMembership<T>(s: seq<T>, p: T -> bool, x: T)
    ensures x in Filter(s, p) <==> x in s && p(x)
  {
    if x in s && p(x) {
      var i :| 0 <= i < |s| && s[i] == x;
    }
  }

  /** A value is in the image iff some element maps to it. */
  lemma {:induction false} MapMembership<T, U>(s: seq<T>, f: T -> U, y: U)
    ensures y in Map(s, f) <==> exists x :: x in s && f(x) == y
  {
    if y in Map(s, f) {
      var i :| 0 <= i < |s| && Map(s, f)[i] == y;
      assert s[i] in s;
    }
  }

  /** Selecting twice is selecting by the stronger predicate. */
  lemma {:induction false} FilterFilter<T>(s: seq<T>, p: T -> bool, q: T -> bool)
    requires forall x :: q(x) ==> p(x)
    ensures Filter(Filter(s, p), q) == Filter(s, q)
    decreases |s|
  {
    if s != [] {
      var init := s[..|s| - 1];
      var last := s[|s| - 1];
      FilterFilter(init, p, q);
      var fp := Filter(s, p);
      if p(last) {
        assert fp == Filter(init, p) + [last];
        assert fp[..|fp| - 1] == Filter(init, p);
        assert Filter(fp, q) == Filter(Filter(init, p), q) + (if q(last) then [last] else []);
      } else {
        assert fp == Filter(init, p);
        assert !q(last);
      }
    }
  }

  /** Selecting after mapping is mapping after selecting, when the predicate
      on images agrees with a predicate on the originals. */
  lemma {:induction false} FilterMap<T, U>(s: seq<T>, f: T -> U, p: U -> bool, q: T -> bool)
    requires forall x :: p(f(x)) == q(x)
    ensures Filter(Map(s, f), p) == Map(Filter(s, q), f)
    decreases |s|
  {
    if s != [] {
      var init := s[..|s| - 1];
      FilterMap(init, f, p, q);
      var ms := Map(s, f);
      assert ms[..|ms| - 1] == Map(init, f);
      var fq := Filter(s, q);
      if q(s[|s| - 1]) {
        assert fq[..|fq| - 1] == Filter(init, q);
      }
    }
  }
}
