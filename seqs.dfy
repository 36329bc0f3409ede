/**
  Order-preserving sequence operations: the model's `Array.prototype.filter`
  and `[...new Set(xs)]`, with the facts the pages rely on.
 */
module Seqs {

  /** `a` can be obtained from `b` by deleting elements (order is kept). */
  predicate IsSubseq<T(==)>(a: seq<T>, b: seq<T>)
    decreases |b|
  {
    if a == [] then true
    else if b == [] then false
    else if a[0] == b[0] then IsSubseq(a[1..], b[1..])
    else IsSubseq(a, b[1..])
  }

  /** `Array.prototype.filter`: keeps, in order, every element satisfying `p`. */
  function Filter<T(!new)>(s: seq<T>, p: T -> bool): (r: seq<T>)
    ensures |r| <= |s|
    ensures forall x :: x in r <==> x in s && p(x)
  {
    if s == [] then []
    else
      assert s == [s[0]] + s[1..];
      (if p(s[0]) then [s[0]] else []) + Filter(s[1..], p)
  }

  /** Filtering keeps every occurrence of a kept value and none of a dropped one. */
  lemma {:induction false} FilterCount<T(!new)>(s: seq<T>, p: T -> bool, x: T)
    ensures multiset(Filter(s, p))[x] == if p(x) then multiset(s)[x] else 0
  {
    if s != [] {
      FilterCount(s[1..], p, x);
      assert s == [s[0]] + s[1..];
    }
  }

  lemma {:induction false} SubseqRefl<T>(a: seq<T>)
    ensures IsSubseq(a, a)
  {
    if a != [] {
      SubseqRefl(a[1..]);
    }
  }

  lemma {:induction false} SubseqOfTail<T>(a: seq<T>, b: seq<T>)
    requires b != [] && IsSubseq(a, b[1..])
    ensures IsSubseq(a, b)
    decreases |b|, |a|, 1
  {
    if a != [] && a[0] == b[0] {
      // the greedy match may take b[0]; then a[1..] must fit into b[1..]
      SubseqDropHead(a, b[1..]);
    }
  }

  lemma {:induction false} SubseqDropHead<T>(a: seq<T>, b: seq<T>)
    requires a != [] && IsSubseq(a, b)
    ensures IsSubseq(a[1..], b)
    decreases |b| + 1, |a|, 0
  {
    if b != [] {
      if a[0] == b[0] {
        SubseqOfTail(a[1..], b);
      } else {
        SubseqDropHead(a, b[1..]);
        SubseqOfTail(a[1..], b);
      }
    }
  }

  /** The result of `Filter` is an order-preserving subsequence of its input. */
  lemma {:induction false} FilterIsSubseq<T(!new)>(s: seq<T>, p: T -> bool)
    ensures IsSubseq(Filter(s, p), s)
  {
    if s != [] {
      FilterIsSubseq(s[1..], p);
      if p(s[0]) {
        assert Filter(s, p) == [s[0]] + Filter(s[1..], p);
        assert Filter(s, p)[1..] == Filter(s[1..], p);
      } else {
        assert Filter(s, p) == Filter(s[1..], p);
        SubseqOfTail(Filter(s, p), s);
      }
    }
  }

  /** Filtering by a predicate that every element satisfies is the identity. */
  lemma {:induction false} FilterAllKept<T(!new)>(s: seq<T>, p: T -> bool)
    requires forall i :: 0 <= i < |s| ==> p(s[i])
    ensures Filter(s, p) == s
  {
    if s != [] {
      FilterAllKept(s[1..], p);
    }
  }

  /** Filtering distributes over concatenation. */
  lemma {:induction false} FilterAppend<T(!new)>(a: seq<T>, b: seq<T>, p: T -> bool)
    ensures Filter(a + b, p) == Filter(a, p) + Filter(b, p)
  {
    if a == [] {
      assert a + b == b;
    } else {
      assert (a + b)[0] == a[0];
      assert (a + b)[1..] == a[1..] + b;
      FilterAppend(a[1..], b, p);
    }
  }

  /** Filtering twice by the same predicate changes nothing the second time. */
  lemma FilterIdempotent<T(!new)>(s: seq<T>, p: T -> bool)
    ensures Filter(Filter(s, p), p) == Filter(s, p)
  {
    var r := Filter(s, p);
    FilterAllKept(r, p);
  }

  /** The conjunction of two tests, as one test. */
  function Both<T>(p: T -> bool, q: T -> bool): T -> bool {
    (x: T) => p(x) && q(x)
  }

  /** Filtering by `p` and then by `q` is filtering once by both. */
  lemma {:induction false} FilterFilter<T(!new)>(s: seq<T>, p: T -> bool, q: T -> bool)
    ensures Filter(Filter(s, p), q) == Filter(s, Both(p, q))
  {
    if s != [] {
      FilterFilter(s[1..], p, q);
      assert Both(p, q)(s[0]) == (p(s[0]) && q(s[0]));
      if p(s[0]) {
        var t := Filter(s, p);
        assert t == [s[0]] + Filter(s[1..], p);
        assert t[0] == s[0] && t[1..] == Filter(s[1..], p);
        assert Filter(t, q) == (if q(s[0]) then [s[0]] else []) + Filter(t[1..], q);
      } else {
        assert Filter(s, p) == Filter(s[1..], p);
      }
    }
  }

  /** Tests that agree on every element filter alike. */
  lemma {:induction false} FilterExt<T(!new)>(s: seq<T>, p: T -> bool, q: T -> bool)
    requires forall i :: 0 <= i < |s| ==> p(s[i]) == q(s[i])
    ensures Filter(s, p) == Filter(s, q)
  {
    if s != [] {
      FilterExt(s[1..], p, q);
    }
  }

  predicate NoDuplicates<T(==)>(s: seq<T>) {
    forall i, j :: 0 <= i < j < |s| ==> s[i] != s[j]
  }

  /** Position of the first occurrence of `x` in `s`. */
  function FirstIndex<T(==)>(s: seq<T>, x: T): (k: nat)
    requires x in s
    ensures k < |s| && s[k] == x && x !in s[..k]
  {
    if s[0] == x then 0 else FirstIndex(s[1..], x) + 1
  }

  /** `[...new Set(s)]`: the distinct elements of `s` in first-occurrence order. */
  function Distinct<T(==,!new)>(s: seq<T>): (r: seq<T>)
    ensures |r| <= |s|
    ensures forall x :: x in r <==> x in s
    ensures NoDuplicates(r)
  {
    if s == [] then []
    else
      var r := Distinct(s[..|s| - 1]);
      var last := s[|s| - 1];
      assert s == s[..|s| - 1] + [last];
      if last in r then r else r + [last]
  }

  lemma {:induction false} FirstIndexAppend<T>(s: seq<T>, y: T, x: T)
    requires x in s + [y]
    ensures x in s ==> FirstIndex(s + [y], x) == FirstIndex(s, x)
    ensures x !in s ==> FirstIndex(s + [y], x) == |s|
  {
    if s == [] {
      assert s + [y] == [y];
    } else {
      assert (s + [y])[1..] == s[1..] + [y];
      if s[0] != x {
        FirstIndexAppend(s[1..], y, x);
      }
    }
  }

  /** The elements of `Distinct(s)` appear in the order of their first occurrence in `s`. */
  lemma {:induction false} DistinctFirstOccurrenceOrder<T(!new)>(s: seq<T>, i: nat, j: nat)
    requires i < j < |Distinct(s)|
    ensures FirstIndex(s, Distinct(s)[i]) < FirstIndex(s, Distinct(s)[j])
  {
    var init := s[..|s| - 1];
    var last := s[|s| - 1];
    var r := Distinct(init);
    assert s == init + [last];
    var a, b := Distinct(s)[i], Distinct(s)[j];
    if last in r {
      DistinctFirstOccurrenceOrder(init, i, j);
      FirstIndexAppend(init, last, a);
      FirstIndexAppend(init, last, b);
    } else if j < |r| {
      DistinctFirstOccurrenceOrder(init, i, j);
      FirstIndexAppend(init, last, a);
      FirstIndexAppend(init, last, b);
    } else {
      assert b == last && a == r[i] && a in init;
      FirstIndexAppend(init, last, a);
      FirstIndexAppend(init, last, b);
    }
  }
}
