/** Sequence helpers shared by every list the site keeps: the order-preserving
    sublist relation, the `Array.prototype.filter` of the source, and a count. */
module Seqs {

  /** `a` can be obtained from `b` by deleting elements, keeping the order. */
  predicate IsSublist<T(==)>(a: seq<T>, b: seq<T>)
    decreases |b|
  {
    if a == [] then true
    else if b == [] then false
    else if a[0] == b[0] then IsSublist(a[1..], b[1..])
    else IsSublist(a, b[1..])
  }

  /** Number of elements of `xs` that satisfy `p`. */
  function Count<T>(xs: seq<T>, p: T -> bool): (n: nat)
    ensures n <= |xs|
  {
    if xs == [] then 0 else (if p(xs[0]) then 1 else 0) + Count(xs[1..], p)
  }

  /** `xs.filter(p)`: the elements satisfying `p`, in their original order. */
  function Filter<T(==,!new)>(xs: seq<T>, p: T -> bool): (r: seq<T>)
    ensures IsSublist(r, xs)
    ensures forall i :: 0 <= i < |r| ==> p(r[i])
    ensures forall x :: multiset(r)[x] == (if p(x) then multiset(xs)[x] else 0)
    ensures |r| == Count(xs, p)
  {
    if xs == [] then []
    else
      var rest := Filter(xs[1..], p);
      assert xs == [xs[0]] + xs[1..];
      if p(xs[0]) then
        [xs[0]] + rest
      else
        SublistCons(rest, xs[1..], xs[0]);
        rest
  }

  lemma {:induction false} SublistDropHead<T>(a: seq<T>, b: seq<T>)
    requires a != [] && IsSublist(a, b)
    ensures IsSublist(a[1..], b)
    decreases |b|, 0
  {
    if a[0] == b[0] {
      if a[1..] != [] {
        SublistDropHead(a[1..], b[1..]);
        SublistCons(a[1..], b[1..], b[0]);
        assert b == [b[0]] + b[1..];
      }
    } else {
      SublistDropHead(a, b[1..]);
      SublistCons(a[1..], b[1..], b[0]);
      assert b == [b[0]] + b[1..];
    }
  }

  /** Prepending an element to the larger list keeps the relation. */
  lemma {:induction false} SublistCons<T>(a: seq<T>, b: seq<T>, x: T)
    requires IsSublist(a, b)
    ensures IsSublist(a, [x] + b)
    decreases |b|, 1
  {
    if a != [] && a[0] == x {
      SublistDropHead(a, b);
      assert ([x] + b)[1..] == b;
    } else {
      assert ([x] + b)[1..] == b;
    }
  }

  /** A predicate that every element satisfies keeps the whole list. */
  lemma {:induction false} FilterAll<T(!new)>(xs: seq<T>, p: T -> bool)
    requires forall i :: 0 <= i < |xs| ==> p(xs[i])
    ensures Filter(xs, p) == xs
  {
    if xs != [] {
      FilterAll(xs[1..], p);
    }
  }

  /** A predicate that implies another keeps a sublist of what the other keeps. */
  lemma {:induction false} FilterMonotone<T(!new)>(xs: seq<T>, p: T -> bool, q: T -> bool)
    requires forall i :: 0 <= i < |xs| ==> p(xs[i]) ==> q(xs[i])
    ensures IsSublist(Filter(xs, p), Filter(xs, q))
  {
    if xs != [] {
      var a, b := Filter(xs[1..], p), Filter(xs[1..], q);
      FilterMonotone(xs[1..], p, q);
      if p(xs[0]) {
        assert ([xs[0]] + a)[1..] == a && ([xs[0]] + b)[1..] == b;
      } else if q(xs[0]) {
        SublistCons(a, b, xs[0]);
      }
    }
  }

  /** An element is kept exactly when it is in the list and satisfies the
      predicate. */
  lemma FilterMembership<T(!new)>(xs: seq<T>, p: T -> bool, x: T)
    ensures x in Filter(xs, p) <==> x in xs && p(x)
  {
    assert x in Filter(xs, p) <==> multiset(Filter(xs, p))[x] > 0;
    assert x in xs <==> multiset(xs)[x] > 0;
  }

  /** Predicates that agree on every element keep the same elements. */
  lemma {:induction false} FilterCongruent<T(!new)>(xs: seq<T>, p: T -> bool, q: T -> bool)
    requires forall i :: 0 <= i < |xs| ==> (p(xs[i]) <==> q(xs[i]))
    ensures Filter(xs, p) == Filter(xs, q)
  {
    if xs != [] {
      FilterCongruent(xs[1..], p, q);
    }
  }

  /** A predicate that no element satisfies keeps nothing. */
  lemma {:induction false} FilterNone<T(!new)>(xs: seq<T>, p: T -> bool)
    requires forall i :: 0 <= i < |xs| ==> !p(xs[i])
    ensures Filter(xs, p) == []
  {
    if xs != [] {
      FilterNone(xs[1..], p);
    }
  }

  /** Filtering a list with one more element at the end filters the list and
      then that element. */
  lemma {:induction false} FilterSnoc<T(!new)>(xs: seq<T>, x: T, p: T -> bool)
    ensures Filter(xs + [x], p) == Filter(xs, p) + (if p(x) then [x] else [])
  {
    var ys := xs + [x];
    var tail := if p(x) then [x] else [];
    if xs == [] {
      assert ys == [x] && ys[1..] == [];
      assert Filter(ys, p) == tail;
      assert Filter(xs, p) + tail == tail;
    } else {
      assert ys[0] == xs[0] && ys[1..] == xs[1..] + [x];
      FilterSnoc(xs[1..], x, p);
      var a, b := Filter(ys[1..], p), Filter(xs[1..], p);
      assert a == b + tail;
      if p(xs[0]) {
        assert Filter(ys, p) == [xs[0]] + a;
        assert Filter(xs, p) == [xs[0]] + b;
        ConsAssoc(xs[0], b, tail);
      } else {
        assert Filter(ys, p) == a;
        assert Filter(xs, p) == b;
      }
    }
  }

  lemma ConsAssoc<T>(x: T, b: seq<T>, c: seq<T>)
    ensures [x] + (b + c) == ([x] + b) + c
  {
  }
}
