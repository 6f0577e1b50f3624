/** Small generic helpers: an optional value and the list `filter` that every
    cohort selection of the dashboard is built from. */
module Util {

  /** A value that may be absent (TypeScript's `null`/`undefined`). */
  datatype Option<+T> = None | Some(value: T)

  /** `a` is obtained from `b` by deleting elements, keeping the order of the rest. */
  predicate IsSubsequence<T(==)>(a: seq<T>, b: seq<T>)
    decreases |b|
  {
    a == [] ||
    (b != [] &&
     ((a[0] == b[0] && IsSubsequence(a[1..], b[1..])) || IsSubsequence(a, b[1..])))
  }

  /** `xs.filter(keep)`: the elements of `xs` that satisfy `keep`, in their
      original order (how often each is kept: `FilterMultiplicity`). */
  function Filter<T(==,!new)>(keep: T -> bool, xs: seq<T>): (r: seq<T>)
    ensures |r| <= |xs|
    ensures forall x :: x in r <==> x in xs && keep(x)
    ensures IsSubsequence(r, xs)
  {
    if xs == [] then []
    else
      var rest := Filter(keep, xs[1..]);
      assert xs == [xs[0]] + xs[1..];
      if keep(xs[0]) then
        var r := [xs[0]] + rest;
        assert r[1..] == rest;
        r
      else rest
  }

  /** Each passing element is kept exactly as often as it occurs in `xs`, and
      no other element is kept, so no duplicate is ever dropped. */
  lemma {:induction false} FilterMultiplicity<T(!new)>(keep: T -> bool, xs: seq<T>)
    ensures forall x :: multiset(Filter(keep, xs))[x] == if keep(x) then multiset(xs)[x] else 0
  {
    if xs != [] {
      FilterMultiplicity(keep, xs[1..]);
      assert xs == [xs[0]] + xs[1..];
      FilterCons(keep, xs[0], xs[1..]);
    }
  }

  /** Filtering with two predicates that agree on every element gives the same list. */
  lemma {:induction false} FilterExtensional<T(!new)>(f: T -> bool, g: T -> bool, xs: seq<T>)
    requires forall x :: x in xs ==> f(x) == g(x)
    ensures Filter(f, xs) == Filter(g, xs)
  {
    if xs != [] {
      FilterExtensional(f, g, xs[1..]);
    }
  }

  /** The filtered list is non-empty exactly when some element passes. */
  lemma FilterNonEmptyIff<T(!new)>(keep: T -> bool, xs: seq<T>)
    ensures Filter(keep, xs) != [] <==> exists x :: x in xs && keep(x)
  {
    var r := Filter(keep, xs);
    if r != [] {
      assert r[0] in r;
    }
  }

  /** Filtering a list with one element put in front. */
  lemma FilterCons<T(!new)>(keep: T -> bool, x: T, xs: seq<T>)
    ensures Filter(keep, [x] + xs) == (if keep(x) then [x] else []) + Filter(keep, xs)
  {
    assert ([x] + xs)[0] == x;
    assert ([x] + xs)[1..] == xs;
  }

  /** When every element satisfies exactly one of three predicates, the three
      filtered lists split the list: together they hold each element exactly
      as often as the list does. */
  lemma {:induction false} FilterPartition3<T(!new)>(f: T -> bool, g: T -> bool, h: T -> bool, xs: seq<T>)
    requires forall x :: x in xs ==> (f(x) && !g(x) && !h(x)) || (!f(x) && g(x) && !h(x)) || (!f(x) && !g(x) && h(x))
    ensures multiset(Filter(f, xs)) + multiset(Filter(g, xs)) + multiset(Filter(h, xs)) == multiset(xs)
    ensures |Filter(f, xs)| + |Filter(g, xs)| + |Filter(h, xs)| == |xs|
  {
    if xs != [] {
      FilterPartition3(f, g, h, xs[1..]);
      assert xs == [xs[0]] + xs[1..];
    }
    assert |multiset(Filter(f, xs))| == |Filter(f, xs)|;
    assert |multiset(Filter(g, xs))| == |Filter(g, xs)|;
    assert |multiset(Filter(h, xs))| == |Filter(h, xs)|;
  }
}
