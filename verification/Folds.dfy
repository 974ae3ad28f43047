/** Running a step function over a list, and joining what a function gives for each of its elements: both are done
    piece by piece, so a list can be taken apart anywhere and one more element is one more step. */
module Folds {

  function Fold<S, A>(f: (S, A) -> S, s: S, xs: seq<A>): S
    decreases |xs|
  {
    if xs == [] then s else Fold(f, f(s, xs[0]), xs[1..])
  }

  lemma {:induction false} FoldConcat<S, A>(f: (S, A) -> S, s: S, a: seq<A>, b: seq<A>)
    ensures Fold(f, s, a + b) == Fold(f, Fold(f, s, a), b)
    decreases |a|
  {
    if a == [] {
      assert a + b == b;
    } else {
      FoldConcat(f, f(s, a[0]), a[1..], b);
      assert (a + b)[1..] == a[1..] + b;
    }
  }

  /** One more element. */
  lemma FoldNext<S, A>(f: (S, A) -> S, s: S, xs: seq<A>, i: nat)
    requires i < |xs|
    ensures Fold(f, s, xs[..i + 1]) == f(Fold(f, s, xs[..i]), xs[i])
  {
    assert xs[..i + 1] == xs[..i] + [xs[i]];
    FoldConcat(f, s, xs[..i], [xs[i]]);
  }

  /** What every step keeps, the fold keeps. */
  lemma {:induction false} FoldKeeps<S(!new), A(!new)>(f: (S, A) -> S, ok: S -> bool, fit: A -> bool, s: S, xs: seq<A>)
    requires ok(s) && forall i :: 0 <= i < |xs| ==> fit(xs[i])
    requires forall t, x :: ok(t) && fit(x) ==> ok(f(t, x))
    ensures ok(Fold(f, s, xs))
    decreases |xs|
  {
    if xs != [] {
      FoldKeeps(f, ok, fit, f(s, xs[0]), xs[1..]);
    }
  }

  /** What `f` gives for each element, in order. */
  function Flat<T, U>(f: T -> seq<U>, xs: seq<T>): seq<U> {
    if xs == [] then [] else f(xs[0]) + Flat(f, xs[1..])
  }

  lemma ConcatAssociates<T>(a: seq<T>, b: seq<T>, c: seq<T>)
    ensures a + (b + c) == a + b + c
  {
  }

  lemma {:induction false} FlatConcat<T, U>(f: T -> seq<U>, a: seq<T>, b: seq<T>)
    ensures Flat(f, a + b) == Flat(f, a) + Flat(f, b)
  {
    if a == [] {
      assert a + b == b;
    } else {
      FlatConcat(f, a[1..], b);
      assert (a + b)[1..] == a[1..] + b;
      ConcatAssociates(f(a[0]), Flat(f, a[1..]), Flat(f, b));
    }
  }

  lemma {:induction false} FlatMember<T, U>(f: T -> seq<U>, xs: seq<T>, y: U)
    ensures y in Flat(f, xs) <==> exists x :: x in xs && y in f(x)
  {
    if xs != [] {
      FlatMember(f, xs[1..], y);
      assert xs == [xs[0]] + xs[1..];
    }
  }

  lemma FlatNext<T, U>(f: T -> seq<U>, xs: seq<T>, i: nat)
    requires i < |xs|
    ensures Flat(f, xs[..i + 1]) == Flat(f, xs[..i]) + f(xs[i])
  {
    assert xs[..i + 1] == xs[..i] + [xs[i]];
    FlatConcat(f, xs[..i], [xs[i]]);
    assert Flat(f, [xs[i]]) == f(xs[i]) + [] == f(xs[i]);
  }

  function Map<T, V>(f: T -> V, xs: seq<T>): (ys: seq<V>)
    ensures |ys| == |xs|
  {
    seq(|xs|, i requires 0 <= i < |xs| => f(xs[i]))
  }

  lemma FlatMove<T, U>(f: T -> seq<U>, a: seq<T>, x: T, b: seq<T>)
    ensures multiset(Flat(f, a + [x] + b)) == multiset(f(x)) + multiset(Flat(f, a + b))
  {
    FlatConcat(f, a, b);
    FlatConcat(f, a + [x], b);
    FlatConcat(f, a, [x]);
    assert Flat(f, [x]) == f(x) + [] == f(x);
  }

  /** A list taken apart at an element it has. */
  lemma SplitAt<T>(xs: seq<T>, x: T) returns (a: seq<T>, b: seq<T>)
    requires x in xs
    ensures xs == a + [x] + b && multiset(a + b) == multiset(xs) - multiset{x}
  {
    var j :| 0 <= j < |xs| && xs[j] == x;
    a, b := xs[..j], xs[j + 1..];
    assert xs == a + [x] + b;
  }

  /** What a list comes to does not depend on the order of what it is made from. */
  lemma {:induction false} FlatMultiset<T, U>(f: T -> seq<U>, xs: seq<T>, ys: seq<T>)
    requires multiset(xs) == multiset(ys)
    ensures multiset(Flat(f, xs)) == multiset(Flat(f, ys))
  {
    if xs == [] {
      assert |multiset(ys)| == |ys|;
    } else {
      assert xs[0] in multiset(ys);
      var a, b := SplitAt(ys, xs[0]);
      assert xs == [xs[0]] + xs[1..];
      FlatMultiset(f, xs[1..], a + b);
      FlatMove(f, a, xs[0], b);
    }
  }

  lemma {:induction false} MapFlat<T, V>(f: T -> V, g: T -> seq<V>, xs: seq<T>)
    requires forall x :: g(x) == [f(x)]
    ensures Map(f, xs) == Flat(g, xs)
  {
    if xs != [] {
      MapFlat(f, g, xs[1..]);
      assert Map(f, xs) == [f(xs[0])] + Map(f, xs[1..]);
    }
  }

  lemma MapMultiset<T, V>(f: T -> V, xs: seq<T>, ys: seq<T>)
    requires multiset(xs) == multiset(ys)
    ensures multiset(Map(f, xs)) == multiset(Map(f, ys))
  {
    var g := (x: T) => [f(x)];
    MapFlat(f, g, xs);
    MapFlat(f, g, ys);
    FlatMultiset(g, xs, ys);
  }

  /** How many elements satisfy `p`. */
  function HowMany<T>(p: T -> bool, xs: seq<T>): nat {
    if xs == [] then 0 else (if p(xs[0]) then 1 else 0) + HowMany(p, xs[1..])
  }

  /** How often something comes up that only one of the elements, which stands there once, gives. */
  lemma {:induction false} FlatTimes<T(!new), U>(f: T -> seq<U>, xs: seq<T>, x: T, y: U)
    requires forall i, j :: 0 <= i < j < |xs| ==> xs[i] != xs[j]
    requires forall z :: z != x ==> y !in f(z)
    ensures multiset(Flat(f, xs))[y] == if x in xs then multiset(f(x))[y] else 0
  {
    if xs != [] {
      FlatTimes(f, xs[1..], x, y);
      assert xs == [xs[0]] + xs[1..];
      assert multiset(Flat(f, xs))[y] == multiset(f(xs[0]))[y] + multiset(Flat(f, xs[1..]))[y];
    }
  }

  /** How often something comes up that each element gives once or not at all. */
  lemma {:induction false} FlatHowMany<T(!new), U>(f: T -> seq<U>, p: T -> bool, xs: seq<T>, y: U)
    requires forall z :: multiset(f(z))[y] == if p(z) then 1 else 0
    ensures multiset(Flat(f, xs))[y] == HowMany(p, xs)
  {
    if xs != [] {
      FlatHowMany(f, p, xs[1..], y);
      assert multiset(Flat(f, xs))[y] == multiset(f(xs[0]))[y] + multiset(Flat(f, xs[1..]))[y];
    }
  }
}
