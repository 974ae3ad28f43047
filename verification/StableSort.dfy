/** Python's `list.sort` as a stable insertion sort by any total preorder: it keeps the elements, orders them, and
    keeps the order of those the preorder does not tell apart. */
module StableSort {

  /** `x` in front of the first element that it does not have to follow. */
  function InsertBy<T>(leq: (T, T) -> bool, x: T, xs: seq<T>): seq<T> {
    if xs == [] then [x] else if leq(x, xs[0]) then [x] + xs else [xs[0]] + InsertBy(leq, x, xs[1..])
  }

  function SortBy<T>(leq: (T, T) -> bool, xs: seq<T>): seq<T> {
    if xs == [] then [] else InsertBy(leq, xs[0], SortBy(leq, xs[1..]))
  }

  ghost predicate Preorder<T(!new)>(leq: (T, T) -> bool) {
    && (forall a, b {:trigger leq(a, b)} :: leq(a, b) || leq(b, a))
    && (forall a, b, c {:trigger leq(a, b), leq(b, c)} :: leq(a, b) && leq(b, c) ==> leq(a, c))
  }

  /** Every element stands in the relation to every later one. */
  ghost predicate Pairwise<T>(r: (T, T) -> bool, xs: seq<T>) {
    forall i, j :: 0 <= i < j < |xs| ==> r(xs[i], xs[j])
  }

  /** In order, and where the order does not tell two elements apart, in relation `r`. */
  ghost predicate Ordered<T>(leq: (T, T) -> bool, r: (T, T) -> bool, xs: seq<T>) {
    forall i, j :: 0 <= i < j < |xs| ==> leq(xs[i], xs[j]) && (leq(xs[j], xs[i]) ==> r(xs[i], xs[j]))
  }

  lemma {:induction false} InsertElements<T>(leq: (T, T) -> bool, x: T, xs: seq<T>)
    ensures multiset(InsertBy(leq, x, xs)) == multiset(xs) + multiset{x}
  {
    if xs != [] {
      assert xs == [xs[0]] + xs[1..];
      if !leq(x, xs[0]) {
        InsertElements(leq, x, xs[1..]);
      }
    }
  }

  lemma {:induction false} SortElements<T>(leq: (T, T) -> bool, xs: seq<T>)
    ensures multiset(SortBy(leq, xs)) == multiset(xs)
  {
    if xs != [] {
      SortElements(leq, xs[1..]);
      InsertElements(leq, xs[0], SortBy(leq, xs[1..]));
      assert xs == [xs[0]] + xs[1..];
    }
  }

  lemma SortMembers<T>(leq: (T, T) -> bool, xs: seq<T>)
    ensures |SortBy(leq, xs)| == |xs| && forall x :: x in SortBy(leq, xs) <==> x in xs
  {
    SortElements(leq, xs);
    assert forall x :: x in SortBy(leq, xs) <==> x in multiset(SortBy(leq, xs));
    assert forall x :: x in xs <==> x in multiset(xs);
    assert |multiset(SortBy(leq, xs))| == |SortBy(leq, xs)|;
  }

  lemma OrderedCons<T>(leq: (T, T) -> bool, r: (T, T) -> bool, x: T, xs: seq<T>)
    requires Ordered(leq, r, xs)
    requires forall k :: 0 <= k < |xs| ==> leq(x, xs[k]) && (leq(xs[k], x) ==> r(x, xs[k]))
    ensures Ordered(leq, r, [x] + xs)
  {
  }

  lemma {:induction false} InsertOrdered<T(!new)>(leq: (T, T) -> bool, r: (T, T) -> bool, x: T, xs: seq<T>)
    requires Preorder(leq) && Ordered(leq, r, xs) && forall k :: 0 <= k < |xs| ==> r(x, xs[k])
    ensures Ordered(leq, r, InsertBy(leq, x, xs))
  {
    if xs != [] {
      if leq(x, xs[0]) {
        forall k | 0 <= k < |xs| ensures leq(x, xs[k]) {
          assert leq(xs[0], xs[k]);
        }
        OrderedCons(leq, r, x, xs);
      } else {
        var rest := InsertBy(leq, x, xs[1..]);
        InsertOrdered(leq, r, x, xs[1..]);
        InsertElements(leq, x, xs[1..]);
        forall k | 0 <= k < |rest| ensures leq(xs[0], rest[k]) && (leq(rest[k], xs[0]) ==> r(xs[0], rest[k])) {
          assert rest[k] in multiset(rest);
          if rest[k] != x {
            var m :| 0 <= m < |xs[1..]| && xs[1..][m] == rest[k];
            assert rest[k] == xs[m + 1];
          }
        }
        OrderedCons(leq, r, xs[0], rest);
      }
    }
  }

  /** Sorting orders the elements and keeps the relation the list had between those the order does not tell apart. */
  lemma {:induction false} SortOrdered<T(!new)>(leq: (T, T) -> bool, r: (T, T) -> bool, xs: seq<T>)
    requires Preorder(leq) && Pairwise(r, xs)
    ensures Ordered(leq, r, SortBy(leq, xs))
  {
    if xs != [] {
      var rest := SortBy(leq, xs[1..]);
      SortOrdered(leq, r, xs[1..]);
      SortMembers(leq, xs[1..]);
      forall k | 0 <= k < |rest| ensures r(xs[0], rest[k]) {
        assert rest[k] in xs[1..];
        var m :| 0 <= m < |xs[1..]| && xs[1..][m] == rest[k];
        assert rest[k] == xs[m + 1];
      }
      InsertOrdered(leq, r, xs[0], rest);
    }
  }

  lemma TailOf<T(!new)>(lt: (T, T) -> bool, s: seq<T>, x: T)
    requires forall x, y :: lt(x, y) ==> !lt(y, x)
    requires Pairwise(lt, s) && s != []
    ensures x in s[1..] <==> x in s && x != s[0]
  {
    if x in s[1..] {
      var i :| 0 <= i < |s[1..]| && s[1..][i] == x;
      assert s[i + 1] == x && lt(s[0], s[i + 1]);
    }
  }

  /** A strict order of all elements leaves one list of them. */
  lemma {:induction false} PairwiseUnique<T(!new)>(lt: (T, T) -> bool, a: seq<T>, b: seq<T>)
    requires forall x, y :: lt(x, y) ==> !lt(y, x)
    requires Pairwise(lt, a) && Pairwise(lt, b) && forall x :: x in a <==> x in b
    ensures a == b
  {
    assert b != [] ==> b[0] in b;
    if a != [] {
      assert a[0] in b;
      assert b[0] in a;
      assert a[0] == b[0];
      forall x ensures x in a[1..] <==> x in b[1..] {
        TailOf(lt, a, x);
        TailOf(lt, b, x);
      }
      PairwiseUnique(lt, a[1..], b[1..]);
      assert a == [a[0]] + a[1..] && b == [b[0]] + b[1..];
    }
  }

  lemma FirstLeast<T>(leq: (T, T) -> bool, s: seq<T>, x: T)
    requires Pairwise(leq, s) && x in s
    ensures x == s[0] || leq(s[0], x)
  {
    var i :| 0 <= i < |s| && s[i] == x;
    assert i > 0 ==> leq(s[0], s[i]);
  }

  lemma HeadsSame<T>(leq: (T, T) -> bool, a: seq<T>, b: seq<T>)
    requires Pairwise(leq, a) && Pairwise(leq, b) && multiset(a) == multiset(b) && a != []
    requires forall x, y :: x in a && y in a && leq(x, y) && leq(y, x) ==> x == y
    ensures b != [] && a[0] == b[0] && multiset(a[1..]) == multiset(b[1..])
  {
    assert a[0] in multiset(b);
    assert b[0] in multiset(a);
    FirstLeast(leq, a, b[0]);
    FirstLeast(leq, b, a[0]);
    assert a == [a[0]] + a[1..] && b == [b[0]] + b[1..];
    assert multiset(a[1..]) == multiset(a) - multiset{a[0]};
    assert multiset(b[1..]) == multiset(b) - multiset{b[0]};
  }

  /** A preorder that tells the elements apart leaves one list of them, repeats and all. */
  lemma {:induction false} SortedUnique<T(!new)>(leq: (T, T) -> bool, a: seq<T>, b: seq<T>)
    requires Pairwise(leq, a) && Pairwise(leq, b) && multiset(a) == multiset(b)
    requires forall x, y :: x in a && y in a && leq(x, y) && leq(y, x) ==> x == y
    ensures a == b
  {
    assert |multiset(a)| == |a| && |multiset(b)| == |b|;
    if a != [] {
      HeadsSame(leq, a, b);
      SortedUnique(leq, a[1..], b[1..]);
      assert a == [a[0]] + a[1..] && b == [b[0]] + b[1..];
    }
  }

  // ---------------------------------------------------------------- stability

  /** Two lists that differ in the order of two neighbours. */
  ghost predicate Swapped<T>(s: seq<T>, t: seq<T>, a: T, b: T, p: seq<T>, q: seq<T>) {
    s == p + [a, b] + q && t == p + [b, a] + q
  }

  ghost predicate Tie<T>(leq: (T, T) -> bool, a: T, b: T) {
    leq(a, b) && leq(b, a)
  }

  lemma InsertPast<T(!new)>(leq: (T, T) -> bool, x: T, a: T, b: T, q: seq<T>)
    requires Preorder(leq) && Tie(leq, a, b)
    ensures InsertBy(leq, x, [a, b] + q) == if leq(x, a) then [x, a, b] + q else [a, b] + InsertBy(leq, x, q)
  {
    assert ([a, b] + q)[1..] == [b] + q && ([b] + q)[1..] == q;
    assert leq(x, a) <==> leq(x, b);
  }

  /** Nothing is inserted between two neighbours that the order does not tell apart. */
  lemma {:induction false} InsertSwapped<T(!new)>(
    leq: (T, T) -> bool, x: T, s: seq<T>, t: seq<T>, a: T, b: T, p: seq<T>, q: seq<T>)
    returns (p': seq<T>, q': seq<T>)
    requires Preorder(leq) && Tie(leq, a, b) && Swapped(s, t, a, b, p, q)
    ensures Swapped(InsertBy(leq, x, s), InsertBy(leq, x, t), a, b, p', q')
    decreases |p|
  {
    if p == [] {
      assert s == [a, b] + q && t == [b, a] + q;
      InsertPast(leq, x, a, b, q);
      InsertPast(leq, x, b, a, q);
      assert leq(x, a) <==> leq(x, b);
      p', q' := if leq(x, a) then [x] else [], if leq(x, a) then q else InsertBy(leq, x, q);
    } else if leq(x, p[0]) {
      p', q' := [x] + p, q;
    } else {
      var r, u := InsertSwapped(leq, x, s[1..], t[1..], a, b, p[1..], q);
      p', q' := [p[0]] + r, u;
    }
  }

  lemma {:induction false} TieFront<T(!new)>(leq: (T, T) -> bool, a: T, b: T, xs: seq<T>)
    returns (p: seq<T>, q: seq<T>)
    requires Preorder(leq) && Tie(leq, a, b)
    ensures Swapped(InsertBy(leq, a, InsertBy(leq, b, xs)), InsertBy(leq, b, InsertBy(leq, a, xs)), a, b, p, q)
  {
    if xs == [] || leq(b, xs[0]) {
      p, q := [], xs;
    } else {
      var r, u := TieFront(leq, a, b, xs[1..]);
      p, q := [xs[0]] + r, u;
    }
  }

  /** The sort is stable: two elements that it does not tell apart come out, next to each other, as they came in. */
  lemma {:induction false} SortSwapped<T(!new)>(
    leq: (T, T) -> bool, s: seq<T>, t: seq<T>, a: T, b: T, p: seq<T>, q: seq<T>)
    returns (p': seq<T>, q': seq<T>)
    requires Preorder(leq) && Tie(leq, a, b) && Swapped(s, t, a, b, p, q)
    ensures Swapped(SortBy(leq, s), SortBy(leq, t), a, b, p', q')
    decreases |p|
  {
    if p == [] {
      assert s[1..] == [b] + q && t[1..] == [a] + q && ([b] + q)[1..] == q && ([a] + q)[1..] == q;
      p', q' := TieFront(leq, a, b, SortBy(leq, q));
    } else {
      var r, u := SortSwapped(leq, s[1..], t[1..], a, b, p[1..], q);
      p', q' := InsertSwapped(leq, p[0], SortBy(leq, s[1..]), SortBy(leq, t[1..]), a, b, r, u);
    }
  }

  /** `n` such exchanges of `a` and `b` lead from one list to the other. */
  ghost predicate Chain<T(!new)>(s: seq<T>, t: seq<T>, a: T, b: T, n: nat)
    decreases n
  {
    if n == 0 then s == t
    else exists u, p, q :: Swapped(s, u, a, b, p, q) && Chain(u, t, a, b, n - 1)
  }

  lemma {:induction false} ChainSort<T(!new)>(leq: (T, T) -> bool, s: seq<T>, t: seq<T>, a: T, b: T, n: nat)
    requires Preorder(leq) && Tie(leq, a, b) && Chain(s, t, a, b, n)
    ensures Chain(SortBy(leq, s), SortBy(leq, t), a, b, n)
    decreases n
  {
    if n > 0 {
      var u, p, q :| Swapped(s, u, a, b, p, q) && Chain(u, t, a, b, n - 1);
      var v, w := SortSwapped(leq, s, u, a, b, p, q);
      ChainSort(leq, u, t, a, b, n - 1);
    }
  }

  lemma {:induction false} ChainRight<T(!new)>(h: seq<T>, s: seq<T>, t: seq<T>, a: T, b: T, n: nat)
    requires Chain(s, t, a, b, n)
    ensures Chain(h + s, h + t, a, b, n)
    decreases n
  {
    if n > 0 {
      var u, p, q :| Swapped(s, u, a, b, p, q) && Chain(u, t, a, b, n - 1);
      assert h + (p + [a, b] + q) == h + p + [a, b] + q && h + (p + [b, a] + q) == h + p + [b, a] + q;
      assert Swapped(h + s, h + u, a, b, h + p, q);
      ChainRight(h, u, t, a, b, n - 1);
    }
  }

  /** One exchange in the front part, and then those of the rest. */
  lemma ChainFront<T(!new)>(
    x: seq<T>, y: seq<T>, s: seq<T>, t: seq<T>, a: T, b: T, p: seq<T>, q: seq<T>, n: nat)
    requires Swapped(x, y, a, b, p, q) && Chain(s, t, a, b, n)
    ensures Chain(x + s, y + t, a, b, n + 1)
  {
    ChainRight(y, s, t, a, b, n);
    assert p + [a, b] + q + s == p + [a, b] + (q + s) && p + [b, a] + q + s == p + [b, a] + (q + s);
    assert Swapped(x + s, y + s, a, b, p, q + s);
  }

  lemma {:induction false} ChainLength<T(!new)>(s: seq<T>, t: seq<T>, a: T, b: T, n: nat)
    requires Chain(s, t, a, b, n)
    ensures |s| == |t|
    decreases n
  {
    if n > 0 {
      var u, p, q :| Swapped(s, u, a, b, p, q) && Chain(u, t, a, b, n - 1);
      ChainLength(u, t, a, b, n - 1);
    }
  }
}
