/** Stable sorting by a total preorder, as a library function: later elements go after equal earlier ones. */
module StableSort {

  ghost predicate TotalPreorder<T(!new)>(leq: (T, T) -> bool) {
    && (forall a, b :: leq(a, b) || leq(b, a))
    && forall a, b, c :: leq(a, b) && leq(b, c) ==> leq(a, c)
  }

  ghost predicate Ordered<T>(xs: seq<T>, leq: (T, T) -> bool) {
    forall i, j | 0 <= i < j < |xs| :: leq(xs[i], xs[j])
  }

  function Insert<T>(ys: seq<T>, x: T, leq: (T, T) -> bool): (r: seq<T>)
    ensures |r| == |ys| + 1
  {
    if ys == [] then [x]
    else if leq(ys[|ys| - 1], x) then ys + [x]
    else Insert(ys[..|ys| - 1], x, leq) + [ys[|ys| - 1]]
  }

  function Sorted<T>(xs: seq<T>, leq: (T, T) -> bool): (r: seq<T>)
    ensures |r| == |xs|
  {
    if xs == [] then [] else Insert(Sorted(xs[..|xs| - 1], leq), xs[|xs| - 1], leq)
  }

  lemma {:induction false} InsertPermutes<T>(ys: seq<T>, x: T, leq: (T, T) -> bool)
    ensures multiset(Insert(ys, x, leq)) == multiset(ys) + multiset{x}
  {
    if ys != [] && !leq(ys[|ys| - 1], x) {
      InsertPermutes(ys[..|ys| - 1], x, leq);
      assert ys == ys[..|ys| - 1] + [ys[|ys| - 1]];
    }
  }

  lemma {:induction false} SortedPermutes<T>(xs: seq<T>, leq: (T, T) -> bool)
    ensures multiset(Sorted(xs, leq)) == multiset(xs)
  {
    if xs != [] {
      var prior, last := xs[..|xs| - 1], xs[|xs| - 1];
      SortedPermutes(prior, leq);
      InsertPermutes(Sorted(prior, leq), last, leq);
      assert xs == prior + [last];
    }
  }

  lemma {:induction false} InsertBelow<T>(ys: seq<T>, x: T, top: T, leq: (T, T) -> bool)
    requires leq(x, top) && forall i | 0 <= i < |ys| :: leq(ys[i], top)
    ensures forall i | 0 <= i <= |ys| :: leq(Insert(ys, x, leq)[i], top)
  {
    if ys != [] && !leq(ys[|ys| - 1], x) { InsertBelow(ys[..|ys| - 1], x, top, leq); }
  }

  lemma {:induction false} InsertOrdered<T(!new)>(ys: seq<T>, x: T, leq: (T, T) -> bool)
    requires TotalPreorder(leq) && Ordered(ys, leq)
    ensures Ordered(Insert(ys, x, leq), leq)
  {
    if ys != [] {
      var n := |ys| - 1;
      if leq(ys[n], x) {
        forall i | 0 <= i < |ys| ensures leq(ys[i], x) { assert i == n || leq(ys[i], ys[n]); }
      } else {
        InsertOrdered(ys[..n], x, leq);
        InsertBelow(ys[..n], x, ys[n], leq);
      }
    }
  }

  lemma {:induction false} SortedOrdered<T(!new)>(xs: seq<T>, leq: (T, T) -> bool)
    requires TotalPreorder(leq)
    ensures Ordered(Sorted(xs, leq), leq)
  {
    if xs != [] {
      SortedOrdered(xs[..|xs| - 1], leq);
      InsertOrdered(Sorted(xs[..|xs| - 1], leq), xs[|xs| - 1], leq);
    }
  }

  lemma {:induction false} SortedMembers<T>(xs: seq<T>, leq: (T, T) -> bool)
    ensures forall x :: x in Sorted(xs, leq) <==> x in xs
  {
    SortedPermutes(xs, leq);
    forall x ensures x in Sorted(xs, leq) <==> x in xs {
      assert x in Sorted(xs, leq) <==> x in multiset(Sorted(xs, leq));
      assert x in xs <==> x in multiset(xs);
    }
  }

  /** The elements that satisfy `p`, in order. */
  function Filter<T(!new)>(xs: seq<T>, p: T -> bool): (r: seq<T>)
    ensures forall x :: x in r <==> x in xs && p(x)
  {
    if xs == [] then []
    else
      var n := |xs| - 1;
      assert xs == xs[..n] + [xs[n]];
      if p(xs[n]) then Filter(xs[..n], p) + [xs[n]] else Filter(xs[..n], p)
  }

  /** Sorting keeps the given order among elements that tie with each other. */
  lemma {:induction false} SortedStable<T(!new)>(xs: seq<T>, leq: (T, T) -> bool, p: T -> bool)
    requires forall a, b :: p(a) && p(b) ==> leq(a, b)
    ensures Filter(Sorted(xs, leq), p) == Filter(xs, p)
  {
    if xs != [] {
      SortedStable(xs[..|xs| - 1], leq, p);
      InsertStable(Sorted(xs[..|xs| - 1], leq), xs[|xs| - 1], leq, p);
    }
  }

  lemma {:induction false} InsertStable<T(!new)>(ys: seq<T>, x: T, leq: (T, T) -> bool, p: T -> bool)
    requires forall a, b :: p(a) && p(b) ==> leq(a, b)
    ensures Filter(Insert(ys, x, leq), p) == Filter(ys, p) + if p(x) then [x] else []
  {
    var n := |ys| - 1;
    if ys == [] {
      assert [x][..0] == [];
    } else if leq(ys[n], x) {
      assert (ys + [x])[..|ys|] == ys;
    } else {
      InsertStable(ys[..n], x, leq, p);
      var front := Insert(ys[..n], x, leq);
      assert (front + [ys[n]])[..|front|] == front;
    }
  }

  lemma {:induction false} FilterDistinct<T(!new)>(xs: seq<T>, p: T -> bool)
    requires Distinct(xs)
    ensures Distinct(Filter(xs, p))
  {
    if xs != [] {
      var n := |xs| - 1;
      FilterDistinct(xs[..n], p);
      assert xs[n] !in Filter(xs[..n], p);
    }
  }

  ghost predicate Distinct<T>(xs: seq<T>) { forall i, j | 0 <= i < j < |xs| :: xs[i] != xs[j] }

  lemma {:induction false} DistinctCount<T>(xs: seq<T>)
    ensures Distinct(xs) <==> forall x :: multiset(xs)[x] <= 1
  {
    if Distinct(xs) {
      forall x ensures multiset(xs)[x] <= 1 { DistinctOnce(xs, x); }
    } else {
      var i, j :| 0 <= i < j < |xs| && xs[i] == xs[j];
      assert xs == xs[..i] + [xs[i]] + xs[i + 1..j] + [xs[j]] + xs[j + 1..];
      assert multiset(xs)[xs[i]] >= 2;
    }
  }

  lemma {:induction false} DistinctOnce<T>(xs: seq<T>, x: T)
    requires Distinct(xs)
    ensures multiset(xs)[x] <= 1
  {
    if xs != [] {
      var n := |xs| - 1;
      DistinctOnce(xs[..n], x);
      assert xs == xs[..n] + [xs[n]];
      if xs[n] == x { assert x !in xs[..n]; }
    }
  }

  lemma {:induction false} SortedDistinct<T>(xs: seq<T>, leq: (T, T) -> bool)
    requires Distinct(xs)
    ensures Distinct(Sorted(xs, leq))
  {
    SortedPermutes(xs, leq);
    DistinctCount(xs);
    DistinctCount(Sorted(xs, leq));
  }

  /** Taking one equal element out of each of two permutations leaves permutations. */
  lemma {:induction false} TakenOut<T>(a: seq<T>, b: seq<T>, k: nat)
    requires multiset(a) == multiset(b) && a != [] && k < |b| && b[k] == a[|a| - 1]
    ensures multiset(a[..|a| - 1]) == multiset(b[..k] + b[k + 1..])
    ensures b == b[..k] + [b[k]] + b[k + 1..] && a == a[..|a| - 1] + [a[|a| - 1]]
  {
    var last, prior, left, right := b[k], a[..|a| - 1], b[..k], b[k + 1..];
    assert a == prior + [last];
    assert b == left + [last] + right;
    var m, n := multiset(prior), multiset(left) + multiset(right);
    assert m + multiset{last} == n + multiset{last};
    CancelOne(m, n, last);
  }

  lemma {:induction false} CancelOne<T>(m: multiset<T>, n: multiset<T>, x: T)
    requires m + multiset{x} == n + multiset{x}
    ensures m == n
  {
    assert m == (m + multiset{x}) - multiset{x};
    assert n == (n + multiset{x}) - multiset{x};
  }

  function Map<T, U>(f: T -> U, xs: seq<T>): seq<U> { seq(|xs|, i requires 0 <= i < |xs| => f(xs[i])) }

  lemma {:induction false} MapConcat<T, U>(f: T -> U, a: seq<T>, b: seq<T>)
    ensures Map(f, a + b) == Map(f, a) + Map(f, b)
  {
  }

  lemma {:induction false} MapPermutes<T, U>(f: T -> U, a: seq<T>, b: seq<T>)
    requires multiset(a) == multiset(b)
    ensures multiset(Map(f, a)) == multiset(Map(f, b))
    decreases |a|
  {
    if a == [] {
      assert |multiset(b)| == 0;
      assert b == [];
    } else {
      var n := |a| - 1;
      assert a == a[..n] + [a[n]];
      assert a[n] in multiset(b);
      var k :| 0 <= k < |b| && b[k] == a[n];
      TakenOut(a, b, k);
      MapPermutes(f, a[..n], b[..k] + b[k + 1..]);
      MapConcat(f, a[..n], [a[n]]);
      MapConcat(f, b[..k], b[k + 1..]);
      MapConcat(f, b[..k], [b[k]]);
      MapConcat(f, b[..k] + [b[k]], b[k + 1..]);
    }
  }

  /** Ordered, and no two positions tie. */
  ghost predicate StrictlyOrdered<T>(xs: seq<T>, leq: (T, T) -> bool) {
    forall i, j | 0 <= i < j < |xs| :: leq(xs[i], xs[j]) && !leq(xs[j], xs[i])
  }

  lemma {:induction false} LastEqual<T>(a: seq<T>, b: seq<T>, leq: (T, T) -> bool)
    requires multiset(a) == multiset(b) && StrictlyOrdered(a, leq) && Ordered(b, leq) && a != [] && |a| == |b|
    ensures a[|a| - 1] == b[|b| - 1]
  {
    var n := |a| - 1;
    assert a[n] in multiset(b) && b[n] in multiset(a);
    var k :| 0 <= k < |b| && b[k] == a[n];
    var j :| 0 <= j < |a| && a[j] == b[n];
    assert k < n ==> leq(b[k], b[n]);
    assert j < n ==> !leq(a[n], a[j]);
  }

  /** A permutation without ties has only one ordered arrangement. */
  lemma {:induction false} OrderedUnique<T>(a: seq<T>, b: seq<T>, leq: (T, T) -> bool)
    requires multiset(a) == multiset(b) && StrictlyOrdered(a, leq) && Ordered(b, leq)
    ensures a == b
    decreases |a|
  {
    assert |multiset(a)| == |a| && |multiset(b)| == |b|;
    if a != [] {
      var n := |a| - 1;
      LastEqual(a, b, leq);
      TakenOut(a, b, n);
      assert b[..n] + b[n + 1..] == b[..n];
      OrderedUnique(a[..n], b[..n], leq);
    }
  }
}
