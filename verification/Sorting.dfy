/** Sorting by an order given as a function, and the order on strings that the scanner sorts by. */
module Sorting {

  ghost predicate Preorder<T(!new)>(leq: (T, T) -> bool) {
    && (forall x, y :: leq(x, y) || leq(y, x))
    && (forall x, y, z :: leq(x, y) && leq(y, z) ==> leq(x, z))
  }

  ghost predicate TotalOrder<T(!new)>(leq: (T, T) -> bool) {
    && Preorder(leq)
    && (forall x, y :: leq(x, y) && leq(y, x) ==> x == y)
  }

  ghost predicate SortedBy<T>(xs: seq<T>, leq: (T, T) -> bool) {
    forall i, j :: 0 <= i < j < |xs| ==> leq(xs[i], xs[j])
  }

  /** Puts `x` before the first element that is not strictly below it. */
  function Insert<T>(x: T, xs: seq<T>, leq: (T, T) -> bool): seq<T> {
    if xs == [] then [x]
    else if leq(x, xs[0]) then [x] + xs
    else [xs[0]] + Insert(x, xs[1..], leq)
  }

  /** The stable sort. */
  function Sort<T>(xs: seq<T>, leq: (T, T) -> bool): seq<T> {
    if xs == [] then [] else Insert(xs[0], Sort(xs[1..], leq), leq)
  }

  lemma {:induction false} InsertMultiset<T>(x: T, xs: seq<T>, leq: (T, T) -> bool)
    ensures multiset(Insert(x, xs, leq)) == multiset(xs) + multiset{x}
  {
    if xs != [] && !leq(x, xs[0]) {
      InsertMultiset(x, xs[1..], leq);
      assert xs == [xs[0]] + xs[1..];
    }
  }

  lemma {:induction false} SortMultiset<T>(xs: seq<T>, leq: (T, T) -> bool)
    ensures multiset(Sort(xs, leq)) == multiset(xs)
  {
    if xs != [] {
      SortMultiset(xs[1..], leq);
      InsertMultiset(xs[0], Sort(xs[1..], leq), leq);
      assert xs == [xs[0]] + xs[1..];
    }
  }

  lemma SortMembers<T>(xs: seq<T>, leq: (T, T) -> bool)
    ensures |Sort(xs, leq)| == |xs|
    ensures forall x :: x in Sort(xs, leq) <==> x in xs
  {
    SortMultiset(xs, leq);
    assert |multiset(Sort(xs, leq))| == |multiset(xs)|;
    forall x
      ensures x in Sort(xs, leq) <==> x in xs
    {
      assert x in Sort(xs, leq) <==> x in multiset(Sort(xs, leq));
      assert x in xs <==> x in multiset(xs);
    }
  }

  lemma {:induction false} InsertSorted<T(!new)>(x: T, xs: seq<T>, leq: (T, T) -> bool)
    requires Preorder(leq) && SortedBy(xs, leq)
    ensures SortedBy(Insert(x, xs, leq), leq)
  {
    if xs == [] {
    } else if leq(x, xs[0]) {
      forall i | 0 <= i < |xs|
        ensures leq(x, xs[i])
      {
        assert i > 0 ==> leq(xs[0], xs[i]);
      }
    } else {
      var rest := xs[1..];
      InsertSorted(x, rest, leq);
      InsertMultiset(x, rest, leq);
      var tail := Insert(x, rest, leq);
      forall i | 0 <= i < |tail|
        ensures leq(xs[0], tail[i])
      {
        assert tail[i] in multiset(tail);
        if tail[i] != x {
          assert tail[i] in rest;
        }
      }
    }
  }

  lemma {:induction false} SortSorts<T(!new)>(xs: seq<T>, leq: (T, T) -> bool)
    requires Preorder(leq)
    ensures SortedBy(Sort(xs, leq), leq)
  {
    if xs != [] {
      SortSorts(xs[1..], leq);
      InsertSorted(xs[0], Sort(xs[1..], leq), leq);
    }
  }

  /** Two sorted arrangements of the same elements are equal. */
  lemma {:induction false} SortedUnique<T(!new)>(xs: seq<T>, ys: seq<T>, leq: (T, T) -> bool)
    requires TotalOrder(leq) && SortedBy(xs, leq) && SortedBy(ys, leq)
    requires multiset(xs) == multiset(ys)
    ensures xs == ys
  {
    assert |xs| == |multiset(xs)| == |multiset(ys)| == |ys|;
    if xs != [] {
      assert xs[0] in multiset(ys) && ys[0] in multiset(xs);
      assert leq(xs[0], ys[0]) && leq(ys[0], xs[0]);
      assert xs == [xs[0]] + xs[1..] && ys == [ys[0]] + ys[1..];
      assert multiset(xs[1..]) == multiset(xs) - multiset{xs[0]};
      assert multiset(ys[1..]) == multiset(ys) - multiset{ys[0]};
      SortedUnique(xs[1..], ys[1..], leq);
    }
  }

  /** Sorting forgets the order of its input, and nothing else. */
  lemma SortEqualIffPermuted<T(!new)>(xs: seq<T>, ys: seq<T>, leq: (T, T) -> bool)
    requires TotalOrder(leq)
    ensures Sort(xs, leq) == Sort(ys, leq) <==> multiset(xs) == multiset(ys)
  {
    SortMultiset(xs, leq);
    SortMultiset(ys, leq);
    SortSorts(xs, leq);
    SortSorts(ys, leq);
    if multiset(xs) == multiset(ys) {
      SortedUnique(Sort(xs, leq), Sort(ys, leq), leq);
    }
  }

  /** Takes one occurrence of `x` out of `ys`. */
  lemma PullOut<A>(x: A, ys: seq<A>) returns (l: seq<A>, r: seq<A>)
    requires x in multiset(ys)
    ensures ys == l + ([x] + r)
    ensures multiset(l + r) == multiset(ys) - multiset{x}
  {
    var k :| 0 <= k < |ys| && ys[k] == x;
    l, r := ys[..k], ys[k + 1..];
  }

  // ---------------------------------------------------------------------------

  /** Code-point order on strings. */
  predicate StringLeq(a: string, b: string) {
    if a == [] then true
    else if b == [] then false
    else if a[0] != b[0] then a[0] < b[0]
    else StringLeq(a[1..], b[1..])
  }

  lemma {:induction false} StringLeqTotal(a: string, b: string)
    ensures StringLeq(a, b) || StringLeq(b, a)
    ensures StringLeq(a, b) && StringLeq(b, a) ==> a == b
  {
    if a != [] && b != [] {
      StringLeqTotal(a[1..], b[1..]);
      assert a == [a[0]] + a[1..] && b == [b[0]] + b[1..];
    }
  }

  lemma {:induction false} StringLeqTransitive(a: string, b: string, c: string)
    requires StringLeq(a, b) && StringLeq(b, c)
    ensures StringLeq(a, c)
  {
    if a != [] && b != [] && c != [] && a[0] == b[0] == c[0] {
      StringLeqTransitive(a[1..], b[1..], c[1..]);
    }
  }

  lemma StringOrder()
    ensures TotalOrder(StringLeq)
  {
    forall a: string, b: string
      ensures StringLeq(a, b) || StringLeq(b, a)
      ensures StringLeq(a, b) && StringLeq(b, a) ==> a == b
    {
      StringLeqTotal(a, b);
    }
    forall a: string, b: string, c: string | StringLeq(a, b) && StringLeq(b, c)
      ensures StringLeq(a, c)
    {
      StringLeqTransitive(a, b, c);
    }
  }
}
