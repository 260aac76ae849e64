/**
 * Sorting by an order given as a function. `Sort` stands for the sorting functions of Go's
 * standard library where SortedIsUnique shows that the algorithm makes no difference; otherwise
 * the result is the arrangement of an arbitrary one.
 */
module Sorting {

  /** A total preorder. */
  ghost predicate Orders<T(!new)>(leq: (T, T) -> bool) {
    && (forall a, b :: leq(a, b) || leq(b, a))
    && forall a, b, c :: leq(a, b) && leq(b, c) ==> leq(a, c)
  }

  predicate Sorted<T>(s: seq<T>, leq: (T, T) -> bool) {
    forall i, j :: 0 <= i < j < |s| ==> leq(s[i], s[j])
  }

  /** Elements that count as equal are equal. */
  ghost predicate Separates<T(!new)>(leq: (T, T) -> bool, s: seq<T>) {
    forall a, b :: a in s && b in s && leq(a, b) && leq(b, a) ==> a == b
  }

  /** Before the first element that is greater. */
  function Insert<T>(x: T, s: seq<T>, leq: (T, T) -> bool): seq<T> {
    if s == [] then [x]
    else if leq(s[0], x) then [s[0]] + Insert(x, s[1..], leq)
    else [x] + s
  }

  function Sort<T>(s: seq<T>, leq: (T, T) -> bool): seq<T> {
    if s == [] then [] else Insert(s[|s| - 1], Sort(s[..|s| - 1], leq), leq)
  }

  lemma {:induction false} InsertKeeps<T>(x: T, s: seq<T>, leq: (T, T) -> bool)
    ensures multiset(Insert(x, s, leq)) == multiset(s) + multiset{x}
  {
    if s == [] {
    } else {
      assert s == [s[0]] + s[1..];
      if leq(s[0], x) { InsertKeeps(x, s[1..], leq); }
    }
  }

  lemma {:induction false} SortKeeps<T>(s: seq<T>, leq: (T, T) -> bool)
    ensures multiset(Sort(s, leq)) == multiset(s)
  {
    if s == [] {
    } else {
      assert s == s[..|s| - 1] + [s[|s| - 1]];
      SortKeeps(s[..|s| - 1], leq);
      InsertKeeps(s[|s| - 1], Sort(s[..|s| - 1], leq), leq);
    }
  }

  lemma {:induction false} InsertSorts<T(!new)>(x: T, s: seq<T>, leq: (T, T) -> bool)
    requires Orders(leq) && Sorted(s, leq)
    ensures Sorted(Insert(x, s, leq), leq)
  {
    if s == [] {
    } else {
      var r := Insert(x, s[1..], leq);
      if leq(s[0], x) {
        InsertSorts(x, s[1..], leq);
        InsertKeeps(x, s[1..], leq);
        forall j | 0 <= j < |r| ensures leq(s[0], r[j]) {
          assert r[j] in multiset(r);
          assert r[j] == x || r[j] in s[1..];
        }
      }
    }
  }

  lemma {:induction false} SortSorts<T(!new)>(s: seq<T>, leq: (T, T) -> bool)
    requires Orders(leq)
    ensures Sorted(Sort(s, leq), leq)
  {
    if s == [] {
    } else {
      SortSorts(s[..|s| - 1], leq);
      InsertSorts(s[|s| - 1], Sort(s[..|s| - 1], leq), leq);
    }
  }

  /** There is one way only to sort elements that the order separates. */
  lemma {:induction false} SortedIsUnique<T(!new)>(a: seq<T>, b: seq<T>, leq: (T, T) -> bool)
    requires Orders(leq) && multiset(a) == multiset(b) && Sorted(a, leq) && Sorted(b, leq) && Separates(leq, a)
    ensures a == b
  {
    hide Orders, Sorted, Separates;
    SameLength(a, b);
    if a == [] {
    } else {
      SameHead(a, b, leq);
      Tail(a, leq);
      Tail(b, leq);
      SortedIsUnique(a[1..], b[1..], leq);
    }
  }

  lemma {:induction false} Tail<T(!new)>(s: seq<T>, leq: (T, T) -> bool)
    requires s != [] && Sorted(s, leq)
    ensures s == [s[0]] + s[1..] && multiset(s[1..]) == multiset(s) - multiset{s[0]}
    ensures Sorted(s[1..], leq) && (Separates(leq, s) ==> Separates(leq, s[1..]))
  {
    assert s == [s[0]] + s[1..];
  }

  lemma {:induction false} SameHead<T(!new)>(a: seq<T>, b: seq<T>, leq: (T, T) -> bool)
    requires a != [] && b != [] && multiset(a) == multiset(b) && Sorted(a, leq) && Sorted(b, leq)
    requires Orders(leq) && Separates(leq, a)
    ensures a[0] == b[0]
  {
    SameElements(a, b);
    assert a[0] in b && b[0] in a;
    assert leq(a[0], b[0]) && leq(b[0], a[0]);
  }

  lemma {:induction false} SameLength<T>(a: seq<T>, b: seq<T>)
    requires multiset(a) == multiset(b)
    ensures |a| == |b|
  {
    assert |a| == |multiset(a)| && |b| == |multiset(b)|;
  }

  /** Sorting forgets the order the elements came in. */
  lemma {:induction false} SortForgets<T(!new)>(a: seq<T>, b: seq<T>, leq: (T, T) -> bool)
    requires Orders(leq) && multiset(a) == multiset(b) && Separates(leq, a)
    ensures Sort(a, leq) == Sort(b, leq)
  {
    SortKeeps(a, leq);
    SortKeeps(b, leq);
    SortSorts(a, leq);
    SortSorts(b, leq);
    SameElements(a, Sort(a, leq));
    SortedIsUnique(Sort(a, leq), Sort(b, leq), leq);
  }

  lemma {:induction false} SameElements<T>(a: seq<T>, b: seq<T>)
    requires multiset(a) == multiset(b)
    ensures forall x :: x in a <==> x in b
  {
    forall x ensures x in a <==> x in b {
      assert x in a <==> x in multiset(a);
      assert x in b <==> x in multiset(b);
    }
  }

  // ----- Images -----

  function Map<T, U>(f: T -> U, s: seq<T>): (r: seq<U>)
    ensures |r| == |s| && forall i :: 0 <= i < |s| ==> r[i] == f(s[i])
  {
    seq(|s|, i requires 0 <= i < |s| => f(s[i]))
  }

  lemma {:induction false} MapAppend<T, U>(f: T -> U, a: seq<T>, b: seq<T>)
    ensures Map(f, a + b) == Map(f, a) + Map(f, b)
  {
  }

  function Without<T>(s: seq<T>, j: nat): (r: seq<T>)
    requires j < |s|
    ensures |r| == |s| - 1
  {
    s[..j] + s[j + 1..]
  }

  lemma {:induction false} TakeOut<T>(s: seq<T>, j: nat)
    requires j < |s|
    ensures multiset(Without(s, j)) == multiset(s) - multiset{s[j]} && s[j] in multiset(s)
  {
    assert s == s[..j] + ([s[j]] + s[j + 1..]);
  }

  lemma {:induction false} MapTakeOut<T, U>(f: T -> U, s: seq<T>, j: nat)
    requires j < |s|
    ensures multiset(Map(f, Without(s, j))) == multiset(Map(f, s)) - multiset{f(s[j])} && f(s[j]) in multiset(Map(f, s))
  {
    TakeOut(Map(f, s), j);
    assert Map(f, Without(s, j)) == Without(Map(f, s), j);
  }

  lemma {:induction false} HeadIn<T>(a: seq<T>, b: seq<T>) returns (j: nat)
    requires multiset(a) == multiset(b) && a != []
    ensures j < |b| && b[j] == a[0]
  {
    SameElements(a, b);
    assert a[0] in b;
    j :| 0 <= j < |b| && b[j] == a[0];
  }

  /** The same elements have the same images. */
  lemma {:induction false} MapKeeps<T, U>(f: T -> U, a: seq<T>, b: seq<T>)
    requires multiset(a) == multiset(b)
    ensures multiset(Map(f, a)) == multiset(Map(f, b))
    decreases |a|
  {
    hide Map, Without;
    SameLength(a, b);
    if a == [] {
    } else {
      var j := HeadIn(a, b);
      TakeOut(a, 0);
      TakeOut(b, j);
      MapKeeps(f, Without(a, 0), Without(b, j));
      MapTakeOut(f, a, 0);
      MapTakeOut(f, b, j);
      Cancelled(multiset(Map(f, a)), multiset(Map(f, b)), f(a[0]));
    }
  }

  lemma {:induction false} Cancelled<U>(a: multiset<U>, b: multiset<U>, x: U)
    requires x in a && x in b && a - multiset{x} == b - multiset{x}
    ensures a == b
  {
    assert a == a - multiset{x} + multiset{x} && b == b - multiset{x} + multiset{x};
  }

  // ----- Arrangements -----

  function Indices(n: nat): (r: seq<nat>)
    ensures |r| == n && forall i :: 0 <= i < n ==> r[i] == i
  {
    seq(n, i requires 0 <= i < n => i)
  }

  /** Says which of n elements goes to each place. */
  predicate Arranges(order: seq<nat>, n: nat) {
    && |order| == n && (forall i :: 0 <= i < n ==> order[i] < n)
    && multiset(order) == multiset(Indices(n))
  }

  function Arranged<T>(s: seq<T>, order: seq<nat>): (r: seq<T>)
    requires Arranges(order, |s|)
    ensures |r| == |s| && forall i :: 0 <= i < |s| ==> r[i] == s[order[i]]
  {
    seq(|s|, i requires 0 <= i < |s| => s[order[i]])
  }

  lemma {:induction false} ArrangedKeeps<T>(s: seq<T>, order: seq<nat>)
    requires Arranges(order, |s|)
    ensures multiset(Arranged(s, order)) == multiset(s)
  {
    if s == [] {
    } else {
      var f := (i: nat) => if i < |s| then s[i] else s[0];
      MapKeeps(f, order, Indices(|s|));
      assert Map(f, order) == Arranged(s, order) && Map(f, Indices(|s|)) == s;
    }
  }

  /** Every element has its place. */
  lemma {:induction false} PlaceOf(order: seq<nat>, n: nat, i: nat) returns (place: nat)
    requires Arranges(order, n) && i < n
    ensures place < n && order[place] == i
  {
    SameElements(order, Indices(n));
    assert Indices(n)[i] in order;
    place :| 0 <= place < n && order[place] == i;
  }
}
