/** Python's stable sort: `mayPrecede(a, b)` says that `a` need not move behind `b`. */
module Sorting {
  import opened Domain

  ghost predicate TotalPreorder<T(!new)>(mayPrecede: (T, T) -> bool) {
    && (forall a, b :: mayPrecede(a, b) || mayPrecede(b, a))
    && (forall a, b, c :: mayPrecede(a, b) && mayPrecede(b, c) ==> mayPrecede(a, c))
  }

  ghost predicate Ordered<T(!new)>(xs: seq<T>, mayPrecede: (T, T) -> bool) {
    forall i, j :: 0 <= i < j < |xs| ==> mayPrecede(xs[i], xs[j])
  }

  function Insert<T>(x: T, xs: seq<T>, mayPrecede: (T, T) -> bool): seq<T> {
    if xs == [] || mayPrecede(x, xs[0]) then [x] + xs
    else [xs[0]] + Insert(x, xs[1..], mayPrecede)
  }

  function Sort<T>(xs: seq<T>, mayPrecede: (T, T) -> bool): seq<T> {
    if xs == [] then [] else Insert(xs[0], Sort(xs[1..], mayPrecede), mayPrecede)
  }

  lemma {:induction false} InsertPermutes<T>(x: T, xs: seq<T>, mayPrecede: (T, T) -> bool)
    ensures multiset(Insert(x, xs, mayPrecede)) == multiset([x] + xs)
  {
    if xs != [] && !mayPrecede(x, xs[0]) {
      InsertPermutes(x, xs[1..], mayPrecede);
      assert xs == [xs[0]] + xs[1..];
    }
  }

  lemma {:induction false} SortPermutes<T>(xs: seq<T>, mayPrecede: (T, T) -> bool)
    ensures multiset(Sort(xs, mayPrecede)) == multiset(xs)
  {
    if xs != [] {
      SortPermutes(xs[1..], mayPrecede);
      InsertPermutes(xs[0], Sort(xs[1..], mayPrecede), mayPrecede);
      assert xs == [xs[0]] + xs[1..];
    }
  }

  lemma SortLength<T>(xs: seq<T>, mayPrecede: (T, T) -> bool)
    ensures |Sort(xs, mayPrecede)| == |xs|
  {
    hide Sort;
    SortPermutes(xs, mayPrecede);
    assert |multiset(Sort(xs, mayPrecede))| == |multiset(xs)|;
  }

  lemma {:induction false} InsertOrdered<T(!new)>(x: T, xs: seq<T>, mayPrecede: (T, T) -> bool)
    requires TotalPreorder(mayPrecede) && Ordered(xs, mayPrecede)
    ensures Ordered(Insert(x, xs, mayPrecede), mayPrecede)
  {
    if xs != [] && !mayPrecede(x, xs[0]) {
      InsertOrdered(x, xs[1..], mayPrecede);
      InsertPermutes(x, xs[1..], mayPrecede);
      var rest := Insert(x, xs[1..], mayPrecede);
      forall j | 0 <= j < |rest| ensures mayPrecede(xs[0], rest[j]) {
        assert rest[j] in multiset([x] + xs[1..]);
        assert rest[j] in [x] + xs[1..];
      }
    } else if xs != [] {
      assert forall j :: 0 <= j < |xs| ==> mayPrecede(xs[0], xs[j]) || j == 0;
    }
  }

  lemma {:induction false} SortOrdered<T(!new)>(xs: seq<T>, mayPrecede: (T, T) -> bool)
    requires TotalPreorder(mayPrecede)
    ensures Ordered(Sort(xs, mayPrecede), mayPrecede)
  {
    if xs != [] {
      SortOrdered(xs[1..], mayPrecede);
      InsertOrdered(xs[0], Sort(xs[1..], mayPrecede), mayPrecede);
    }
  }

  lemma OrderedTail<T(!new)>(xs: seq<T>, mayPrecede: (T, T) -> bool)
    requires Ordered(xs, mayPrecede) && xs != []
    ensures Ordered(xs[1..], mayPrecede) && xs[..0] + xs[1..] == xs[1..]
  {
    var rest := xs[1..];
    assert forall i :: 0 <= i < |rest| ==> rest[i] == xs[i + 1];
  }

  lemma RemoveOne<T>(xs: seq<T>, i: nat)
    requires i < |xs|
    ensures multiset(xs[..i] + xs[i + 1..]) == multiset(xs) - multiset{xs[i]}
  {
    assert xs == xs[..i] + [xs[i]] + xs[i + 1..];
  }

  /** A permutation holds the first element somewhere; without it, the rests are permutations again. */
  lemma PairFirst<T>(a: seq<T>, b: seq<T>) returns (i: nat)
    requires multiset(a) == multiset(b) && a != []
    ensures i < |b| && b[i] == a[0] && multiset(a[1..]) == multiset(b[..i] + b[i + 1..])
  {
    i := Somewhere(a[0], a, b);
    var restA, restB := a[1..], b[..i] + b[i + 1..];
    assert a[..0] + a[1..] == restA;
    RemoveOne(a, 0);
    RemoveOne(b, i);
    assert multiset(restA) == multiset(a) - multiset{a[0]} == multiset(b) - multiset{b[i]} == multiset(restB);
  }

  lemma Somewhere<T>(x: T, a: seq<T>, b: seq<T>) returns (i: nat)
    requires x in a && multiset(a) == multiset(b)
    ensures i < |b| && b[i] == x
  {
    assert x in multiset(b);
    i :| 0 <= i < |b| && b[i] == x;
  }

  lemma SameHead<T(!new)>(xs: seq<T>, ys: seq<T>, mayPrecede: (T, T) -> bool)
    requires Ordered(xs, mayPrecede) && Ordered(ys, mayPrecede) && multiset(xs) == multiset(ys) && xs != [] && ys != []
    requires forall a, b :: mayPrecede(a, b) && mayPrecede(b, a) ==> a == b
    ensures xs[0] == ys[0]
  {
    var i := Somewhere(xs[0], xs, ys);
    var j := Somewhere(ys[0], ys, xs);
  }

  /** Two ordered arrangements of the same elements are equal once ties are equalities. */
  lemma {:induction false} OrderedUnique<T(!new)>(xs: seq<T>, ys: seq<T>, mayPrecede: (T, T) -> bool)
    requires Ordered(xs, mayPrecede) && Ordered(ys, mayPrecede) && multiset(xs) == multiset(ys)
    requires forall a, b :: mayPrecede(a, b) && mayPrecede(b, a) ==> a == b
    ensures xs == ys
  {
    hide Ordered;
    assert |xs| == |multiset(xs)| == |multiset(ys)| == |ys|;
    if xs != [] {
      SameHead(xs, ys, mayPrecede);
      OrderedTail(xs, mayPrecede);
      OrderedTail(ys, mayPrecede);
      RemoveOne(xs, 0);
      RemoveOne(ys, 0);
      OrderedUnique(xs[1..], ys[1..], mayPrecede);
    }
  }

  function Matching<T>(xs: seq<T>, p: T -> bool): seq<T> {
    if xs == [] then [] else (if p(xs[0]) then [xs[0]] else []) + Matching(xs[1..], p)
  }

  lemma {:induction false} InsertStable<T(!new)>(x: T, xs: seq<T>, mayPrecede: (T, T) -> bool, p: T -> bool)
    requires forall a, b :: p(a) && p(b) ==> mayPrecede(a, b)
    ensures Matching(Insert(x, xs, mayPrecede), p) == Matching([x] + xs, p)
  {
    if xs != [] && !mayPrecede(x, xs[0]) {
      InsertStable(x, xs[1..], mayPrecede, p);
      assert ([x] + xs)[1..] == xs && ([x] + xs[1..])[1..] == xs[1..];
    }
  }

  /** Stability: elements that tie with each other keep their order. */
  lemma {:induction false} SortStable<T(!new)>(xs: seq<T>, mayPrecede: (T, T) -> bool, p: T -> bool)
    requires forall a, b :: p(a) && p(b) ==> mayPrecede(a, b)
    ensures Matching(Sort(xs, mayPrecede), p) == Matching(xs, p)
  {
    if xs != [] {
      var tail := Sort(xs[1..], mayPrecede);
      SortStable(xs[1..], mayPrecede, p);
      InsertStable(xs[0], tail, mayPrecede, p);
      assert ([xs[0]] + tail)[1..] == tail;
    }
  }

  lemma {:induction false} MatchingAppend<T>(xs: seq<T>, x: T, p: T -> bool)
    ensures Matching(xs + [x], p) == Matching(xs, p) + if p(x) then [x] else []
  {
    if xs == [] {
      assert [x][1..] == [];
    } else {
      var longer := xs + [x];
      assert longer[0] == xs[0] && longer[1..] == xs[1..] + [x];
      MatchingAppend(xs[1..], x, p);
      Regroup(if p(xs[0]) then [xs[0]] else [], Matching(xs[1..], p), if p(x) then [x] else []);
    }
  }
}
