/** Stable sorting as Python's `sorted` and `list.sort` perform it: the result is an
    ordered permutation in which elements with equal keys keep their input order. */
module Sorting {

  ghost predicate TotalPreorder<T(!new)>(leq: (T, T) -> bool) {
    && (forall x, y :: leq(x, y) || leq(y, x))
    && (forall x, y, z :: leq(x, y) && leq(y, z) ==> leq(x, z))
  }

  ghost predicate Ordered<T>(leq: (T, T) -> bool, xs: seq<T>) {
    forall i, j :: 0 <= i < j < |xs| ==> leq(xs[i], xs[j])
  }

  function Insert<T>(leq: (T, T) -> bool, x: T, xs: seq<T>): seq<T> {
    if xs == [] || leq(x, xs[0]) then [x] + xs else [xs[0]] + Insert(leq, x, xs[1..])
  }

  function Sort<T>(leq: (T, T) -> bool, xs: seq<T>): seq<T> {
    if xs == [] then [] else Insert(leq, xs[0], Sort(leq, xs[1..]))
  }

  function Filter<T>(p: T -> bool, xs: seq<T>): seq<T> {
    if xs == [] then [] else (if p(xs[0]) then [xs[0]] else []) + Filter(p, xs[1..])
  }

  lemma {:induction false} InsertPermutes<T>(leq: (T, T) -> bool, x: T, xs: seq<T>)
    ensures multiset(Insert(leq, x, xs)) == multiset{x} + multiset(xs)
  {
    if xs == [] || leq(x, xs[0]) {
    } else {
      InsertPermutes(leq, x, xs[1..]);
      assert xs == [xs[0]] + xs[1..];
    }
  }

  lemma {:induction false} InsertOrders<T(!new)>(leq: (T, T) -> bool, x: T, xs: seq<T>)
    requires TotalPreorder(leq) && Ordered(leq, xs)
    ensures Ordered(leq, Insert(leq, x, xs))
  {
    if xs == [] {
    } else if leq(x, xs[0]) {
      var r := [x] + xs;
      forall i, j | 0 <= i < j < |r| ensures leq(r[i], r[j]) {
        if i == 0 && j > 1 { assert leq(xs[0], xs[j - 1]); }
      }
    } else {
      InsertOrders(leq, x, xs[1..]);
      InsertPermutes(leq, x, xs[1..]);
      var rest := Insert(leq, x, xs[1..]);
      var r := [xs[0]] + rest;
      forall i, j | 0 <= i < j < |r| ensures leq(r[i], r[j]) {
        if i == 0 {
          assert rest[j - 1] in multiset(rest);
          assert rest[j - 1] == x || rest[j - 1] in xs[1..];
        }
      }
    }
  }

  lemma {:induction false} SortPermutes<T>(leq: (T, T) -> bool, xs: seq<T>)
    ensures multiset(Sort(leq, xs)) == multiset(xs)
    ensures |Sort(leq, xs)| == |xs|
    ensures forall x :: x in Sort(leq, xs) <==> x in xs
  {
    if xs == [] {
    } else {
      SortPermutes(leq, xs[1..]);
      InsertPermutes(leq, xs[0], Sort(leq, xs[1..]));
      assert xs == [xs[0]] + xs[1..];
    }
    assert |multiset(Sort(leq, xs))| == |multiset(xs)|;
    forall x ensures x in Sort(leq, xs) <==> x in xs {
      assert x in multiset(Sort(leq, xs)) <==> x in multiset(xs);
    }
  }

  lemma {:induction false} SortOrders<T(!new)>(leq: (T, T) -> bool, xs: seq<T>)
    requires TotalPreorder(leq)
    ensures Ordered(leq, Sort(leq, xs))
  {
    if xs == [] {
    } else {
      SortOrders(leq, xs[1..]);
      InsertOrders(leq, xs[0], Sort(leq, xs[1..]));
    }
  }

  lemma {:induction false} FilterInsert<T(!new)>(leq: (T, T) -> bool, p: T -> bool, x: T, xs: seq<T>)
    requires TotalPreorder(leq) && Ordered(leq, xs)
    ensures Filter(p, Insert(leq, x, xs)) == if p(x) then Insert(leq, x, Filter(p, xs)) else Filter(p, xs)
  {
    if xs == [] {
      assert Filter(p, [x]) == if p(x) then [x] else [];
    } else if leq(x, xs[0]) {
      assert ([x] + xs)[1..] == xs;
      FilterBelow(leq, p, x, xs);
    } else {
      FilterInsert(leq, p, x, xs[1..]);
      var rest := Insert(leq, x, xs[1..]);
      assert ([xs[0]] + rest)[1..] == rest;
      if p(xs[0]) {
        assert ([xs[0]] + Filter(p, xs[1..]))[1..] == Filter(p, xs[1..]);
      } else {
        assert Filter(p, xs) == Filter(p, xs[1..]);
      }
    }
  }

  /** An element below a whole ordered list is inserted at the front of any sub-list. */
  lemma {:induction false} FilterBelow<T(!new)>(leq: (T, T) -> bool, p: T -> bool, x: T, xs: seq<T>)
    requires forall y :: y in xs ==> leq(x, y)
    ensures Insert(leq, x, Filter(p, xs)) == [x] + Filter(p, xs)
  {
    FilterKeeps(p, xs);
  }

  lemma {:induction false} FilterKeeps<T>(p: T -> bool, xs: seq<T>)
    ensures forall y :: y in Filter(p, xs) <==> y in xs && p(y)
  {
    if xs == [] {
    } else {
      FilterKeeps(p, xs[1..]);
      assert xs == [xs[0]] + xs[1..];
    }
  }

  lemma FilterCons<T>(p: T -> bool, x: T, rest: seq<T>)
    ensures Filter(p, [x] + rest) == (if p(x) then [x] else []) + Filter(p, rest)
  {
    assert ([x] + rest)[1..] == rest;
  }

  lemma {:induction false} FilterConcat<T>(p: T -> bool, xs: seq<T>, ys: seq<T>)
    ensures Filter(p, xs + ys) == Filter(p, xs) + Filter(p, ys)
  {
    if xs == [] {
      assert xs + ys == ys;
    } else {
      hide Filter;
      var x, rest := xs[0], xs[1..];
      FilterConcat(p, rest, ys);
      FilterCons(p, x, rest);
      FilterCons(p, x, rest + ys);
      assert xs == [x] + rest && xs + ys == [x] + (rest + ys);
    }
  }

  /** Sorting and filtering commute: a sub-list of the sorted list is the sorted sub-list. */
  lemma {:induction false} FilterSort<T(!new)>(leq: (T, T) -> bool, p: T -> bool, xs: seq<T>)
    requires TotalPreorder(leq)
    ensures Filter(p, Sort(leq, xs)) == Sort(leq, Filter(p, xs))
  {
    if xs == [] {
    } else {
      FilterSort(leq, p, xs[1..]);
      SortOrders(leq, xs[1..]);
      FilterInsert(leq, p, xs[0], Sort(leq, xs[1..]));
      if p(xs[0]) {
        assert ([xs[0]] + Filter(p, xs[1..]))[1..] == Filter(p, xs[1..]);
      } else {
        assert Filter(p, xs) == Filter(p, xs[1..]);
      }
    }
  }

  /** Two orders that agree on the elements of a list sort it in the same way. */
  lemma {:induction false} SortCongruent<T(!new)>(leq: (T, T) -> bool, leq': (T, T) -> bool, xs: seq<T>)
    requires forall x, y :: x in xs && y in xs ==> leq(x, y) == leq'(x, y)
    ensures Sort(leq, xs) == Sort(leq', xs)
  {
    if xs == [] {
    } else {
      SortCongruent(leq, leq', xs[1..]);
      SortPermutes(leq, xs[1..]);
      var rest := Sort(leq, xs[1..]);
      forall y | y in rest ensures leq(xs[0], y) == leq'(xs[0], y) {
        assert y in xs[1..];
      }
      InsertCongruent(leq, leq', xs[0], Sort(leq, xs[1..]));
    }
  }

  lemma {:induction false} InsertCongruent<T(!new)>(leq: (T, T) -> bool, leq': (T, T) -> bool, x: T, xs: seq<T>)
    requires forall y :: y in xs ==> leq(x, y) == leq'(x, y)
    ensures Insert(leq, x, xs) == Insert(leq', x, xs)
  {
    if xs == [] {
    } else {
      InsertCongruent(leq, leq', x, xs[1..]);
    }
  }

  /** Two ordered lists of the same elements are the same list if no two elements tie. */
  lemma {:induction false} OrderedIsUnique<T(!new)>(leq: (T, T) -> bool, xs: seq<T>, ys: seq<T>)
    requires forall x, y :: leq(x, y) && leq(y, x) ==> x == y
    requires Ordered(leq, xs) && Ordered(leq, ys) && multiset(xs) == multiset(ys)
    ensures xs == ys
  {
    assert |multiset(xs)| == |multiset(ys)|;
    if xs != [] {
      HeadsAgree(leq, xs, ys);
      WithoutHead(xs);
      WithoutHead(ys);
      OrderedIsUnique(leq, xs[1..], ys[1..]);
      assert xs == [xs[0]] + xs[1..] && ys == [ys[0]] + ys[1..];
    }
  }

  lemma HeadsAgree<T(!new)>(leq: (T, T) -> bool, xs: seq<T>, ys: seq<T>)
    requires forall x, y :: leq(x, y) && leq(y, x) ==> x == y
    requires Ordered(leq, xs) && Ordered(leq, ys) && multiset(xs) == multiset(ys)
    requires xs != [] && ys != []
    ensures xs[0] == ys[0]
  {
    assert xs[0] in multiset(ys) && ys[0] in multiset(xs);
    var k :| 0 <= k < |ys| && ys[k] == xs[0];
    var j :| 0 <= j < |xs| && xs[j] == ys[0];
    if j > 0 && k > 0 {
      assert leq(xs[0], xs[j]) && leq(ys[0], ys[k]);
    }
  }

  lemma WithoutHead<T>(xs: seq<T>)
    requires xs != []
    ensures multiset(xs[1..]) == multiset(xs) - multiset{xs[0]}
  {
    assert xs == [xs[0]] + xs[1..];
  }

  /** Sorting forgets the order of its input if no two elements tie. */
  lemma SortForgetsOrder<T(!new)>(leq: (T, T) -> bool, xs: seq<T>, ys: seq<T>)
    requires TotalPreorder(leq) && forall x, y :: leq(x, y) && leq(y, x) ==> x == y
    requires multiset(xs) == multiset(ys)
    ensures Sort(leq, xs) == Sort(leq, ys)
  {
    SortPermutes(leq, xs);
    SortPermutes(leq, ys);
    SortOrders(leq, xs);
    SortOrders(leq, ys);
    OrderedIsUnique(leq, Sort(leq, xs), Sort(leq, ys));
  }
}
