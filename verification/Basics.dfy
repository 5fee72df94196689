/** Small types and functions shared by the other modules. */
module Basics {

  datatype Option<+T> = None | Some(value: T)

  /** A value, or the error the program raises. */
  datatype Result<+T, +E> = Ok(value: T) | Err(error: E)

  function Min(a: int, b: int): int { if a <= b then a else b }

  function Max(a: int, b: int): int { if a <= b then b else a }

  function Elements<T>(xs: seq<T>): set<T> { set x | x in xs }

  lemma ElementsAre(xs: seq<int>, s: set<int>)
    requires forall x :: x in xs <==> x in s
    ensures Elements(xs) == s
  {
    assert forall x :: x in Elements(xs) <==> x in s;
  }

  /** The weekday of a day ordinal; ordinal 1 is a Monday, and Monday is 0. */
  function Weekday(date: int): int { (date + 6) % 7 }

  /** Days go round the week from Monday, 1 January of year 1. */
  lemma WeekdaysGoRound(date: int)
    ensures 0 <= Weekday(date) < 7 && Weekday(1) == 0
    ensures Weekday(date + 1) == if Weekday(date) == 6 then 0 else Weekday(date) + 1
  {
  }

  /** A subset is no larger. */
  lemma {:induction false} SubsetSize<T>(a: set<T>, b: set<T>)
    requires a <= b
    ensures |a| <= |b|
  {
    if a != {} {
      var x := Member(a);
      SubsetSize(a - {x}, b - {x});
    }
  }

  lemma Member<T>(ids: set<T>) returns (x: T)
    requires ids != {}
    ensures x in ids
  {
    x :| x in ids;
  }

  /** A number that a finite set does not contain. */
  lemma {:induction false} AboveAll(ids: set<int>) returns (above: int)
    ensures forall id :: id in ids ==> id < above
  {
    if ids == {} {
      above := 0;
    } else {
      var id := Member(ids);
      above := AboveAll(ids - {id});
      above := Max(above, id + 1);
      assert forall x :: x in ids ==> x == id || x in ids - {id};
    }
  }

  /** A list holding a set's elements holds each of them once. */
  lemma ListedOnce(r: seq<int>, s: set<int>)
    requires multiset(r) == multiset(s)
    ensures forall i, j :: 0 <= i < j < |r| ==> r[i] != r[j]
    ensures forall x :: x in r <==> x in s
    ensures |r| == |s|
  {
    forall i, j | 0 <= i < j < |r| ensures r[i] != r[j] {
      var before, after := r[..j], r[j..];
      assert r == before + after;
      assert before[i] in multiset(before) && after[0] in multiset(after);
      assert multiset(r)[r[i]] <= 1;
      assert multiset(r) == multiset(before) + multiset(after);
    }
    assert forall x :: x in r <==> x in multiset(r);
    assert |multiset(r)| == |multiset(s)|;
  }

  /** Some list of the elements of a set. */
  method ToList(ids: set<int>) returns (r: seq<int>)
    ensures multiset(r) == multiset(ids)
  {
    r := [];
    var rest := ids;
    while rest != {}
      invariant rest <= ids
      invariant multiset(r) == multiset(ids - rest)
      decreases rest
    {
      ghost var any := Member(rest);
      var id :| id in rest;
      assert ids - (rest - {id}) == (ids - rest) + {id};
      r := r + [id];
      rest := rest - {id};
    }
    assert ids - {} == ids;
  }
}
