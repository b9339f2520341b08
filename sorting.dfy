/**
 * A stable insertion sort over an arbitrary "may precede" relation.
 *
 * PHP 8's `usort` is stable, and the model uses this sort both for it and for
 * the `ORDER BY` clauses of the repositories.  `le(a, b)` means "`a` may be
 * placed before `b`"; two elements are tied when each may precede the other.
 */
module Sorting {

  /** `a` may precede `b` and `b` may precede `c`. */
  predicate Chain<T>(le: (T, T) -> bool, a: T, b: T, c: T) {
    le(a, b) && le(b, c)
  }

  /**
   * `le` is total and transitive: a total preorder.  Transitivity is used by
   * naming the chain it closes, which keeps the solver from chaining freely.
   */
  ghost predicate TotalPreorder<T(!new)>(le: (T, T) -> bool) {
    && (forall a, b :: le(a, b) || le(b, a))
    && (forall a, b, c {:trigger Chain(le, a, b, c)} :: Chain(le, a, b, c) ==> le(a, c))
  }

  /** Every element may precede every later element. */
  predicate SortedBy<T>(s: seq<T>, le: (T, T) -> bool) {
    forall i, j :: 0 <= i < j < |s| ==> le(s[i], s[j])
  }

  /** `a` and `b` are tied under `le`. */
  predicate Tied<T>(a: T, b: T, le: (T, T) -> bool) {
    le(a, b) && le(b, a)
  }

  /** The elements of `s` tied with `x`, in their order in `s`. */
  function TiedWith<T>(s: seq<T>, x: T, le: (T, T) -> bool): seq<T>
  {
    if s == [] then []
    else (if Tied(s[0], x, le) then [s[0]] else []) + TiedWith(s[1..], x, le)
  }

  /**
   * Inserts `x` into `s` after every element that may precede it, so that
   * among tied elements `x` ends up last.
   */
  function Insert<T>(x: T, s: seq<T>, le: (T, T) -> bool): (r: seq<T>)
    ensures multiset(r) == multiset(s) + multiset{x}
    ensures |r| == |s| + 1
  {
    if s == [] then [x]
    else if le(s[0], x) then
      assert s == [s[0]] + s[1..];
      [s[0]] + Insert(x, s[1..], le)
    else [x] + s
  }

  /** Insertion sort: the elements of `s` are inserted from left to right. */
  function SortBy<T>(s: seq<T>, le: (T, T) -> bool): (r: seq<T>)
    ensures multiset(r) == multiset(s)
    ensures |r| == |s|
  {
    if s == [] then []
    else
      assert s == s[..|s| - 1] + [s[|s| - 1]];
      Insert(s[|s| - 1], SortBy(s[..|s| - 1], le), le)
  }

  lemma {:induction false} InsertSorted<T(!new)>(x: T, s: seq<T>, le: (T, T) -> bool)
    requires TotalPreorder(le)
    requires SortedBy(s, le)
    ensures SortedBy(Insert(x, s, le), le)
  {
    if s == [] {
    } else if le(s[0], x) {
      var tail := Insert(x, s[1..], le);
      InsertSorted(x, s[1..], le);
      forall e | e in tail ensures le(s[0], e) {
        assert e in multiset(tail);
        if e != x {
          assert e in s[1..];
        }
      }
      assert Insert(x, s, le) == [s[0]] + tail;
    } else {
      assert le(x, s[0]);
      forall j | 0 <= j < |s| ensures le(x, s[j]) {
        assert Chain(le, x, s[0], s[j]);
      }
      assert Insert(x, s, le) == [x] + s;
    }
  }

  /** The result of `SortBy` is ordered by `le`. */
  lemma {:induction false} SortByOrdered<T(!new)>(s: seq<T>, le: (T, T) -> bool)
    requires TotalPreorder(le)
    ensures SortedBy(SortBy(s, le), le)
  {
    if s != [] {
      SortByOrdered(s[..|s| - 1], le);
      InsertSorted(s[|s| - 1], SortBy(s[..|s| - 1], le), le);
    }
  }

  lemma {:induction false} TiedWithConcat<T>(a: seq<T>, b: seq<T>, x: T, le: (T, T) -> bool)
    ensures TiedWith(a + b, x, le) == TiedWith(a, x, le) + TiedWith(b, x, le)
  {
    if a == [] {
      assert a + b == b;
    } else {
      assert (a + b)[0] == a[0];
      assert (a + b)[1..] == a[1..] + b;
      TiedWithConcat(a[1..], b, x, le);
    }
  }

  lemma {:induction false} TiedWithNone<T>(s: seq<T>, x: T, le: (T, T) -> bool)
    requires forall i :: 0 <= i < |s| ==> !Tied(s[i], x, le)
    ensures TiedWith(s, x, le) == []
  {
    if s != [] {
      TiedWithNone(s[1..], x, le);
    }
  }

  lemma {:induction false} InsertTied<T(!new)>(y: T, s: seq<T>, x: T, le: (T, T) -> bool)
    requires TotalPreorder(le)
    requires SortedBy(s, le)
    ensures TiedWith(Insert(y, s, le), x, le)
         == TiedWith(s, x, le) + (if Tied(y, x, le) then [y] else [])
    decreases |s|
  {
    if s == [] {
    } else if le(s[0], y) {
      var rest := s[1..];
      assert SortedBy(rest, le) by {
        forall i, j | 0 <= i < j < |rest| ensures le(rest[i], rest[j]) {
          assert rest[i] == s[i + 1] && rest[j] == s[j + 1];
        }
      }
      InsertTied(y, rest, x, le);
      InsertTiedBehind(y, s, x, le);
    } else {
      if Tied(y, x, le) {
        NoneTiedAbove(y, s, x, le);
      }
      InsertTiedFront(y, s, x, le);
    }
  }

  /** `y` goes behind the head of `s`: the head's tie, then those of the insertion into the tail. */
  lemma InsertTiedBehind<T>(y: T, s: seq<T>, x: T, le: (T, T) -> bool)
    requires s != [] && le(s[0], y)
    requires TiedWith(Insert(y, s[1..], le), x, le)
          == TiedWith(s[1..], x, le) + (if Tied(y, x, le) then [y] else [])
    ensures TiedWith(Insert(y, s, le), x, le)
         == TiedWith(s, x, le) + (if Tied(y, x, le) then [y] else [])
  {
    var rest, ins := s[1..], Insert(y, s[1..], le);
    var head := if Tied(s[0], x, le) then [s[0]] else [];
    var last := if Tied(y, x, le) then [y] else [];
    calc {
      TiedWith(Insert(y, s, le), x, le);
      TiedWith([s[0]] + ins, x, le);
      { TiedWithConcat([s[0]], ins, x, le); assert [s[0]][1..] == []; }
      head + TiedWith(ins, x, le);
      head + (TiedWith(rest, x, le) + last);
      (head + TiedWith(rest, x, le)) + last;
      TiedWith(s, x, le) + last;
    }
  }

  /** `y` goes in front of `s`: the elements tied with `x` are then `y`, if tied, and none of `s`. */
  lemma InsertTiedFront<T>(y: T, s: seq<T>, x: T, le: (T, T) -> bool)
    requires s != [] && !le(s[0], y)
    requires Tied(y, x, le) ==> forall i :: 0 <= i < |s| ==> !Tied(s[i], x, le)
    ensures TiedWith(Insert(y, s, le), x, le)
         == TiedWith(s, x, le) + (if Tied(y, x, le) then [y] else [])
  {
    assert Insert(y, s, le) == [y] + s;
    TiedWithConcat([y], s, x, le);
    assert [y][1..] == [];
    assert TiedWith([y], x, le) == if Tied(y, x, le) then [y] else [];
    if Tied(y, x, le) {
      TiedWithNone(s, x, le);
    }
  }

  /** When `y` goes in front of a sorted `s`, nothing in `s` is tied with an element tied with `y`. */
  lemma NoneTiedAbove<T(!new)>(y: T, s: seq<T>, x: T, le: (T, T) -> bool)
    requires TotalPreorder(le)
    requires SortedBy(s, le)
    requires s != [] && !le(s[0], y)
    requires Tied(y, x, le)
    ensures forall i :: 0 <= i < |s| ==> !Tied(s[i], x, le)
  {
    forall i | 0 <= i < |s| ensures !le(s[i], x) {
      assert le(s[0], s[i]);
      assert !Chain(le, s[0], s[i], y);
      assert le(x, y);
      assert !Chain(le, s[i], x, y);
    }
  }

  /** Stability: tied elements keep their relative order. */
  lemma {:induction false} SortByStable<T(!new)>(s: seq<T>, x: T, le: (T, T) -> bool)
    requires TotalPreorder(le)
    ensures TiedWith(SortBy(s, le), x, le) == TiedWith(s, x, le)
  {
    if s != [] {
      var init, last := s[..|s| - 1], s[|s| - 1];
      var sortedInit := SortBy(init, le);
      var lastTied := if Tied(last, x, le) then [last] else [];
      calc {
        TiedWith(SortBy(s, le), x, le);
        TiedWith(Insert(last, sortedInit, le), x, le);
        { SortByOrdered(init, le); InsertTied(last, sortedInit, x, le); }
        TiedWith(sortedInit, x, le) + lastTied;
        { SortByStable(init, x, le); }
        TiedWith(init, x, le) + lastTied;
        { TiedWithConcat(init, [last], x, le); }
        TiedWith(init + [last], x, le);
        { assert s == init + [last]; }
        TiedWith(s, x, le);
      }
    }
  }
}
