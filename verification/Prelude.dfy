/** Results, and the enumeration orders that Go maps and unordered queries leave open. */
module Prelude {

  datatype Option<+T> = None | Some(value: T) {
    function GetOr(default: T): T {
      match this
      case Some(v) => v
      case None => default
    }
  }

  datatype Result<+T, +E> = Success(value: T) | Failure(error: E)

  predicate Distinct<T(==)>(s: seq<T>) {
    forall i, j | 0 <= i < j < |s| :: s[i] != s[j]
  }

  /** `rows` lists every element of `s` once, in some order: a Go map iteration, or a query without ORDER BY. */
  predicate Enumerates<T(==)>(rows: seq<T>, s: set<T>) {
    Distinct(rows) && (set x | x in rows) == s
  }

  /** Some iteration order of a set; which one is not specified. */
  method Enumerate<T(==)>(s: set<T>) returns (rows: seq<T>)
    ensures Enumerates(rows, s)
  {
    rows := [];
    var rest := s;
    while rest != {}
      invariant Distinct(rows) && rest <= s
      invariant forall x :: x in rows <==> x in s - rest
      decreases rest
    {
      var x :| x in rest;
      assert x !in rows;
      rows := rows + [x];
      rest := rest - {x};
    }
  }

  /** Every set has an iteration order, and one that begins with any chosen elements. */
  lemma {:induction false} SomeOrder<T>(first: seq<T>, s: set<T>) returns (rows: seq<T>)
    requires Distinct(first) && forall x | x in first :: x in s
    ensures Enumerates(rows, s) && first <= rows
    decreases s - (set x | x in first)
  {
    var left := s - (set x | x in first);
    if left == {} {
      rows := first;
      forall x | x in s ensures x in first { assert x !in left; }
    } else {
      var x :| x in left;
      rows := SomeOrder(first + [x], s);
    }
  }

  lemma Associative<T>(a: seq<T>, b: seq<T>, c: seq<T>)
    ensures a + (b + c) == (a + b) + c
  {
  }
}
