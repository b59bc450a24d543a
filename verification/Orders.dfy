// Walking a set in some order: Go ranges over a map in whichever order it likes.
module Orders {
  predicate Distinct<T(==)>(xs: seq<T>) {
    forall i, j :: 0 <= i < j < |xs| ==> xs[i] != xs[j]
  }

  /** xs is one of the orders in which a range over s may go. */
  ghost predicate Enumerates<T(!new)>(xs: seq<T>, s: set<T>) {
    && Distinct(xs)
    && forall x :: x in xs <==> x in s
  }

  lemma {:induction false} SomeOrder<T(!new)>(s: set<T>) returns (xs: seq<T>)
    ensures Enumerates(xs, s)
    decreases |s|
  {
    xs := [];
    if s != {} {
      var x :| x in s;
      xs := OrderFrom(s, x);
    }
  }

  /** Any element may come first. */
  lemma {:induction false} OrderFrom<T(!new)>(s: set<T>, first: T) returns (xs: seq<T>)
    requires first in s
    ensures Enumerates(xs, s) && |xs| > 0 && xs[0] == first
    decreases |s|, 0
  {
    var rest := SomeOrder(s - {first});
    xs := [first] + rest;
  }
}
