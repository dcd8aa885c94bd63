/**
 * Greatest and least elements of finite non-empty sets, the model of Python's
 * `max(...)` and `min(...)` over the keys of a dictionary or over a generator.
 */
module Extrema {

  /** Some element of a non-empty set, for the induction proofs below. */
  ghost function PickOne<T>(s: set<T>): (x: T)
    requires s != {}
    ensures x in s
  {
    var x :| x in s; x
  }

  /** `m` is an element of `s` that every element of `s` lies `below`. */
  predicate IsTop<T>(s: set<T>, m: T, below: (T, T) -> bool) {
    m in s && forall x :: x in s ==> below(x, m)
  }

  /** `below` relates any two values one way or the other, and chains. */
  ghost predicate TotalOrder<T(!new)>(below: (T, T) -> bool) {
    && (forall x, y :: below(x, y) || below(y, x))
    && (forall x, y, z :: below(x, y) && below(y, z) ==> below(x, z))
  }

  /** A finite non-empty set has a top element under any total order. */
  lemma {:induction false} TopExists<T(!new)>(s: set<T>, below: (T, T) -> bool)
    requires s != {}
    requires TotalOrder(below)
    ensures exists m :: IsTop(s, m, below)
    decreases |s|
  {
    var x := PickOne(s);
    if s == {x} {
      assert IsTop(s, x, below);
    } else {
      TopExists(s - {x}, below);
      var m :| IsTop(s - {x}, m, below);
      forall y | y in s ensures below(y, m) || below(y, x) {
        if y != x { assert y in s - {x}; }
      }
      if below(x, m) { assert IsTop(s, m, below); } else { assert IsTop(s, x, below); }
    }
  }

  predicate IsGreatest(s: set<int>, m: int) {
    m in s && forall x :: x in s ==> x <= m
  }

  predicate IsLeast(s: set<int>, m: int) {
    m in s && forall x :: x in s ==> m <= x
  }

  predicate IsMaximum(s: set<real>, m: real) {
    m in s && forall x :: x in s ==> x <= m
  }

  predicate IsMinimum(s: set<real>, m: real) {
    m in s && forall x :: x in s ==> m <= x
  }

  /** `max(s)` over a non-empty set of day numbers. */
  function Greatest(s: set<int>): (m: int)
    requires s != {}
    ensures IsGreatest(s, m)
  {
    TopExists(s, (x: int, y: int) => x <= y);
    var m :| IsTop(s, m, (x: int, y: int) => x <= y); m
  }

  /** `min(s)` over a non-empty set of day numbers. */
  function Least(s: set<int>): (m: int)
    requires s != {}
    ensures IsLeast(s, m)
  {
    TopExists(s, (x: int, y: int) => y <= x);
    var m :| IsTop(s, m, (x: int, y: int) => y <= x); m
  }

  /** `max(s)` over a non-empty set of prices. */
  function Maximum(s: set<real>): (m: real)
    requires s != {}
    ensures IsMaximum(s, m)
  {
    TopExists(s, (x: real, y: real) => x <= y);
    var m :| IsTop(s, m, (x: real, y: real) => x <= y); m
  }

  /** `min(s)` over a non-empty set of prices. */
  function Minimum(s: set<real>): (m: real)
    requires s != {}
    ensures IsMinimum(s, m)
  {
    TopExists(s, (x: real, y: real) => y <= x);
    var m :| IsTop(s, m, (x: real, y: real) => y <= x); m
  }
}
