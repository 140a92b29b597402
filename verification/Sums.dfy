/** Sums over finite sets. The element order is arbitrary, so every fact is proved through
    `SumRemove`, which says the order does not matter. */
module Sums {
  ghost function Sum<T(!new)>(s: set<T>, f: T -> int): int
    decreases s
  {
    if s == {} then 0 else
      var x :| x in s;
      f(x) + Sum(s - {x}, f)
  }

  lemma {:induction false} SumRemove<T(!new)>(s: set<T>, f: T -> int, x: T)
    requires x in s
    ensures Sum(s, f) == f(x) + Sum(s - {x}, f)
    decreases s
  {
    var y :| y in s && Sum(s, f) == f(y) + Sum(s - {y}, f);
    if y != x {
      SumRemove(s - {y}, f, x);
      SumRemove(s - {x}, f, y);
      assert s - {y} - {x} == s - {x} - {y};
    }
  }

  lemma {:induction false} SumAgree<T(!new)>(s: set<T>, f: T -> int, g: T -> int)
    requires forall x :: x in s ==> f(x) == g(x)
    ensures Sum(s, f) == Sum(s, g)
    decreases s
  {
    if s != {} {
      var x :| x in s;
      SumRemove(s, f, x);
      SumRemove(s, g, x);
      SumAgree(s - {x}, f, g);
    }
  }

  /** Changing the summand at one point changes the sum by the difference there. */
  lemma SumUpdate<T(!new)>(s: set<T>, f: T -> int, g: T -> int, x: T)
    requires x in s
    requires forall y :: y in s && y != x ==> f(y) == g(y)
    ensures Sum(s, g) == Sum(s, f) - f(x) + g(x)
  {
    SumRemove(s, f, x);
    SumRemove(s, g, x);
    SumAgree(s - {x}, f, g);
  }

  lemma {:induction false} SumBounds<T(!new)>(s: set<T>, f: T -> int, g: T -> int)
    requires forall x :: x in s ==> f(x) <= g(x)
    ensures Sum(s, f) <= Sum(s, g)
    decreases s
  {
    if s != {} {
      var x :| x in s;
      SumRemove(s, f, x);
      SumRemove(s, g, x);
      SumBounds(s - {x}, f, g);
    }
  }

  lemma {:induction false} SumConstant<T(!new)>(s: set<T>, f: T -> int, c: int)
    requires forall x :: x in s ==> f(x) == c
    ensures Sum(s, f) == c * |s|
    decreases s
  {
    if s != {} {
      var x :| x in s;
      SumRemove(s, f, x);
      SumConstant(s - {x}, f, c);
    }
  }

  /** One nonnegative term never exceeds the whole sum. */
  lemma SumTerm<T(!new)>(s: set<T>, f: T -> int, x: T)
    requires x in s
    requires forall y :: y in s ==> f(y) >= 0
    ensures 0 <= f(x) <= Sum(s, f)
  {
    SumRemove(s, f, x);
    SumBounds(s - {x}, (y: T) => 0, f);
    SumConstant(s - {x}, (y: T) => 0, 0);
  }
}
