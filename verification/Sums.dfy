/** Finite sums over sets, used for the seat ledger and for the dispatchers' work measure. */
module Sums {
  import opened Common

  ghost function Sum(s: set<Id>, f: Id -> int): int {
    if s == {} then 0 else
      var x: Id :| x in s;
      f(x) + Sum(s - {x}, f)
  }

  lemma {:induction false} SumSplit(s: set<Id>, f: Id -> int, x: Id)
    requires x in s
    ensures Sum(s, f) == f(x) + Sum(s - {x}, f)
    decreases s
  {
    var y: Id :| y in s && Sum(s, f) == f(y) + Sum(s - {y}, f);
    if y != x {
      SumSplit(s - {y}, f, x);
      SumSplit(s - {x}, f, y);
      assert s - {y} - {x} == s - {x} - {y};
    }
  }

  lemma {:induction false} SumBetween(s: set<Id>, f: Id -> int, g: Id -> int)
    requires forall x :: x in s ==> f(x) <= g(x)
    ensures Sum(s, f) <= Sum(s, g)
    decreases s
  {
    if s != {} {
      var x: Id :| x in s;
      SumSplit(s, f, x);
      SumSplit(s, g, x);
      SumBetween(s - {x}, f, g);
    }
  }

  lemma SumSame(s: set<Id>, f: Id -> int, g: Id -> int)
    requires forall x :: x in s ==> f(x) == g(x)
    ensures Sum(s, f) == Sum(s, g)
  {
  }

  lemma SumUpdate(s: set<Id>, f: Id -> int, g: Id -> int, x: Id)
    requires x in s
    requires forall y :: y in s && y != x ==> f(y) == g(y)
    ensures Sum(s, g) == Sum(s, f) - f(x) + g(x)
  {
    SumSplit(s, f, x);
    SumSplit(s, g, x);
    SumSame(s - {x}, f, g);
  }

  lemma SumInsert(s: set<Id>, f: Id -> int, g: Id -> int, x: Id)
    requires x !in s
    requires forall y :: y in s ==> f(y) == g(y)
    ensures Sum(s + {x}, g) == Sum(s, f) + g(x)
  {
    SumSplit(s + {x}, g, x);
    assert s + {x} - {x} == s;
    SumSame(s, f, g);
  }

  lemma {:induction false} SumConstant(s: set<Id>, f: Id -> int, c: int)
    requires forall x :: x in s ==> f(x) == c
    ensures Sum(s, f) == c * |s|
    decreases s
  {
    if s != {} {
      var x: Id :| x in s;
      SumSplit(s, f, x);
      SumConstant(s - {x}, f, c);
    }
  }

  // One non-negative term is at most the whole sum.
  lemma SumTerm(s: set<Id>, f: Id -> int, x: Id)
    requires x in s
    requires forall y :: y in s ==> 0 <= f(y)
    ensures 0 <= f(x) <= Sum(s, f)
  {
    SumSplit(s, f, x);
    SumConstant(s - {x}, (y: Id) => 0, 0);
    SumBetween(s - {x}, (y: Id) => 0, f);
  }
}
