/** Cardinality facts about finite sets, shared by the grid walks. */
module Sets {
  /** A set of naturals below `n` has at most `n` elements. */
  lemma {:induction false} BoundedCard(s: set<nat>, n: nat)
    requires forall j :: j in s ==> j < n
    ensures |s| <= n
  {
    if n > 0 {
      BoundedCard(s - {n - 1}, n - 1);
    } else {
      assert s == {};
    }
  }

  /** A subset is no larger than the set that holds it. */
  lemma {:induction false} SubsetCard<T>(a: set<T>, b: set<T>)
    requires a <= b
    ensures |a| <= |b|
  {
    if a != {} {
      var x :| x in a;
      SubsetCard(a - {x}, b - {x});
    }
  }

  /** Some element of a non-empty set, chosen once and for all. */
  ghost function Pick<T>(s: set<T>): T
    requires s != {}
  {
    var x :| x in s; x
  }

  /** The sum of `f` over the elements of `s`, in no particular order. */
  ghost function Sum<T>(s: set<T>, f: T -> nat): nat
    decreases |s|
  {
    if s == {} then 0
    else
      var x := Pick(s);
      f(x) + Sum(s - {x}, f)
  }

  /** Any element can be taken out of a sum first. */
  lemma {:induction false} SumRemove<T>(s: set<T>, f: T -> nat, y: T)
    requires y in s
    ensures Sum(s, f) == f(y) + Sum(s - {y}, f)
    decreases |s|
  {
    var x := Pick(s);
    if x != y {
      SumRemove(s - {x}, f, y);
      SumRemove(s - {y}, f, x);
      assert s - {x} - {y} == s - {y} - {x};
    }
  }

  /** Adding a new element adds its value to the sum. */
  lemma SumAdd<T>(s: set<T>, f: T -> nat, y: T)
    requires y !in s
    ensures Sum(s + {y}, f) == Sum(s, f) + f(y)
  {
    SumRemove(s + {y}, f, y);
    assert s + {y} - {y} == s;
  }

  /** Summing a function that is 0 or 1 counts the elements where it is 1. */
  lemma {:induction false} SumOnes<T>(s: set<T>, f: T -> nat, ones: set<T>)
    requires forall x :: x in s ==> f(x) <= 1
    requires forall x :: x in ones <==> x in s && f(x) == 1
    ensures Sum(s, f) == |ones|
    decreases |s|
  {
    if s != {} {
      var x := Pick(s);
      SumOnes(s - {x}, f, ones - {x});
    } else {
      assert ones == {};
    }
  }

  /**
   * A loop summing `f` over `all` in any order: `done` holds the elements
   * summed so far, `todo` the rest, and `total` is the sum so far.
   */
  ghost predicate Tallied<T>(all: set<T>, todo: set<T>, done: set<T>, f: T -> nat, total: nat)
  {
    todo !! done && todo + done == all && total == Sum(done, f)
  }

  lemma TallyStart<T>(all: set<T>, f: T -> nat)
    ensures Tallied(all, all, {}, f, 0)
  {
  }

  /** Summing one more element keeps the tally. */
  lemma TallyStep<T>(all: set<T>, todo: set<T>, done: set<T>, f: T -> nat, total: nat, x: T)
    requires Tallied(all, todo, done, f, total) && x in todo
    ensures Tallied(all, todo - {x}, done + {x}, f, total + f(x))
  {
    SumAdd(done, f, x);
  }

  /** With nothing left, the tally is the whole sum. */
  lemma TallyDone<T>(all: set<T>, done: set<T>, f: T -> nat, total: nat)
    requires Tallied(all, {}, done, f, total)
    ensures total == Sum(all, f)
  {
    assert done == all;
  }
}
