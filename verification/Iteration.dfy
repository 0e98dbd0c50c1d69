/** Repeating a step. */
module Iteration {
  function Iterate<T>(f: T -> T, x: T, k: nat): T
    decreases k
  {
    if k == 0 then x else Iterate(f, f(x), k - 1)
  }

  ghost predicate Reaches<T(!new)>(f: T -> T, x: T, y: T) {
    exists k: nat :: Iterate(f, x, k) == y
  }

  lemma ReachesSelf<T(!new)>(f: T -> T, x: T)
    ensures Reaches(f, x, x)
  {
    assert Iterate(f, x, 0) == x;
  }

  lemma {:induction false} IterateAdd<T>(f: T -> T, x: T, j: nat, k: nat)
    ensures Iterate(f, Iterate(f, x, j), k) == Iterate(f, x, j + k)
    decreases j
  {
    if j > 0 {
      IterateAdd(f, f(x), j - 1, k);
    }
  }

  lemma ReachesStep<T(!new)>(f: T -> T, x: T, y: T)
    requires Reaches(f, x, y)
    ensures Reaches(f, x, f(y))
  {
    var k: nat :| Iterate(f, x, k) == y;
    IterateAdd(f, x, k, 1);
    assert Iterate(f, y, 1) == Iterate(f, f(y), 0);
    assert Iterate(f, x, k + 1) == f(y);
  }
}
