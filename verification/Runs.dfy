/** Runs of a deterministic machine given by its step function. A halted machine steps to itself. */
module Runs {

  function Run<C>(step: C -> C, c: C, n: nat): C
    decreases n
  {
    if n == 0 then c else Run(step, step(c), n - 1)
  }

  ghost predicate Reaches<C(!new)>(step: C -> C, c: C, d: C) {
    exists n: nat :: Run(step, c, n) == d
  }

  lemma {:induction false} RunAdd<C>(step: C -> C, c: C, m: nat, n: nat)
    ensures Run(step, c, m + n) == Run(step, Run(step, c, m), n)
    decreases m
  {
    if m > 0 {
      RunAdd(step, step(c), m - 1, n);
    }
  }

  lemma {:induction false} RunHalted<C>(step: C -> C, c: C, n: nat)
    requires step(c) == c
    ensures Run(step, c, n) == c
    decreases n
  {
    if n > 0 {
      RunHalted(step, c, n - 1);
    }
  }

  lemma RunNext<C>(step: C -> C, c: C, n: nat)
    ensures Run(step, c, n + 1) == step(Run(step, c, n))
  {
    RunAdd(step, c, n, 1);
    assert Run(step, Run(step, c, n), 1) == Run(step, step(Run(step, c, n)), 0);
  }

  lemma Here<C(!new)>(step: C -> C, c: C)
    ensures Reaches(step, c, c)
  {
    assert Run(step, c, 0) == c;
  }

  lemma After<C(!new)>(step: C -> C, c: C, d: C)
    requires Reaches(step, step(c), d)
    ensures Reaches(step, c, d)
  {
    var n: nat :| Run(step, step(c), n) == d;
    assert Run(step, c, n + 1) == d;
  }

  lemma Then<C(!new)>(step: C -> C, c: C, d: C, e: C)
    requires Reaches(step, c, d) && Reaches(step, d, e)
    ensures Reaches(step, c, e)
  {
    var m: nat :| Run(step, c, m) == d;
    var n: nat :| Run(step, d, n) == e;
    RunAdd(step, c, m, n);
  }

  /** A run that has not halted has not passed the halted configuration it is heading for. */
  lemma NotYet<C>(step: C -> C, c: C, n: nat, i: nat)
    requires step(Run(step, c, n)) == Run(step, c, n)
    requires step(Run(step, c, i)) != Run(step, c, i)
    ensures i < n
  {
    if n <= i {
      RunAdd(step, c, n, i - n);
      RunHalted(step, Run(step, c, n), i - n);
    }
  }

  /** Two halted configurations of one run are the same. */
  lemma HaltsOnce<C>(step: C -> C, c: C, n: nat, i: nat)
    requires step(Run(step, c, n)) == Run(step, c, n)
    requires step(Run(step, c, i)) == Run(step, c, i)
    ensures Run(step, c, i) == Run(step, c, n)
  {
    if n <= i {
      RunAdd(step, c, n, i - n);
      RunHalted(step, Run(step, c, n), i - n);
    } else {
      RunAdd(step, c, i, n - i);
      RunHalted(step, Run(step, c, i), n - i);
    }
  }
}
