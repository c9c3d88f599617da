/**
 Runs of a state machine given by a total step function: a run is any list of steps.
 */
module Runs {

  function Exec<S, T>(apply: (S, T) -> S, s: S, steps: seq<T>): S {
    if steps == [] then s else apply(Exec(apply, s, steps[..|steps| - 1]), steps[|steps| - 1])
  }

  lemma ExecSnoc<S, T>(apply: (S, T) -> S, s: S, steps: seq<T>, step: T)
    ensures Exec(apply, s, steps + [step]) == apply(Exec(apply, s, steps), step)
  {
    assert (steps + [step])[..|steps|] == steps;
  }

  lemma {:induction false} ExecAppend<S, T>(apply: (S, T) -> S, s: S, a: seq<T>, b: seq<T>)
    ensures Exec(apply, s, a + b) == Exec(apply, Exec(apply, s, a), b)
  {
    if b == [] {
      assert a + b == a;
    } else {
      var n := |b| - 1;
      assert (a + b)[..|a + b| - 1] == a + b[..n];
      ExecAppend(apply, s, a, b[..n]);
    }
  }

  ghost predicate Keeps<S(!new), T(!new)>(apply: (S, T) -> S, inv: S -> bool) {
    forall s, step {:trigger apply(s, step)} :: inv(s) ==> inv(apply(s, step))
  }

  /** What every step keeps, every run keeps. */
  lemma {:induction false} Always<S(!new), T(!new)>(apply: (S, T) -> S, inv: S -> bool, s: S, steps: seq<T>)
    requires Keeps(apply, inv) && inv(s)
    ensures inv(Exec(apply, s, steps))
  {
    if steps != [] {
      Always(apply, inv, s, steps[..|steps| - 1]);
    }
  }
}
