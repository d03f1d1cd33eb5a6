/** Runs of a clocked machine: a state, a step function, and one input a clock cycle. */
module Runs {

  /** The state after feeding every input of `ins`, oldest first. */
  ghost function Run<S, I>(step: (S, I) -> S, s: S, ins: seq<I>): S {
    if |ins| == 0 then s else step(Run(step, s, ins[..|ins| - 1]), ins[|ins| - 1])
  }

  /** What holds at the start and is kept by every step holds after every run. */
  lemma {:induction false} Invariant<S(!new), I(!new)>(step: (S, I) -> S, inv: S -> bool, s: S, ins: seq<I>)
    requires inv(s)
    requires forall t, i :: inv(t) ==> inv(step(t, i))
    ensures inv(Run(step, s, ins))
  {
    if |ins| != 0 {
      Invariant(step, inv, s, ins[..|ins| - 1]);
    }
  }

  /** A run over two input sequences is the second run started where the first one ended. */
  lemma {:induction false} RunAppend<S, I>(step: (S, I) -> S, s: S, a: seq<I>, b: seq<I>)
    ensures Run(step, s, a + b) == Run(step, Run(step, s, a), b)
  {
    if |b| == 0 {
      assert a + b == a;
    } else {
      RunAppend(step, s, a, b[..|b| - 1]);
      assert (a + b)[..|a + b| - 1] == a + b[..|b| - 1];
    }
  }
}
