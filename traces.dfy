/**
 * Runs of a step function: a state machine given as `step`, applied to a
 * sequence of operations, collecting what each step emits. The instance
 * lifecycle, the event-state store and the manager use it for their traces.
 */
module Traces {

  /** The final state after `ops`, and everything the steps emitted, in order. */
  function RunSteps<M, O, E>(step: (M, O) -> (M, seq<E>), m: M, ops: seq<O>): (M, seq<E>)
    decreases |ops|
  {
    if ops == [] then (m, [])
    else
      var first := step(m, ops[0]);
      var rest := RunSteps(step, first.0, ops[1..]);
      (rest.0, first.1 + rest.1)
  }

  /** Running `a` then `b` is running `a + b`: same final state, emissions concatenated. */
  lemma {:induction false} RunStepsAppend<M, O, E>(step: (M, O) -> (M, seq<E>), m: M, a: seq<O>, b: seq<O>)
    ensures RunSteps(step, m, a + b).0 == RunSteps(step, RunSteps(step, m, a).0, b).0
    ensures RunSteps(step, m, a + b).1 == RunSteps(step, m, a).1 + RunSteps(step, RunSteps(step, m, a).0, b).1
    decreases |a|
  {
    if a == [] {
      assert a + b == b;
    } else {
      var ab := a + b;
      assert ab[0] == a[0] && ab[1..] == a[1..] + b;
      var first := step(m, a[0]);
      RunStepsAppend(step, first.0, a[1..], b);
      var ra := RunSteps(step, first.0, a[1..]);
      var rb := RunSteps(step, ra.0, b);
      assert first.1 + (ra.1 + rb.1) == (first.1 + ra.1) + rb.1;
    }
  }
}
