/**
 * Replaying a sequence of events through a wrapper's step function: the
 * final state and every invocation of the user function, in order.
 */
module Traces {
  import opened Timing

  /** The events applied in order, starting from `s`. */
  function Run<S, E, A>(step: (S, E) -> Outcome<S, A>, s: S, evs: seq<E>): Outcome<S, A>
    decreases |evs|
  {
    if evs == [] then Outcome(s, [])
    else
      var o := step(s, evs[0]);
      var r := Run(step, o.state, evs[1..]);
      Outcome(r.state, o.invoked + r.invoked)
  }

  /** Running `a` and then `b` is running `a + b`. */
  lemma {:induction false} RunAppend<S, E, A>(step: (S, E) -> Outcome<S, A>, s: S, a: seq<E>, b: seq<E>)
    ensures Run(step, s, a + b).state == Run(step, Run(step, s, a).state, b).state
    ensures Run(step, s, a + b).invoked == Run(step, s, a).invoked + Run(step, Run(step, s, a).state, b).invoked
    decreases |a|
  {
    if a != [] {
      assert (a + b)[0] == a[0];
      assert (a + b)[1..] == a[1..] + b;
      RunAppend(step, step(s, a[0]).state, a[1..], b);
    } else {
      assert a + b == b;
    }
  }
}
