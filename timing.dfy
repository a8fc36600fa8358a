/**
 * Vocabulary shared by the two rate-limiting wrappers: optional values,
 * the record of one call of the wrapped user function, and the way a host
 * timer treats the delay it is given.
 */
module Timing {

  /** `None` stands for an absent option key, a cleared timer or a `null` variable. */
  datatype Option<T> = None | Some(value: T) {

    /** The value, or `default` when absent (a destructuring default). */
    function GetOr(default: T): T {
      match this
      case Some(v) => v
      case None => default
    }
  }

  /**
   * One call of the user function: the clock reading at which it ran and
   * what it was given. `A` stands for the receiver (`this`) and the
   * argument list together.
   */
  datatype Invocation<A> = Invocation(at: int, args: A)

  /** The state a step leaves behind and the calls of the user function it made. */
  datatype Outcome<S, A> = Outcome(state: S, invoked: seq<Invocation<A>>)

  /**
   * The delay a host timer really waits when asked for `ms` milliseconds:
   * the timer initialization steps of the HTML Living Standard treat a
   * negative timeout as 0.
   */
  function Delay(ms: int): (d: nat)
    ensures ms >= 0 ==> d == ms
    ensures ms < 0 ==> d == 0
  {
    if ms < 0 then 0 else ms
  }

  /** Consecutive invocations lie at least `gap` apart on the clock. */
  ghost predicate Spaced<A>(trace: seq<Invocation<A>>, gap: int) {
    forall i :: 0 < i < |trace| ==> trace[i - 1].at + gap <= trace[i].at
  }

  /** Appending an invocation no earlier than `gap` after the last one keeps a trace spaced. */
  lemma SpacedSnoc<A>(trace: seq<Invocation<A>>, gap: int, next: Invocation<A>)
    requires Spaced(trace, gap)
    requires trace != [] ==> trace[|trace| - 1].at + gap <= next.at
    ensures Spaced(trace + [next], gap)
  {
    var t := trace + [next];
    forall i | 0 < i < |t|
      ensures t[i - 1].at + gap <= t[i].at
    {
      if i < |trace| {
        assert t[i - 1] == trace[i - 1] && t[i] == trace[i];
      }
    }
  }
}
