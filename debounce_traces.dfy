/**
 * Properties of the debounce wrapper over whole sequences of events: what
 * a burst of calls produces, what the immediate mode does within a burst,
 * and what can follow a `cancel()`.
 */
module DebounceTraces {
  import opened Timing
  import opened Debounce
  import opened Traces

  /** What can happen to one wrapper: a call, its pending timer firing, or `cancel()`. */
  datatype Event<A> = Call(now: int, args: A) | Fire(now: int) | Cancel

  function Step<A>(c: Config, s: State<A>, e: Event<A>): Outcome<State<A>, A> {
    match e
    case Call(now, args) => CallStep(c, s, now, args)
    case Fire(now) => FireStep(s, now)
    case Cancel => Outcome(CancelStep(s), [])
  }
  /** `Step` for a wrapper with settings `c`, as a value `Run` can replay. */
  function Steps<A>(c: Config): (State<A>, Event<A>) -> Outcome<State<A>, A> {
    (s, e) => Step(c, s, e)
  }


  predicate AllCalls<A>(evs: seq<Event<A>>) {
    forall i :: 0 <= i < |evs| ==> evs[i].Call?
  }

  predicate NoCalls<A>(evs: seq<Event<A>>) {
    forall i :: 0 <= i < |evs| ==> !evs[i].Call?
  }

  /**
   * Without immediate mode, a burst of calls invokes nothing and leaves one
   * timer pending, carrying the last call's arguments and due `wait` after
   * the last call.
   */
  lemma {:induction false} TrailingBurst<A>(c: Config, s: State<A>, calls: seq<Event<A>>)
    requires !c.immediate
    requires calls != [] && AllCalls(calls)
    ensures Run(Steps(c), s, calls).invoked == []
    ensures Run(Steps(c), s, calls).state == State(Some(Timer(calls[|calls| - 1].now + Delay(c.wait), calls[|calls| - 1].args)), s.isInvoked)
    decreases |calls|
  {
    var s1 := Step(c, s, calls[0]).state;
    if |calls| > 1 {
      TrailingBurst(c, s1, calls[1..]);
    }
  }

  /**
   * Without immediate mode, a burst followed by the timer firing makes exactly
   * one invocation, with the last call's arguments, and leaves the wrapper idle.
   */
  lemma BurstThenFire<A>(c: Config, s: State<A>, calls: seq<Event<A>>, t: int)
    requires !c.immediate
    requires calls != [] && AllCalls(calls)
    ensures Run(Steps(c), s, calls + [Fire(t)]).invoked == [Invocation(t, calls[|calls| - 1].args)]
    ensures Run(Steps(c), s, calls + [Fire(t)]).state == Idle()
  {
    TrailingBurst(c, s, calls);
    RunAppend(Steps(c), s, calls, [Fire(t)]);
  }

  /**
   * Once `isInvoked` is set, calls never invoke synchronously, however far
   * apart they are: each only moves the trailing timer. Only a timer firing
   * or `cancel()` clears the flag.
   */
  lemma {:induction false} InvokedFlagHoldsAcrossCalls<A>(c: Config, s: State<A>, calls: seq<Event<A>>)
    requires s.isInvoked
    requires calls != [] && AllCalls(calls)
    ensures Run(Steps(c), s, calls).invoked == []
    ensures Run(Steps(c), s, calls).state == State(Some(Timer(calls[|calls| - 1].now + Delay(c.wait), calls[|calls| - 1].args)), true)
    decreases |calls|
  {
    if |calls| > 1 {
      InvokedFlagHoldsAcrossCalls(c, Step(c, s, calls[0]).state, calls[1..]);
    }
  }

  /**
   * Immediate mode from a cleared flag: the first call of a burst invokes at
   * once; any further call before a timer fires leaves a trailing timer
   * with the last call's arguments.
   */
  lemma ImmediateBurst<A>(c: Config, s: State<A>, first: Event<A>, rest: seq<Event<A>>)
    requires c.immediate && !s.isInvoked
    requires first.Call? && rest != [] && AllCalls(rest)
    ensures Run(Steps(c), s, [first] + rest).invoked == [Invocation(first.now, first.args)]
    ensures Run(Steps(c), s, [first] + rest).state == State(Some(Timer(rest[|rest| - 1].now + Delay(c.wait), rest[|rest| - 1].args)), true)
  {
    var s1 := Step(c, s, first).state;
    assert s1.isInvoked;
    InvokedFlagHoldsAcrossCalls(c, s1, rest);
    RunAppend(Steps(c), s, [first], rest);
  }

  /**
   * Immediate mode fires twice for a burst of two or more calls: once for
   * the first call and once more, when the trailing timer fires, with the
   * last call's arguments.
   */
  lemma ImmediateBurstFiresTwice<A>(c: Config, s: State<A>, first: Event<A>, rest: seq<Event<A>>, t: int)
    requires c.immediate && !s.isInvoked
    requires first.Call? && rest != [] && AllCalls(rest)
    ensures Run(Steps(c), s, [first] + rest + [Fire(t)]).invoked == [Invocation(first.now, first.args), Invocation(t, rest[|rest| - 1].args)]
  {
    ImmediateBurst(c, s, first, rest);
    RunAppend(Steps(c), s, [first] + rest, [Fire(t)]);
  }

  /**
   * Immediate mode, a lone call followed by a second one at any later clock
   * reading: only the first is invoked synchronously; the second waits for a
   * timer, because no quiet period clears `isInvoked`.
   */
  lemma LoneImmediateCallDelaysNext<A>(c: Config, t1: int, a1: A, t2: int, a2: A)
    requires c.immediate
    ensures Run(Steps(c), Idle(), [Call(t1, a1), Call(t2, a2)]).invoked == [Invocation(t1, a1)]
    ensures Run(Steps(c), Idle(), [Call(t1, a1), Call(t2, a2)]).state == State(Some(Timer(t2 + Delay(c.wait), a2)), true)
  {
    ImmediateBurst(c, Idle(), Call(t1, a1), [Call(t2, a2)]);
    assert [Call(t1, a1)] + [Call(t2, a2)] == [Call(t1, a1), Call(t2, a2)];
  }

  /** With no timer pending, nothing but a call can ever invoke the user function. */
  lemma {:induction false} NothingWithoutCall<A>(c: Config, s: State<A>, evs: seq<Event<A>>)
    requires s.timer.None?
    requires NoCalls(evs)
    ensures Run(Steps(c), s, evs).invoked == []
    ensures Run(Steps(c), s, evs).state.timer.None?
    decreases |evs|
  {
    if evs != [] {
      NothingWithoutCall(c, Step(c, s, evs[0]).state, evs[1..]);
    }
  }

  /**
   * `cancel()` leaves nothing pending and the flag cleared, a second `cancel()`
   * changes nothing, and no invocation follows until the next call.
   */
  lemma CancelSilences<A>(c: Config, s: State<A>, evs: seq<Event<A>>)
    requires NoCalls(evs)
    ensures CancelStep(s) == Idle()
    ensures CancelStep(CancelStep(s)) == CancelStep(s)
    ensures Run(Steps(c), s, [Cancel] + evs).invoked == []
  {
    NothingWithoutCall(c, CancelStep(s), evs);
    RunAppend(Steps(c), s, [Cancel], evs);
  }

  /**
   * A call cancelled before its timer fires is never invoked later; the only
   * invocation is the synchronous one a leading call makes.
   */
  lemma CallThenCancel<A>(c: Config, s: State<A>, now: int, args: A, evs: seq<Event<A>>)
    requires NoCalls(evs)
    ensures Run(Steps(c), s, [Call(now, args), Cancel] + evs).invoked == CallStep(c, s, now, args).invoked
    ensures !c.immediate || s.isInvoked ==> Run(Steps(c), s, [Call(now, args), Cancel] + evs).invoked == []
  {
    var s1 := CallStep(c, s, now, args).state;
    CancelSilences(c, s1, evs);
    RunAppend(Steps(c), s, [Call(now, args)], [Cancel] + evs);
    assert [Call(now, args)] + ([Cancel] + evs) == [Call(now, args), Cancel] + evs;
  }

  /** With `wait: 50`, calls at 0, 10 and 20 give one invocation, at 70, with the third call's arguments. */
  lemma ThreeCallsOneInvocation<A>(a0: A, a1: A, a2: A)
    ensures Run(Steps(Settings(Options(Some(50), None))), Idle(), [Call(0, a0), Call(10, a1), Call(20, a2)]).state.timer
            == Some(Timer(70, a2))
    ensures Run(Steps(Settings(Options(Some(50), None))), Idle(), [Call(0, a0), Call(10, a1), Call(20, a2), Fire(70)]).invoked
            == [Invocation(70, a2)]
  {
    var c := Settings(Options(Some(50), None));
    var calls := [Call(0, a0), Call(10, a1), Call(20, a2)];
    TrailingBurst(c, Idle(), calls);
    BurstThenFire(c, Idle(), calls, 70);
    assert calls + [Fire(70)] == [Call(0, a0), Call(10, a1), Call(20, a2), Fire(70)];
  }
}
