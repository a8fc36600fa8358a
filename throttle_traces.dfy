/**
 * Properties of the throttle wrapper over whole sequences of events: which
 * arguments the trailing call delivers, what `leading: false` really does
 * once the clock has moved, and the spacing of invocations under a
 * well-behaved clock.
 */
module ThrottleTraces {
  import opened Timing
  import opened Throttle
  import opened Traces

  /** What can happen to one wrapper: a call, or its pending timer firing. */
  datatype Event<A> = Call(now: int, args: A) | Fire(now: int)

  function Step<A>(c: Config, s: State<A>, e: Event<A>): Outcome<State<A>, A> {
    match e
    case Call(now, args) => CallStep(c, s, now, args)
    case Fire(now) => FireStep(s, now)
  }
  /** `Step` for a wrapper with settings `c`, as a value `Run` can replay. */
  function Steps<A>(c: Config): (State<A>, Event<A>) -> Outcome<State<A>, A> {
    (s, e) => Step(c, s, e)
  }


  /** Every event is a call whose clock reading lies inside the window that `lastCallTime` opened. */
  predicate CallsInWindow<A>(c: Config, s: State<A>, evs: seq<Event<A>>) {
    forall i :: 0 <= i < |evs| ==> evs[i].Call? && !OutsideWindow(c, s, evs[i].now)
  }

  /**
   * While a trailing timer is pending, calls inside the window change
   * nothing: the stored arguments stay, no second timer appears, nothing is
   * invoked.
   */
  lemma {:induction false} PendingTimerIgnoresCalls<A>(c: Config, s: State<A>, evs: seq<Event<A>>)
    requires s.timer.Some?
    requires CallsInWindow(c, s, evs)
    ensures Run(Steps(c), s, evs) == Outcome(s, [])
    decreases |evs|
  {
    if evs != [] {
      assert CallStep(c, s, evs[0].now, evs[0].args).state == s;
      PendingTimerIgnoresCalls(c, s, evs[1..]);
    }
  }

  /**
   * A burst of calls inside the window with no timer pending: the first one
   * stores its arguments and schedules the trailing timer at
   * `lastCallTime + wait`; the later ones are dropped. When the timer fires
   * the user function gets the FIRST suppressed call's arguments.
   */
  lemma FirstSuppressedCallWins<A>(c: Config, s: State<A>, first: Event<A>, rest: seq<Event<A>>, t: int)
    requires c.trailing && s.timer.None?
    requires CallsInWindow(c, s, [first] + rest)
    ensures Run(Steps(c), s, [first] + rest) == Outcome(State(Some(s.lastCallTime + c.wait), Some(first.args), s.lastCallTime), [])
    ensures Run(Steps(c), s, [first] + rest + [Fire(t)]).invoked == [Invocation(t, first.args)]
    ensures Run(Steps(c), s, [first] + rest + [Fire(t)]).state == State(None, None, t)
  {
    assert ([first] + rest)[0] == first;
    var s1 := Step(c, s, first).state;
    assert s1 == State(Some(s.lastCallTime + c.wait), Some(first.args), s.lastCallTime);
    forall i | 0 <= i < |rest|
      ensures rest[i].Call? && !OutsideWindow(c, s1, rest[i].now)
    {
      assert rest[i] == ([first] + rest)[i + 1];
    }
    PendingTimerIgnoresCalls(c, s1, rest);
    RunAppend(Steps(c), s, [first], rest);
    RunAppend(Steps(c), s, [first] + rest, [Fire(t)]);
  }

  /** Every event reads a positive clock (as `Date.now()` does). */
  predicate PositiveClock<A>(evs: seq<Event<A>>) {
    forall i :: 0 <= i < |evs| ==> evs[i].now > 0
  }

  /** `lastCallTime` only ever takes the clock readings of events. */
  lemma {:induction false} LastCallTimeStaysPositive<A>(c: Config, s: State<A>, evs: seq<Event<A>>)
    requires s.lastCallTime > 0
    requires PositiveClock(evs)
    ensures Run(Steps(c), s, evs).state.lastCallTime > 0
    decreases |evs|
  {
    if evs != [] {
      LastCallTimeStaysPositive(c, Step(c, s, evs[0]).state, evs[1..]);
    }
  }

  /**
   * Once a call has taken the immediate branch at a positive clock,
   * `lastCallTime` stays positive, so every later call outside the window
   * invokes, whatever `leading` says.
   */
  lemma LaterCallsIgnoreLeading<A>(c: Config, s: State<A>, now: int, args: A, evs: seq<Event<A>>, t: int, b: A)
    requires now > 0 && OutsideWindow(c, s, now)
    requires PositiveClock(evs)
    ensures Run(Steps(c), s, [Call(now, args)] + evs).state.lastCallTime > 0
    ensures OutsideWindow(c, Run(Steps(c), s, [Call(now, args)] + evs).state, t) ==>
      CallStep(c, Run(Steps(c), s, [Call(now, args)] + evs).state, t, b).invoked == [Invocation(t, b)]
  {
    var s1 := CallStep(c, s, now, args).state;
    LastCallTimeStaysPositive(c, s1, evs);
    RunAppend(Steps(c), s, [Call(now, args)], evs);
  }

  /**
   * `leading: false, trailing: false` is not a wrapper that never invokes:
   * a first call a full `wait` into the clock only records the time, and a
   * second call a full `wait` later invokes.
   */
  lemma NeitherEdgeStillInvokes<A>(wait: int, t1: int, a1: A, t2: int, a2: A)
    requires t1 > 0 && t1 >= wait && t2 >= t1 + wait
    ensures Run(Steps(Config(wait, false, false)), Initial(), [Call(t1, a1), Call(t2, a2)]).invoked == [Invocation(t2, a2)]
  {
    var c := Config(wait, false, false);
    var s1 := CallStep(c, Initial(), t1, a1).state;
    assert s1.lastCallTime == t1 && CallStep(c, Initial(), t1, a1).invoked == [];
    assert [Call(t1, a1), Call(t2, a2)][1..] == [Call(t2, a2)];
    assert Run(Steps(c), s1, [Call(t2, a2)]).invoked == [Invocation(t2, a2)];
  }

  /**
   * The clock never reads earlier than `clock` and then never goes back, and
   * no timer fires before its deadline.
   */
  ghost predicate WellTimed<A>(c: Config, s: State<A>, clock: int, evs: seq<Event<A>>)
    decreases |evs|
  {
    evs == [] ||
    (&& clock <= evs[0].now
     && (evs[0].Fire? && s.timer.Some? ==> s.timer.value <= evs[0].now)
     && WellTimed(c, Step(c, s, evs[0]).state, evs[0].now, evs[1..]))
  }

  /** The spacing bookkeeping survives any well-timed run. */
  lemma {:induction false} RunKeepsSchedule<A>(c: Config, s: State<A>, clock: int, trace: seq<Invocation<A>>, evs: seq<Event<A>>)
    requires Inv(c, s) && OnSchedule(c, s, clock, trace)
    requires WellTimed(c, s, clock, evs)
    ensures Spaced(trace + Run(Steps(c), s, evs).invoked, c.wait)
    decreases |evs|
  {
    if evs == [] {
      assert trace + Run(Steps(c), s, evs).invoked == trace;
    } else {
      var e := evs[0];
      var o := Step(c, s, e);
      match e {
        case Call(now, args) =>
          CallKeepsSchedule(c, s, clock, trace, now, args);
          StepsKeepInv(c, s, now, args);
        case Fire(now) =>
          FireKeepsSchedule(c, s, clock, trace, now);
          if s.lastArgs.Some? { StepsKeepInv(c, s, now, s.lastArgs.value); }
      }
      var rest := Run(Steps(c), o.state, evs[1..]);
      assert Steps(c)(s, e) == o;
      assert Run(Steps(c), s, evs).invoked == o.invoked + rest.invoked;
      RunKeepsSchedule(c, o.state, e.now, trace + o.invoked, evs[1..]);
      assert trace + o.invoked + rest.invoked == trace + (o.invoked + rest.invoked);
    }
  }

  /**
   * With a clock that starts at 0 and never goes back, and timers that never
   * fire early, consecutive invocations are at least `wait` apart.
   */
  lemma InvocationsAreSpaced<A>(c: Config, evs: seq<Event<A>>)
    requires WellTimed(c, Initial(), 0, evs)
    ensures Spaced(Run(Steps(c), Initial(), evs).invoked, c.wait)
  {
    RunKeepsSchedule(c, Initial(), 0, [], evs);
    assert [] + Run(Steps(c), Initial<A>(), evs).invoked == Run(Steps(c), Initial(), evs).invoked;
  }

  /**
   * Defaults with `wait: 100`: calls at 1000, 1030, 1060 and 1090, the timer
   * at 1100, a call at 1150 and its timer at 1200. The leading call runs at
   * 1000; the trailing call at 1100 gets the 1030 call's arguments; the 1150
   * call opens a new trailing timer, which runs at 1200.
   */
  lemma BurstScenario<A>(a0: A, a1: A, a2: A, a3: A, a4: A)
    ensures Run(Steps(Settings(Options(Some(100), None, None))), Initial(),
                [Call(1000, a0), Call(1030, a1), Call(1060, a2), Call(1090, a3), Fire(1100), Call(1150, a4), Fire(1200)]).invoked
            == [Invocation(1000, a0), Invocation(1100, a1), Invocation(1200, a4)]
  {
    var c := Settings(Options(Some(100), None, None));
    var s0 := Initial<A>();
    var lead := [Call(1000, a0)];
    var burst := [Call(1030, a1), Call(1060, a2), Call(1090, a3)];
    var tail := [Call(1150, a4), Fire(1200)];
    var s1 := CallStep(c, s0, 1000, a0).state;
    assert Run(Steps(c), s0, lead) == Outcome(s1, [Invocation(1000, a0)]);
    assert s1 == State(None, None, 1000);
    FirstSuppressedCallWins(c, s1, burst[0], burst[1..], 1100);
    assert [burst[0]] + burst[1..] == burst;
    var s2 := State(None, None, 1100);
    assert Run(Steps(c), s1, burst + [Fire(1100)]) == Outcome(s2, [Invocation(1100, a1)]);
    var s3 := CallStep(c, s2, 1150, a4).state;
    assert s3 == State(Some(1200), Some(a4), 1100);
    assert tail[1..] == [Fire(1200)];
    assert Run(Steps(c), s3, [Fire(1200)]).invoked == [Invocation(1200, a4)];
    assert Run(Steps(c), s2, tail).invoked == [Invocation(1200, a4)];
    RunAppend(Steps(c), s0, lead, burst + [Fire(1100)]);
    RunAppend(Steps(c), s0, lead + (burst + [Fire(1100)]), tail);
    assert lead + (burst + [Fire(1100)]) + tail
        == [Call(1000, a0), Call(1030, a1), Call(1060, a2), Call(1090, a3), Fire(1100), Call(1150, a4), Fire(1200)];
  }
}
