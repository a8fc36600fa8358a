/**
 * The `throttle` wrapper of throttle.ts and the directive that installs it.
 *
 * The closure state (`timer`, `lastArgs`/`lastThis`, `lastCallTime`) is a
 * `State`; a call of the returned function and the trailing timer's
 * callback are step functions on it, and the class `Throttled` runs them in
 * place. The clock is an explicit `now`; a pending timer is its deadline
 * (its callback reads the stored arguments when it runs).
 */
module Throttle {
  import opened Timing
  import opened Binding

  /** The options object (`ThrottleOptions`); `None` is an absent key. */
  datatype Options = Options(wait: Option<int>, leading: Option<bool>, trailing: Option<bool>)

  const NoOptions: Options := Options(None, None, None)

  /** The settings the closure runs with once the defaults are applied. */
  datatype Config = Config(wait: int, leading: bool, trailing: bool)

  /** `const { wait = 300, leading = true, trailing = true } = options`. */
  function Settings(o: Options): (c: Config)
    ensures o.wait.None? ==> c.wait == 300
    ensures o.wait.Some? ==> c.wait == o.wait.value
    ensures c.leading <==> o.leading != Some(false)
    ensures c.trailing <==> o.trailing != Some(false)
  {
    Config(o.wait.GetOr(300), o.leading.GetOr(true), o.trailing.GetOr(true))
  }

  /**
   * The closure variables: the deadline of the pending trailing timer, the
   * stored receiver and arguments (`lastThis` and `lastArgs`, which are
   * always set and cleared together), and `lastCallTime`.
   */
  datatype State<A> = State(timer: Option<int>, lastArgs: Option<A>, lastCallTime: int)

  /** The state right after `throttle(fn, options)` returns. */
  function Initial<A>(): (s: State<A>)
    ensures s.timer.None? && s.lastArgs.None? && s.lastCallTime == 0
  {
    State(None, None, 0)
  }

  /** `remaining`: how much of the window opened by `lastCallTime` is left at `now`. */
  function Remaining<A>(c: Config, s: State<A>, now: int): (r: int)
    ensures r <= 0 <==> now - s.lastCallTime >= c.wait
    ensures r > c.wait <==> now < s.lastCallTime
    ensures 0 < r <= c.wait ==> now + r == s.lastCallTime + c.wait
  {
    c.wait - (now - s.lastCallTime)
  }

  /**
   * The guard of the immediate branch, `remaining <= 0 || remaining > wait`:
   * either a full `wait` has passed since `lastCallTime`, or the clock reads
   * earlier than `lastCallTime`.
   */
  predicate OutsideWindow<A>(c: Config, s: State<A>, now: int)
    ensures OutsideWindow(c, s, now) <==> now - s.lastCallTime >= c.wait || now < s.lastCallTime
  {
    Remaining(c, s, now) <= 0 || Remaining(c, s, now) > c.wait
  }

  /**
   * A call of the returned function at clock `now`. Outside the window it
   * clears any pending timer and then either invokes (when `leading` is set
   * or `lastCallTime` is positive) or only moves `lastCallTime` to `now`.
   * Inside the window it stores the arguments and schedules the trailing
   * timer, but only when `trailing` is set and no timer is pending;
   * otherwise it changes nothing.
   */
  function CallStep<A>(c: Config, s: State<A>, now: int, args: A): (r: Outcome<State<A>, A>)
    ensures r.invoked != [] <==> OutsideWindow(c, s, now) && (c.leading || s.lastCallTime > 0)
    ensures r.invoked == [] || r.invoked == [Invocation(now, args)]
    ensures OutsideWindow(c, s, now) ==>
      r.state.timer.None? && r.state.lastCallTime == now && r.state.lastArgs == s.lastArgs
    ensures !OutsideWindow(c, s, now) && (s.timer.Some? || !c.trailing) ==> r.state == s
    ensures !OutsideWindow(c, s, now) && s.timer.None? && c.trailing ==>
      r.state == State(Some(s.lastCallTime + c.wait), Some(args), s.lastCallTime)
  {
    var remaining := Remaining(c, s, now);
    if remaining <= 0 || remaining > c.wait then
      if c.leading || s.lastCallTime > 0 then
        Outcome(State(None, s.lastArgs, now), [Invocation(now, args)])
      else
        Outcome(State(None, s.lastArgs, now), [])
    else if s.timer.None? && c.trailing then
      Outcome(State(Some(now + Delay(remaining)), Some(args), s.lastCallTime), [])
    else
      Outcome(s, [])
  }

  /**
   * The trailing timer's callback at clock `now`: when arguments are stored
   * it invokes with them (moving `lastCallTime` to `now`) and clears them;
   * in any case it clears the timer. With no timer pending there is no
   * callback to run and nothing changes.
   */
  function FireStep<A>(s: State<A>, now: int): (r: Outcome<State<A>, A>)
    ensures s.timer.None? ==> r == Outcome(s, [])
    ensures s.timer.Some? ==> r.state.timer.None? && r.state.lastArgs.None?
    ensures s.timer.Some? && s.lastArgs.Some? ==>
      r.invoked == [Invocation(now, s.lastArgs.value)] && r.state.lastCallTime == now
    ensures s.lastArgs.None? ==> r.invoked == [] && r.state.lastCallTime == s.lastCallTime
  {
    match s.timer
    case None => Outcome(s, [])
    case Some(_) =>
      match s.lastArgs
      case Some(a) => Outcome(State(None, None, now), [Invocation(now, a)])
      case None => Outcome(State(None, None, s.lastCallTime), [])
  }

  /**
   * What every reachable state satisfies: a pending timer has arguments to
   * deliver and is due exactly `wait` after `lastCallTime`.
   */
  ghost predicate Inv<A>(c: Config, s: State<A>) {
    s.timer.Some? ==> s.lastArgs.Some? && s.timer.value == s.lastCallTime + c.wait
  }

  lemma InitialInv<A>(c: Config)
    ensures Inv(c, Initial<A>())
  {
  }

  lemma StepsKeepInv<A>(c: Config, s: State<A>, now: int, args: A)
    requires Inv(c, s)
    ensures Inv(c, CallStep(c, s, now, args).state)
    ensures Inv(c, FireStep(s, now).state)
  {
  }

  /**
   * Spacing bookkeeping: `lastCallTime` is not ahead of the clock, the trace
   * is spaced by `wait`, and the last invocation is not after `lastCallTime`.
   */
  ghost predicate OnSchedule<A>(c: Config, s: State<A>, clock: int, trace: seq<Invocation<A>>) {
    && s.lastCallTime <= clock
    && Spaced(trace, c.wait)
    && (trace != [] ==> trace[|trace| - 1].at <= s.lastCallTime)
  }

  /** A call at a clock reading no earlier than the previous one keeps the spacing. */
  lemma CallKeepsSchedule<A>(c: Config, s: State<A>, clock: int, trace: seq<Invocation<A>>, now: int, args: A)
    requires OnSchedule(c, s, clock, trace)
    requires clock <= now
    ensures OnSchedule(c, CallStep(c, s, now, args).state, now, trace + CallStep(c, s, now, args).invoked)
  {
    var r := CallStep(c, s, now, args);
    if r.invoked != [] {
      SpacedSnoc(trace, c.wait, Invocation(now, args));
    } else {
      assert trace + r.invoked == trace;
    }
  }

  /**
   * A timer firing at a clock reading no earlier than the previous one and
   * no earlier than its deadline keeps the spacing.
   */
  lemma FireKeepsSchedule<A>(c: Config, s: State<A>, clock: int, trace: seq<Invocation<A>>, now: int)
    requires Inv(c, s) && OnSchedule(c, s, clock, trace)
    requires clock <= now
    requires s.timer.Some? ==> s.timer.value <= now
    ensures OnSchedule(c, FireStep(s, now).state, now, trace + FireStep(s, now).invoked)
  {
    var r := FireStep(s, now);
    if r.invoked != [] {
      SpacedSnoc(trace, c.wait, r.invoked[0]);
      assert trace + r.invoked == trace + [r.invoked[0]];
    } else {
      assert trace + r.invoked == trace;
    }
  }

  /** The function returned by `throttle(fn, options)`. */
  class Throttled<A> {
    const config: Config
    /** Deadline of the pending trailing timer. */
    var timer: Option<int>
    /** `lastArgs` with `lastThis`. */
    var lastArgs: Option<A>
    var lastCallTime: int
    /** Every call of the user function so far, in order. */
    ghost var invocations: seq<Invocation<A>>
    /** The latest clock reading seen. */
    ghost var clock: int
    /** So far the clock never went back and no timer ran before its deadline. */
    ghost var onSchedule: bool

    ghost function Snapshot(): State<A>
      reads this
    {
      State(timer, lastArgs, lastCallTime)
    }

    /**
     * The closure's invariant, and while the clock behaves, the spacing of
     * every invocation so far by at least `wait`.
     */
    ghost predicate Valid()
      reads this
    {
      Inv(config, Snapshot()) && (onSchedule ==> OnSchedule(config, Snapshot(), clock, invocations))
    }

    constructor (options: Options)
      ensures Valid()
      ensures config == Settings(options)
      ensures Snapshot() == Initial() && invocations == []
      ensures clock == 0 && onSchedule
    {
      config := Settings(options);
      timer := None;
      lastArgs := None;
      lastCallTime := 0;
      invocations := [];
      clock := 0;
      onSchedule := true;
    }

    /**
     * `invokeFunction`: call the user function, then record the clock. In
     * the source it is private to the closure and runs only inside `Call`
     * and `Fire`, part way through their steps; called on its own it can
     * leave a pending deadline out of step with `lastCallTime`, which is why
     * it neither requires nor ensures `Valid()`.
     */
    method InvokeFunction(now: int, args: A)
      modifies this
      ensures invocations == old(invocations) + [Invocation(now, args)]
      ensures lastCallTime == now
      ensures timer == old(timer) && lastArgs == old(lastArgs)
      ensures clock == old(clock) && onSchedule == old(onSchedule)
    {
      invocations := invocations + [Invocation(now, args)];
      lastCallTime := now;
    }

    /** A call of the throttled function at clock `now`; `args` holds receiver and arguments. */
    method Call(now: int, args: A)
      requires Valid()
      modifies this
      ensures Valid()
      ensures Snapshot() == CallStep(config, old(Snapshot()), now, args).state
      ensures invocations == old(invocations) + CallStep(config, old(Snapshot()), now, args).invoked
      ensures clock == now && onSchedule == (old(onSchedule) && old(clock) <= now)
    {
      ghost var s0, trace0, clock0 := Snapshot(), invocations, clock;
      var remaining := config.wait - (now - lastCallTime);
      if remaining <= 0 || remaining > config.wait {
        if timer.Some? {
          timer := None;
        }
        if config.leading || lastCallTime > 0 {
          InvokeFunction(now, args);
        } else {
          lastCallTime := now;
        }
      } else if timer.None? && config.trailing {
        lastArgs := Some(args);
        timer := Some(now + Delay(remaining));
      }
      StepsKeepInv(config, s0, now, args);
      if onSchedule && clock0 <= now {
        CallKeepsSchedule(config, s0, clock0, trace0, now, args);
      }
      onSchedule := onSchedule && clock0 <= now;
      clock := now;
    }

    /** The trailing timer's callback, run by the host at clock `now`. */
    method Fire(now: int)
      requires Valid()
      requires timer.Some?
      modifies this
      ensures Valid()
      ensures Snapshot() == FireStep(old(Snapshot()), now).state
      ensures invocations == old(invocations) + FireStep(old(Snapshot()), now).invoked
      ensures clock == now
      ensures onSchedule == (old(onSchedule) && old(clock) <= now && old(timer).value <= now)
    {
      ghost var s0, trace0, clock0 := Snapshot(), invocations, clock;
      ghost var onTime := onSchedule && clock0 <= now && timer.value <= now;
      if lastArgs.Some? {
        InvokeFunction(now, lastArgs.value);
        lastArgs := None;
      }
      timer := None;
      StepsKeepInv(config, s0, now, s0.lastArgs.value);
      if onTime {
        FireKeepsSchedule(config, s0, clock0, trace0, now);
      }
      onSchedule := onTime;
      clock := now;
    }
  }

  /**
   * What `created` hands to the wrapper: a bare handler, or an object
   * without options, runs with the defaults; an object with options runs
   * with those options and the defaults for their absent keys.
   */
  lemma BoundSettings<F>(v: Value<F, Options>)
    ensures v.Bare? || v.options.None? ==> Settings(OptionsOf(v, NoOptions)) == Config(300, true, true)
    ensures v.Configured? && v.options.Some? ==> Settings(OptionsOf(v, NoOptions)) == Settings(v.options.value)
  {
  }

  /**
   * The directive bound to one element. `created` builds the wrapper and
   * registers a listener that forwards each event to it; `beforeUnmount`
   * only unregisters that listener and leaves the wrapper, and any pending
   * trailing timer, as they were.
   */
  class ThrottleDirective<F, E> {
    const handler: F
    const wrapper: Throttled<E>
    /** Event types on which the element's stored listener is registered. */
    var listeners: set<string>

    /** The `created` hook; `arg` is the directive argument. */
    constructor Created(value: Value<F, Options>, arg: Option<string>)
      ensures handler == HandlerOf(value)
      ensures fresh(wrapper) && wrapper.Valid() && wrapper.config == Settings(OptionsOf(value, NoOptions))
      ensures wrapper.Snapshot() == Initial() && wrapper.invocations == []
      ensures listeners == {EventName(arg, "click")}
    {
      handler := HandlerOf(value);
      wrapper := new Throttled(OptionsOf(value, NoOptions));
      listeners := {EventName(arg, "click")};
    }

    /** The element receives an event of type `eventType` at clock `now`. */
    method Dispatch(eventType: string, now: int, event: E)
      requires wrapper.Valid()
      modifies wrapper
      ensures wrapper.Valid()
      ensures eventType in listeners ==>
        wrapper.Snapshot() == CallStep(wrapper.config, old(wrapper.Snapshot()), now, event).state &&
        wrapper.invocations == old(wrapper.invocations) + CallStep(wrapper.config, old(wrapper.Snapshot()), now, event).invoked
      ensures eventType !in listeners ==> unchanged(wrapper)
    {
      if eventType in listeners {
        wrapper.Call(now, event);
      }
    }

    /** The `beforeUnmount` hook; `arg` is the directive argument at that time. */
    method BeforeUnmount(arg: Option<string>)
      modifies this
      ensures listeners == old(listeners) - {EventName(arg, "click")}
      ensures wrapper.Snapshot() == old(wrapper.Snapshot())
      ensures wrapper.invocations == old(wrapper.invocations)
    {
      listeners := listeners - {EventName(arg, "click")};
    }
  }

  /**
   * A bound bare handler, clicks at 1000 and 1100, then unmount: the
   * trailing timer the second click scheduled is still pending afterwards,
   * due at 1300, and when the host runs it the handler gets the second click.
   */
  method UnmountLeavesTimerPending<F, E>(fn: F, e1: E, e2: E) returns (pending: Option<int>)
    ensures pending == Some(1300)
  {
    var d := new ThrottleDirective.Created(Bare(fn), None);
    d.Dispatch("click", 1000, e1);
    d.Dispatch("click", 1100, e2);
    d.BeforeUnmount(None);
    pending := d.wrapper.timer;
    d.wrapper.Fire(1300);
    assert d.wrapper.invocations == [Invocation(1000, e1), Invocation(1300, e2)];
  }
}
