/**
 * The `debounce` wrapper of debounce.ts and the directive that installs it.
 *
 * The closure state (`timer`, `isInvoked`) is a `State`; each entry point
 * of the closure (a call of `debounced`, the timer callback, `cancel`) is a
 * step function on it, and the class `Debounced` runs those steps in place.
 * The clock is an explicit `now`; a pending timer is its deadline together
 * with the receiver and arguments its callback captured.
 */
module Debounce {
  import opened Timing
  import opened Binding

  /** The options object (`DebounceOptions`); `None` is an absent key. */
  datatype Options = Options(wait: Option<int>, immediate: Option<bool>)

  const NoOptions: Options := Options(None, None)

  /** The settings the closure runs with once the defaults are applied. */
  datatype Config = Config(wait: int, immediate: bool)

  /** `const { wait = 300, immediate = false } = options`. */
  function Settings(o: Options): (c: Config)
    ensures o.wait.None? ==> c.wait == 300
    ensures o.wait.Some? ==> c.wait == o.wait.value
    ensures c.immediate <==> o.immediate == Some(true)
  {
    Config(o.wait.GetOr(300), o.immediate.GetOr(false))
  }

  /** A scheduled trailing call: when it is due and what it will pass on. */
  datatype Timer<A> = Timer(deadline: int, args: A)

  /** The closure variables: the pending timer, if any, and `isInvoked`. */
  datatype State<A> = State(timer: Option<Timer<A>>, isInvoked: bool)

  /** The state right after `debounce(fn, options)` returns, and after `cancel()`. */
  function Idle<A>(): (s: State<A>)
    ensures s.timer.None? && !s.isInvoked
  {
    State(None, false)
  }

  /**
   * A call of `debounced` at clock `now`. Any pending timer is cleared first.
   * A leading call (immediate mode, `isInvoked` unset) runs the user function
   * at once; every other call schedules one timer carrying this call's
   * arguments, due `wait` after `now`.
   */
  function CallStep<A>(c: Config, s: State<A>, now: int, args: A): (r: Outcome<State<A>, A>)
    ensures r.invoked != [] <==> c.immediate && !s.isInvoked
    ensures r.invoked == [] || r.invoked == [Invocation(now, args)]
    ensures r.invoked != [] <==> r.state.timer.None?
    ensures r.state.timer.Some? ==> r.state.timer.value == Timer(now + Delay(c.wait), args)
    ensures r.state.isInvoked <==> s.isInvoked || c.immediate
  {
    if c.immediate && !s.isInvoked then
      Outcome(State(None, true), [Invocation(now, args)])
    else
      Outcome(State(Some(Timer(now + Delay(c.wait), args)), s.isInvoked), [])
  }

  /**
   * The pending timer's callback runs at clock `now`: the user function is
   * called once with the captured arguments and `isInvoked` is reset. With
   * no timer pending there is no callback to run and nothing changes.
   */
  function FireStep<A>(s: State<A>, now: int): (r: Outcome<State<A>, A>)
    ensures s.timer.None? ==> r == Outcome(s, [])
    ensures s.timer.Some? ==> r.state == Idle()
    ensures s.timer.Some? ==> r.invoked == [Invocation(now, s.timer.value.args)]
  {
    match s.timer
    case None => Outcome(s, [])
    case Some(t) => Outcome(Idle(), [Invocation(now, t.args)])
  }

  /** `debounced.cancel()`: clears the timer and `isInvoked`, calls nothing. */
  function CancelStep<A>(s: State<A>): (r: State<A>)
    ensures r.timer.None? && !r.isInvoked
  {
    Idle()
  }

  /** The wrapper returned by `debounce(fn, options)`. */
  class Debounced<A> {
    const config: Config
    var timer: Option<Timer<A>>
    var isInvoked: bool
    /** Every call of the user function so far, in order. */
    ghost var invocations: seq<Invocation<A>>

    ghost function Snapshot(): State<A>
      reads this
    {
      State(timer, isInvoked)
    }

    constructor (options: Options)
      ensures config == Settings(options)
      ensures Snapshot() == Idle() && invocations == []
    {
      config := Settings(options);
      timer := None;
      isInvoked := false;
      invocations := [];
    }

    /** `debounced.apply(receiver, args)` at clock `now`; `args` holds both. */
    method Call(now: int, args: A)
      modifies this
      ensures Snapshot() == CallStep(config, old(Snapshot()), now, args).state
      ensures invocations == old(invocations) + CallStep(config, old(Snapshot()), now, args).invoked
    {
      if timer.Some? {
        timer := None;
      }
      if config.immediate && !isInvoked {
        isInvoked := true;
        invocations := invocations + [Invocation(now, args)];
      } else {
        timer := Some(Timer(now + Delay(config.wait), args));
      }
    }

    /** The pending timer's callback, run by the host at clock `now`. */
    method Fire(now: int)
      requires timer.Some?
      modifies this
      ensures Snapshot() == FireStep(old(Snapshot()), now).state
      ensures invocations == old(invocations) + FireStep(old(Snapshot()), now).invoked
    {
      invocations := invocations + [Invocation(now, timer.value.args)];
      isInvoked := false;
      // The callback itself leaves its handle in `timer`; the handle is spent,
      // and clearing a spent handle later does nothing, so the model drops it.
      timer := None;
    }

    /** `debounced.cancel()`. */
    method Cancel()
      modifies this
      ensures Snapshot() == CancelStep(old(Snapshot()))
      ensures invocations == old(invocations)
    {
      if timer.Some? {
        timer := None;
      }
      isInvoked := false;
    }
  }

  /**
   * What `created` hands to the wrapper: a bare handler, or an object
   * without options, runs with the defaults; an object with options runs
   * with those options and the defaults for their absent keys.
   */
  lemma BoundSettings<F>(v: Value<F, Options>)
    ensures v.Bare? || v.options.None? ==> Settings(OptionsOf(v, NoOptions)) == Config(300, false)
    ensures v.Configured? && v.options.Some? ==> Settings(OptionsOf(v, NoOptions)) == Settings(v.options.value)
  {
  }

  /**
   * The directive bound to one element. `created` builds the wrapper and
   * registers a listener that forwards each event to it; `beforeUnmount`
   * unregisters that listener. The stored listener is a plain arrow function
   * with no `cancel` property, so the guarded `cancel()` in `beforeUnmount`
   * never runs and the wrapper is left as it was.
   */
  class DebounceDirective<F, E> {
    const handler: F
    const wrapper: Debounced<E>
    /** Event types on which the element's stored listener is registered. */
    var listeners: set<string>

    /** The `created` hook; `arg` is the directive argument. */
    constructor Created(value: Value<F, Options>, arg: Option<string>)
      ensures handler == HandlerOf(value)
      ensures fresh(wrapper) && wrapper.config == Settings(OptionsOf(value, NoOptions))
      ensures wrapper.Snapshot() == Idle() && wrapper.invocations == []
      ensures listeners == {EventName(arg, "input")}
    {
      handler := HandlerOf(value);
      wrapper := new Debounced(OptionsOf(value, NoOptions));
      listeners := {EventName(arg, "input")};
    }

    /** The element receives an event of type `eventType` at clock `now`. */
    method Dispatch(eventType: string, now: int, event: E)
      modifies wrapper
      ensures eventType in listeners ==>
        wrapper.Snapshot() == CallStep(wrapper.config, old(wrapper.Snapshot()), now, event).state &&
        wrapper.invocations == old(wrapper.invocations) + CallStep(wrapper.config, old(wrapper.Snapshot()), now, event).invoked
      ensures eventType !in listeners ==> unchanged(wrapper)
    {
      if eventType in listeners {
        wrapper.Call(now, event);
      }
    }

    /** The `beforeUnmount` hook; `arg` is the directive argument at that time. */
    method BeforeUnmount(arg: Option<string>)
      modifies this
      ensures listeners == old(listeners) - {EventName(arg, "input")}
      ensures wrapper.Snapshot() == old(wrapper.Snapshot())
      ensures wrapper.invocations == old(wrapper.invocations)
    {
      listeners := listeners - {EventName(arg, "input")};
    }
  }

  /**
   * A bound bare handler, one input event at clock 1000, then unmount: the
   * timer scheduled by the event is still pending afterwards, due at 1300,
   * and when the host runs it the handler is still called.
   */
  method UnmountLeavesTimerPending<F, E>(fn: F, event: E) returns (pending: Option<Timer<E>>)
    ensures pending == Some(Timer(1300, event))
  {
    var d := new DebounceDirective.Created(Bare(fn), None);
    d.Dispatch("input", 1000, event);
    d.BeforeUnmount(None);
    pending := d.wrapper.timer;
    d.wrapper.Fire(1300);
    assert d.wrapper.invocations == [Invocation(1300, event)];
  }
}
