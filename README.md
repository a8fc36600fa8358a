# Debounce and throttle directives, modelled in Dafny

This project models the two rate-limiting directives of a Vue directive
library: `v-debounce` (packages/core/directive/debounce.ts) and
`v-throttle` (packages/core/directive/throttle.ts). Each wraps a user
handler in a closure. The closure keeps a small amount of state and decides,
on every event and every timer expiry, whether the handler runs now, later,
or not at all.

The model keeps the state the closures keep:

- debounce: `timer` and `isInvoked`;
- throttle: `timer`, `lastArgs`/`lastThis` and `lastCallTime`.

Each entry point of a closure is a pure step function on that state: a
call, the timer callback and, for debounce, `cancel()`. A class per
wrapper holds the same fields and runs the same steps in place. Each of
its methods states its new state as the step function applied to the old
state. A ghost `invocations` sequence records every call of the user
function, with its clock reading and its receiver and arguments.

The outside world becomes parameters. `now` stands for `Date.now()`. The
host runs a timer callback by calling `Fire(now)`, which is allowed only
while a timer is pending. A pending debounce timer is `Some(Timer(deadline,
args))`. A pending throttle timer is `Some(deadline)`; its callback reads the
stored `lastArgs` when it runs.

The `*_traces` modules replay sequences of events (`Run`) and prove what
whole bursts do. They cover trailing-edge debounce, the immediate mode, what
can follow `cancel()`, which arguments throttle's trailing call gets, what
`leading: false` does once the clock has moved, and the spacing of throttled
invocations.

Files: `timing.dfy` (shared vocabulary), `binding.dfy` (the `created` hooks'
value normalisation), `traces.dfy` (replaying events through any step
function), `debounce.dfy`, `debounce_traces.dfy`, `throttle.dfy`,
`throttle_traces.dfy`.

## Behaviour as written

The model follows the code. In several places the code does something other
than what its own comments and guards suggest, or than a reader of a
debounce or throttle would expect. Each one except the last is proved in
the model:

- **Debounce `immediate: true` fires twice per burst.** The option's
  comment (debounce.ts:37-39) says the first trigger runs at once. It does,
  but any second call in the same burst also schedules a trailing run with
  the last call's arguments (`ImmediateBurstFiresTwice`).
- **`isInvoked` is never cleared by a quiet period.** Against the same
  comment (debounce.ts:37-39), a trigger after a long pause is not run at
  once if the previous burst was a single immediate call. The flag is reset
  only when a timer fires or `cancel()` runs. So the next call waits `wait`
  however late it comes (`LoneImmediateCallDelaysNext`,
  `InvokedFlagHoldsAcrossCalls`).
- **Throttle's trailing call gets the first suppressed call's arguments,
  not the latest.** A reader would expect a throttle's trailing call to
  carry the latest arguments. Here, while the timer is pending, further
  calls inside the window are ignored (`FirstSuppressedCallWins`,
  `PendingTimerIgnoresCalls`).
- **`leading: false, trailing: false` still invokes.** The option comments
  (throttle.ts:17-25) describe `leading` as whether to run at the start of a
  window. Yet once a call has set `lastCallTime` to a positive clock reading,
  every call outside the window invokes whatever `leading` says
  (`NeitherEdgeStillInvokes`, `LaterCallsIgnoreLeading`).
- **Neither teardown cancels a pending timer.** Debounce's `beforeUnmount`
  has a guarded `cancel()` (debounce.ts:114-117), so the intent is to cancel.
  But the guard looks for `cancel` on the arrow function stored at
  debounce.ts:103, which has no such property, so `cancel()` never runs.
  Throttle's `beforeUnmount` (throttle.ts:86-89) only removes the listener.
  In both models, `BeforeUnmount` leaves the wrapper unchanged. The
  `UnmountLeavesTimerPending` methods show a timer surviving unmount and
  still calling the handler.
- **An object value without `handler` is not rejected when bound.** A reader
  might expect a bad value to fail when bound. Instead `debounce(undefined,
  …)` builds a wrapper normally, and the failure comes only when the
  handler is first called. The model's `Value` always carries a handler, so
  this case is not represented (see below).

## Model

| member | source | states |
|---|---|---|
| Timing.Delay | packages/core/directive/debounce.ts:78-81 | the delay a host timer waits: the requested delay if it is non-negative, 0 otherwise |
| Timing.SpacedSnoc | packages/core/directive/throttle.ts:38-41 | appending an invocation at least `gap` after the last one keeps a trace spaced by `gap` |
| Binding.HandlerOf | packages/core/directive/debounce.ts:99 | the handler is the bare function itself, or the object's `handler` |
| Binding.OptionsOf | packages/core/directive/debounce.ts:100 | a bare function gets the empty options object; an object gets its `options`, or the empty object when they are absent |
| Binding.EventName | packages/core/directive/debounce.ts:106 | the listened event is the directive argument, or the default when the argument is absent or the empty string |
| Debounce.Settings | packages/core/directive/debounce.ts:63 | absent `wait` means 300 and absent `immediate` means false; given values win |
| Debounce.Idle | packages/core/directive/debounce.ts:64-65 | the state of a new wrapper, which `cancel()` also leaves (debounce.ts:85-91): no timer pending and `isInvoked` unset |
| Debounce.CallStep | packages/core/directive/debounce.ts:67-83 | a call invokes at once exactly when immediate mode is on and `isInvoked` is unset; it then leaves no timer. Otherwise it invokes nothing and leaves exactly one timer, due `wait` after `now`, carrying this call's arguments. Any earlier timer is gone either way, and `isInvoked` ends set iff it was set or immediate mode is on |
| Debounce.FireStep | packages/core/directive/debounce.ts:78-81 | a pending timer's callback invokes once with the captured arguments and leaves no timer and `isInvoked` cleared; with no timer pending nothing happens |
| Debounce.CancelStep | packages/core/directive/debounce.ts:85-91 | `cancel()` leaves no timer and `isInvoked` cleared |
| Debounce.Debounced.constructor | packages/core/directive/debounce.ts:62-65 | a new wrapper runs with the defaulted settings, has no timer, has `isInvoked` unset and has invoked nothing |
| Debounce.Debounced.Call | packages/core/directive/debounce.ts:67-83 | the fields after a call are `CallStep`'s state and the trace grows by `CallStep`'s invocations |
| Debounce.Debounced.Fire | packages/core/directive/debounce.ts:78-81 | with a timer pending, the fields after the callback are `FireStep`'s state and the trace grows by its one invocation |
| Debounce.Debounced.Cancel | packages/core/directive/debounce.ts:85-91 | the fields after `cancel()` are `CancelStep`'s state and nothing is invoked |
| Debounce.BoundSettings | packages/core/directive/debounce.ts:99-101 | a bare handler, or an object without options, runs with `wait` 300 and `immediate` false; given options run with their own values |
| Debounce.DebounceDirective.Created | packages/core/directive/debounce.ts:97-107 | `created` builds a fresh idle wrapper from the normalised value and registers one listener, on the argument or on `input` |
| Debounce.DebounceDirective.Dispatch | packages/core/directive/debounce.ts:103-105 | an event of a registered type is one call of the wrapper; any other event leaves the wrapper unchanged |
| Debounce.DebounceDirective.BeforeUnmount | packages/core/directive/debounce.ts:109-120 | teardown removes the listener for the argument (or `input`) and leaves the wrapper's timer, flag and trace as they were |
| Debounce.UnmountLeavesTimerPending | packages/core/directive/debounce.ts:109-120 | after an event at 1000 and unmount, the timer due at 1300 is still pending, and firing it calls the handler |
| Traces.RunAppend | packages/core/directive/debounce.ts:67-91 | for any step function, hence for both wrappers, running two event sequences one after the other is running their concatenation |
| DebounceTraces.TrailingBurst | packages/core/directive/debounce.ts:67-83 | without immediate mode, any burst of calls invokes nothing and leaves one timer with the last call's deadline and arguments |
| DebounceTraces.BurstThenFire | packages/core/directive/debounce.ts:67-83 | without immediate mode, a burst and then the timer firing gives exactly one invocation, with the last call's arguments, and leaves the wrapper idle |
| DebounceTraces.InvokedFlagHoldsAcrossCalls | packages/core/directive/debounce.ts:73-81 | once `isInvoked` is set, calls at any clock readings invoke nothing synchronously and keep the flag set |
| DebounceTraces.ImmediateBurst | packages/core/directive/debounce.ts:73-81 | in immediate mode with the flag clear, a burst of two or more calls invokes the first at once and leaves a timer for the last, with the flag set |
| DebounceTraces.ImmediateBurstFiresTwice | packages/core/directive/debounce.ts:73-81 | in immediate mode with the flag clear, a burst of two or more calls and then the timer firing gives two invocations: the first call's and, at the firing, the last call's arguments |
| DebounceTraces.LoneImmediateCallDelaysNext | packages/core/directive/debounce.ts:73-81 | in immediate mode, after one call from idle, a second call at any time is not invoked at once but scheduled |
| DebounceTraces.NothingWithoutCall | packages/core/directive/debounce.ts:78-91 | with no timer pending, events other than calls never invoke and never create a timer |
| DebounceTraces.CancelSilences | packages/core/directive/debounce.ts:85-91 | `cancel()` leaves the wrapper idle, is idempotent, and no invocation follows it until a new call |
| DebounceTraces.CallThenCancel | packages/core/directive/debounce.ts:67-91 | a call cancelled before its timer fires contributes only its synchronous leading invocation, if any; outside a leading call, nothing |
| DebounceTraces.ThreeCallsOneInvocation | packages/core/directive/debounce.ts:62-83 | with `wait: 50`, calls at 0, 10 and 20 leave a timer due at 70, and firing it gives one invocation with the third call's arguments |
| Throttle.Settings | packages/core/directive/throttle.ts:32 | absent `wait` means 300, absent `leading` and `trailing` mean true; given values win |
| Throttle.Initial | packages/core/directive/throttle.ts:33-36 | the state of a new wrapper: no timer, no stored receiver or arguments, `lastCallTime` 0 |
| Throttle.Remaining | packages/core/directive/throttle.ts:45 | `remaining` is non-positive exactly when a full `wait` has passed since `lastCallTime`, exceeds `wait` exactly when the clock reads earlier than `lastCallTime`, and otherwise reaches `lastCallTime + wait` when added to `now` |
| Throttle.OutsideWindow | packages/core/directive/throttle.ts:44-47 | the immediate branch is taken exactly when at least `wait` has passed since `lastCallTime` or the clock reads earlier than `lastCallTime` |
| Throttle.CallStep | packages/core/directive/throttle.ts:43-70 | a call invokes (with its own arguments at `now`) iff it is outside the window and `leading` is set or `lastCallTime` is positive. Outside the window it always clears the timer and sets `lastCallTime` to `now`. Inside the window it schedules a timer, due at `lastCallTime + wait` with its arguments stored, only when `trailing` is set and no timer is pending; otherwise it changes nothing |
| Throttle.FireStep | packages/core/directive/throttle.ts:61-68 | the trailing callback invokes once with the stored arguments and sets `lastCallTime` to `now`; it always clears the stored arguments and the timer; with no timer pending nothing happens |
| Throttle.InitialInv | packages/core/directive/throttle.ts:33-36 | the initial state has no timer, so it meets the invariant |
| Throttle.StepsKeepInv | packages/core/directive/throttle.ts:43-70 | calls and firings keep the invariant: a pending timer has stored arguments and is due exactly `wait` after `lastCallTime` |
| Throttle.CallKeepsSchedule | packages/core/directive/throttle.ts:43-56 | a call at a clock reading no earlier than the last keeps invocations spaced by `wait` and `lastCallTime` not before the last invocation |
| Throttle.FireKeepsSchedule | packages/core/directive/throttle.ts:61-68 | a firing no earlier than the last reading and its deadline keeps invocations spaced by `wait` |
| Throttle.Throttled.constructor | packages/core/directive/throttle.ts:31-36 | a new wrapper runs with the defaulted settings, has no timer, no stored arguments, `lastCallTime` 0 and an empty trace |
| Throttle.Throttled.InvokeFunction | packages/core/directive/throttle.ts:38-41 | invoking records the invocation and sets `lastCallTime` to the clock, changing nothing else |
| Throttle.Throttled.Call | packages/core/directive/throttle.ts:43-70 | the fields after a call are `CallStep`'s state and the trace grows by its invocations; while the clock has not gone back, the trace stays spaced by `wait` |
| Throttle.Throttled.Fire | packages/core/directive/throttle.ts:61-68 | with a timer pending, the fields after the callback are `FireStep`'s state; the spacing survives when the callback is not early |
| Throttle.BoundSettings | packages/core/directive/throttle.ts:76-78 | a bare handler, or an object without options, runs with `wait` 300 and both edges on; given options run with their own values |
| Throttle.ThrottleDirective.Created | packages/core/directive/throttle.ts:74-84 | `created` builds a fresh wrapper from the normalised value and registers one listener, on the argument or on `click` |
| Throttle.ThrottleDirective.Dispatch | packages/core/directive/throttle.ts:80-82 | an event of a registered type is one call of the wrapper; any other event leaves the wrapper unchanged |
| Throttle.ThrottleDirective.BeforeUnmount | packages/core/directive/throttle.ts:86-89 | teardown removes the listener for the argument (or `click`) and leaves the wrapper, including a pending timer, as it was |
| Throttle.UnmountLeavesTimerPending | packages/core/directive/throttle.ts:86-89 | after clicks at 1000 and 1100 and unmount, the trailing timer due at 1300 is still pending, and firing it calls the handler with the second click |
| ThrottleTraces.PendingTimerIgnoresCalls | packages/core/directive/throttle.ts:57-69 | while a trailing timer is pending, calls inside the window change nothing: same stored arguments, no second timer, no invocation |
| ThrottleTraces.FirstSuppressedCallWins | packages/core/directive/throttle.ts:57-68 | a burst inside the window with no timer pending stores the first call's arguments and schedules a timer at `lastCallTime + wait`; firing invokes with the first call's arguments |
| ThrottleTraces.LastCallTimeStaysPositive | packages/core/directive/throttle.ts:38-55 | with positive clock readings, a positive `lastCallTime` stays positive |
| ThrottleTraces.LaterCallsIgnoreLeading | packages/core/directive/throttle.ts:52-55 | after a call outside the window at a positive clock, `lastCallTime` is positive and any later call outside the window invokes, whatever `leading` is |
| ThrottleTraces.NeitherEdgeStillInvokes | packages/core/directive/throttle.ts:47-55 | with `leading` and `trailing` both false, a second call a full `wait` after the first still invokes |
| ThrottleTraces.RunKeepsSchedule | packages/core/directive/throttle.ts:43-70 | in any run with a clock that never goes back and timers that never fire early, the invocations stay spaced by `wait` |
| ThrottleTraces.InvocationsAreSpaced | packages/core/directive/throttle.ts:43-70 | from a fresh wrapper, with a clock that never goes back and no early timers, consecutive invocations are at least `wait` apart |
| ThrottleTraces.BurstScenario | packages/core/directive/throttle.ts:43-70 | with `wait: 100`, calls at 1000, 1030, 1060, 1090 and 1150 and timers at 1100 and 1200 give three invocations: 1000 with its own arguments, 1100 with the 1030 call's, and 1200 with the 1150 call's |

## Left out

- Timers and the clock: `setTimeout`, `clearTimeout` and `Date.now()` are
  not modelled. Clock readings are parameters, and a timer firing is an
  event the host delivers. Timer handles and their identity are not
  modelled. Debounce's callback leaves its spent handle in `timer`; clearing
  that handle later has no effect, so the model treats the timer as gone once
  it has fired.
- Throttle.Throttled.InvokeFunction: records the clock reading it is given. The
  source reads `Date.now()` again after the handler returns, so `lastCallTime`
  can be later than `now` by the handler's running time. The model uses one
  reading per event.
- Timing.Delay: host behaviour for delays above 2^31-1 ms differs between
  hosts and is not modelled.
- Non-integer, `NaN` or non-numeric `wait`, and non-boolean truthy option
  values, are not modelled: options are integers and booleans.
- Re-entrant handlers are not modelled: the handler is assumed not to call
  the wrapper again while it runs. In the source the handler runs part way
  through a step (debounce.ts:79-80, throttle.ts:39-40 and 63-67). A handler
  that re-dispatches its own listened event re-enters the wrapper while the
  old `isInvoked`, `lastCallTime`, `lastArgs` and `timer` are still in
  place. The model takes each step as atomic. Its burst and cancel lemmas,
  and the spacing result `InvocationsAreSpaced`, hold only for handlers that
  do not re-enter. A re-entering throttle handler can get two invocations
  less than `wait` apart.
- A handler that throws is not modelled; the handler is foreign code,
  assumed to return. In the source, a throw inside throttle's
  `invokeFunction` skips the `lastCallTime` update, and a throw inside its
  timer callback leaves `timer` set until the next call outside the window.
- The receiver binding through `fn.apply` is not modelled separately. The
  receiver and the arguments form one opaque value `A`. `lastThis` and
  `lastArgs` are always set and cleared together, so they are one field.
- The DOM: listener registration is a set of event types per element. The
  element property that stores the listener is never deleted in the source,
  and is folded into the directive object here. `Value` always carries a
  handler, so two error paths are not expressed. An object value missing
  `handler` builds a wrapper that fails only when it first invokes. A
  `null` or `undefined` bound value (for example `v-debounce` with no
  value) makes `created` throw a TypeError at `value.handler`
  (debounce.ts:99, throttle.ts:76), before any listener is registered.
- "At most one timer pending" is not a separate lemma: the timer is a
  single `Option` field, and every step that sets it drops the previous one.
- The other directives and files are not part of this model: watermark
  (canvas drawing, image loading, mutation observer), loading (DOM and SVG
  injection), lazy (intersection observer, image loading), copy (clipboard
  and toast DOM), clickOutside (document listener, `Node.contains`),
  ellipsis (CSS only), the plugin registration in packages/core/index.ts,
  the playground bootstrap and the build configuration.
