/**
 * What the `created` hooks of both directives do with the bound value
 * and the directive argument before they build a wrapper.
 */
module Binding {
  import opened Timing

  /**
   * The value a directive is bound to: a bare handler, or an object with a
   * handler and possibly an options object (`O`).
   */
  datatype Value<F, O> = Bare(fn: F) | Configured(handler: F, options: Option<O>)

  /** The handler the wrapper is built around. */
  function HandlerOf<F, O>(v: Value<F, O>): (f: F)
    ensures v.Bare? ==> f == v.fn
    ensures v.Configured? ==> f == v.handler
  {
    match v
    case Bare(fn) => fn
    case Configured(handler, _) => handler
  }

  /**
   * The options object handed to the wrapper: empty for a bare handler,
   * otherwise the given options or, when they are absent, the empty object.
   */
  function OptionsOf<F, O>(v: Value<F, O>, empty: O): (o: O)
    ensures v.Bare? ==> o == empty
    ensures v.Configured? ==> o == v.options.GetOr(empty)
  {
    match v
    case Bare(_) => empty
    case Configured(_, options) => options.GetOr(empty)
  }

  /**
   * The DOM event a listener is (un)registered for: the directive argument,
   * or `fallback` when the argument is absent or the empty string, since
   * both are falsy for `||`.
   */
  function EventName(arg: Option<string>, fallback: string): (name: string)
    ensures arg.Some? && arg.value != "" ==> name == arg.value
    ensures arg.None? || arg.value == "" ==> name == fallback
  {
    if arg.Some? && arg.value != "" then arg.value else fallback
  }
}
