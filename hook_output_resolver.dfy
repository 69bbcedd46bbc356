/** The hook-output resolver: a parameter value taken from the output of a hook that ran earlier. */
module HookOutputResolver {
  import opened Wrappers

  type HookName = string

  /** The provider's name, by which stack configurations select it. */
  const Name: string := "hook-output"

  const HookRequiredMessage: string := "hook is required property"

  /** An initialised resolver, bound to one hook. Its only operation is `Resolve`. */
  datatype HookOutputResolver = HookOutputResolver(hook: HookName) {

    /**
     * The output recorded for the hook, whatever it is (even a falsy value), when the hook
     * has an entry among the hook outputs; otherwise an error naming the hook.
     */
    function Resolve<V>(hooks: map<HookName, V>): (r: Result<V, string>)
      ensures r.Ok? <==> hook in hooks
      ensures r.Ok? ==> r.value == hooks[hook]
      ensures r.Err? ==> r.error == NoSuchHookMessage(hook)
    {
      if hook in hooks then Ok(hooks[hook]) else Err(NoSuchHookMessage(hook))
    }
  }

  function NoSuchHookMessage(hook: HookName): string {
    "No such hook: '" + hook + "'"
  }

  /** `init`: a missing or empty `hook` property is rejected; otherwise the resolver is bound to it. */
  function Init(hook: Option<HookName>): (r: Result<HookOutputResolver, string>)
    ensures r.Ok? <==> TruthyString(hook)
    ensures r.Ok? ==> r.value.hook == hook.value
    ensures r.Err? ==> r.error == HookRequiredMessage
  {
    if TruthyString(hook) then Ok(HookOutputResolver(hook.value)) else Err(HookRequiredMessage)
  }

  /**
   * Initialising with a hook and resolving against outputs that record it returns that
   * hook's output; outputs for other hooks do not change the answer.
   */
  lemma InitThenResolve<V>(hook: HookName, hooks: map<HookName, V>, other: HookName, v: V)
    requires hook != "" && other != hook
    ensures Init(Some(hook)).Ok?
    ensures Init(Some(hook)).value.Resolve(hooks[other := v]) == Init(Some(hook)).value.Resolve(hooks)
    ensures Init(Some(hook)).value.Resolve(hooks[hook := v]) == Ok(v)
  {
  }
}
