/**
 * The four hook pipelines. `beforeRequest` and `afterResponse` thread a value
 * through their hooks (each hook gets the previous hook's output); the two
 * error pipelines call every hook once with the same arguments. Hooks run in
 * registration order, and none of the pipelines catches: a hook that throws
 * ends its pipeline and its fault propagates. An absent list behaves as an
 * empty one.
 */
module HookRunner {
  import opened Wrappers
  import opened Types

  /** A registered hook list; an absent list has no hooks. */
  function Listed<H>(hooks: Option<seq<H>>): seq<H> {
    if hooks.Some? then hooks.value else []
  }

  /** The outcome of a fold, and the input each called hook received, in call order. */
  datatype Fold<T> = Fold(result: Result<T, Fault>, inputs: seq<T>)

  /**
   * Calls the hooks in order, each on the previous call's output, stopping at
   * the first that throws; `call(h, x)` is how hook `h` is invoked on `x`.
   * The first hook gets `x`; hook i + 1 gets what hook i returned; the
   * outcome is what the last called hook returned or threw; only a run that
   * reached every hook succeeds.
   */
  function FoldHooks<H, T>(hooks: seq<H>, call: (H, T) -> Result<T, Fault>, x: T): (r: Fold<T>)
    ensures |r.inputs| <= |hooks|
    ensures |r.inputs| == 0 <==> |hooks| == 0
    ensures |hooks| == 0 ==> r.result == Ok(x)
    ensures |r.inputs| > 0 ==> r.inputs[0] == x && call(hooks[|r.inputs| - 1], r.inputs[|r.inputs| - 1]) == r.result
    ensures forall i :: 0 <= i < |r.inputs| - 1 ==>
              call(hooks[i], r.inputs[i]).Ok? && call(hooks[i], r.inputs[i]).value == r.inputs[i + 1]
    ensures r.result.Ok? ==> |r.inputs| == |hooks|
    decreases |hooks|
  {
    if |hooks| == 0 then Fold(Ok(x), [])
    else
      match call(hooks[0], x)
      case Err(f) => Fold(Err(f), [x])
      case Ok(y) =>
        var rest := FoldHooks(hooks[1..], call, y);
        Fold(rest.result, [x] + rest.inputs)
  }

  /** `runBeforeRequest(config)`: the left fold of the hooks over the config. */
  function RunBeforeRequest(hooks: Option<seq<BeforeHook>>, config: Config): (r: Run<Config>)
    ensures |r.trace| <= |Listed(hooks)|
    ensures |r.trace| == 0 ==> r.result == Ok(config)
    ensures forall i :: 0 <= i < |r.trace| ==> r.trace[i].BeforeRequestCalled? && r.trace[i].index == i
    ensures |r.trace| > 0 ==> r.trace[0].config == config
    ensures |r.trace| > 0 ==> Listed(hooks)[|r.trace| - 1](r.trace[|r.trace| - 1].config) == r.result
    ensures forall i :: 0 <= i < |r.trace| - 1 ==> Listed(hooks)[i](r.trace[i].config) == Ok(r.trace[i + 1].config)
    ensures r.result.Ok? ==> |r.trace| == |Listed(hooks)|
  {
    var hs := Listed(hooks);
    if |hs| == 0 then Run(Ok(config), [])
    else
      var f := FoldHooks(hs, (h: BeforeHook, c: Config) => h(c), config);
      Run(f.result, BeforeEvents(f.inputs))
  }

  /** The trace of the `beforeRequest` calls on the given configurations. */
  function BeforeEvents(inputs: seq<Config>): (t: seq<Event>)
    ensures |t| == |inputs|
    ensures forall i :: 0 <= i < |t| ==> t[i] == BeforeRequestCalled(i, inputs[i])
  {
    seq(|inputs|, i requires 0 <= i < |inputs| => BeforeRequestCalled(i, inputs[i]))
  }

  /** `runAfterResponse(response, config)`: a fold over the response; every hook gets the same config. */
  function RunAfterResponse(hooks: Option<seq<AfterHook>>, response: Response, config: Config): (r: Run<Response>)
    ensures |r.trace| <= |Listed(hooks)|
    ensures |r.trace| == 0 ==> r.result == Ok(response)
    ensures forall i :: 0 <= i < |r.trace| ==>
              r.trace[i].AfterResponseCalled? && r.trace[i].index == i && r.trace[i].config == config
    ensures |r.trace| > 0 ==> r.trace[0].response == response
    ensures |r.trace| > 0 ==> Listed(hooks)[|r.trace| - 1](r.trace[|r.trace| - 1].response, config) == r.result
    ensures forall i :: 0 <= i < |r.trace| - 1 ==>
              Listed(hooks)[i](r.trace[i].response, config) == Ok(r.trace[i + 1].response)
    ensures r.result.Ok? ==> |r.trace| == |Listed(hooks)|
  {
    var hs := Listed(hooks);
    if |hs| == 0 then Run(Ok(response), [])
    else
      var f := FoldHooks(hs, (h: AfterHook, x: Response) => h(x, config), response);
      Run(f.result, AfterEvents(f.inputs, config))
  }

  /** The trace of the `afterResponse` calls on the given responses. */
  function AfterEvents(inputs: seq<Response>, config: Config): (t: seq<Event>)
    ensures |t| == |inputs|
    ensures forall i :: 0 <= i < |t| ==> t[i] == AfterResponseCalled(i, inputs[i], config)
  {
    seq(|inputs|, i requires 0 <= i < |inputs| => AfterResponseCalled(i, inputs[i], config))
  }

  /** `runOnResponseError(error, response, config)`: every hook once, in order, on the same arguments. */
  function RunOnResponseError(hooks: Option<seq<ResponseErrorHook>>, error: ClientError, response: Option<Response>,
                              config: Config): (r: Run<()>)
    ensures |r.trace| <= |Listed(hooks)|
    ensures forall i :: 0 <= i < |r.trace| ==> r.trace[i] == OnResponseErrorCalled(i, error, response, config)
    ensures forall i :: 0 <= i < |r.trace| - 1 ==> Listed(hooks)[i](error, response, config).Ok?
    ensures |r.trace| > 0 ==> Listed(hooks)[|r.trace| - 1](error, response, config) == r.result
    ensures |r.trace| == 0 ==> r.result.Ok?
    ensures r.result.Ok? ==> |r.trace| == |Listed(hooks)|
  {
    var call := (h: ResponseErrorHook, u: ()) => h(error, response, config);
    var f := FoldHooks(Listed(hooks), call, ());
    Run(f.result, seq(|f.inputs|, i requires 0 <= i < |f.inputs| => OnResponseErrorCalled(i, error, response, config)))
  }

  /** `runOnRequestError(error, config)`: every hook once, in order, on the same arguments. */
  function RunOnRequestError(hooks: Option<seq<RequestErrorHook>>, fault: Fault, config: Config): (r: Run<()>)
    ensures |r.trace| <= |Listed(hooks)|
    ensures forall i :: 0 <= i < |r.trace| ==> r.trace[i] == OnRequestErrorCalled(i, fault, config)
    ensures forall i :: 0 <= i < |r.trace| - 1 ==> Listed(hooks)[i](fault, config).Ok?
    ensures |r.trace| > 0 ==> Listed(hooks)[|r.trace| - 1](fault, config) == r.result
    ensures |r.trace| == 0 ==> r.result.Ok?
    ensures r.result.Ok? ==> |r.trace| == |Listed(hooks)|
  {
    var call := (h: RequestErrorHook, u: ()) => h(fault, config);
    var f := FoldHooks(Listed(hooks), call, ());
    Run(f.result, seq(|f.inputs|, i requires 0 <= i < |f.inputs| => OnRequestErrorCalled(i, fault, config)))
  }
}
