/**
 * The deploy state machine's update-initiation step: build the update request with a fresh
 * client request token, send it, and pick the next transition from whether the stack changed.
 */
module InitiateStackUpdate {
  import opened Wrappers
  import CloudFormationClient

  type Capability = string

  datatype StackParameterInput = StackParameterInput(key: string, value: string)
  datatype StackTag = StackTag(key: string, value: string)

  /** The part of a stack the step reads. */
  datatype Stack = Stack(name: string, capabilities: Option<seq<Capability>>)

  /** The deploy state the step receives. */
  datatype UpdateStackState = UpdateStackState(
    stack: Stack,
    parameters: seq<StackParameterInput>,
    tags: seq<StackTag>,
    templateS3Url: Option<string>,
    templateBody: string,
    terminationProtectionUpdated: bool)

  /** A parameter of the request: never the previous value. */
  datatype RequestParameter = RequestParameter(parameterKey: string, parameterValue: string, usePreviousValue: bool)
  datatype RequestTag = RequestTag(key: string, value: string)

  /** Where the request puts the template: under `TemplateURL` or under `TemplateBody`. */
  datatype TemplateLocation = TemplateURL(url: string) | TemplateBody(body: string)

  datatype UpdateStackRequest = UpdateStackRequest(
    capabilities: seq<Capability>,
    clientRequestToken: string,
    parameters: seq<RequestParameter>,
    tags: seq<RequestTag>,
    stackName: string,
    template: TemplateLocation)

  /** The transition the step takes. */
  datatype Transition =
    | WaitStackCreateOrUpdateToComplete(state: UpdateStackState, clientToken: string)
    | ExecuteAfterDeployHooks(state: UpdateStackState, message: string, status: string, events: seq<string>, success: bool)
    | Rejected(error: CloudFormationClient.ApiError)

  function ToRequestParameters(parameters: seq<StackParameterInput>): (r: seq<RequestParameter>)
    ensures |r| == |parameters|
    ensures forall i :: 0 <= i < |r| ==>
              r[i] == RequestParameter(parameters[i].key, parameters[i].value, false)
  {
    if parameters == [] then []
    else [RequestParameter(parameters[0].key, parameters[0].value, false)] + ToRequestParameters(parameters[1..])
  }

  function ToRequestTags(tags: seq<StackTag>): (r: seq<RequestTag>)
    ensures |r| == |tags|
    ensures forall i :: 0 <= i < |r| ==> r[i] == RequestTag(tags[i].key, tags[i].value)
  {
    if tags == [] then [] else [RequestTag(tags[0].key, tags[0].value)] + ToRequestTags(tags[1..])
  }

  /** The parameters of the request, read back, are the state's parameters. */
  function FromRequestParameters(parameters: seq<RequestParameter>): (r: seq<StackParameterInput>)
    ensures |r| == |parameters|
    ensures forall i :: 0 <= i < |r| ==> r[i] == StackParameterInput(parameters[i].parameterKey, parameters[i].parameterValue)
  {
    if parameters == [] then []
    else [StackParameterInput(parameters[0].parameterKey, parameters[0].parameterValue)] + FromRequestParameters(parameters[1..])
  }

  function FromRequestTags(tags: seq<RequestTag>): (r: seq<StackTag>)
    ensures |r| == |tags|
    ensures forall i :: 0 <= i < |r| ==> r[i] == StackTag(tags[i].key, tags[i].value)
  {
    if tags == [] then [] else [StackTag(tags[0].key, tags[0].value)] + FromRequestTags(tags[1..])
  }

  /**
   * The update request for `state`, carrying the fresh `clientToken`. An S3 URL that is set
   * and non-empty is sent as `TemplateURL`, otherwise the body as `TemplateBody`; the stack's
   * own capabilities, even an empty list, win over `defaultCapabilities`.
   */
  function UpdateRequest(state: UpdateStackState, clientToken: string, defaultCapabilities: seq<Capability>)
    : (r: UpdateStackRequest)
    ensures r.clientRequestToken == clientToken && r.stackName == state.stack.name
    ensures r.template.TemplateURL? <==> TruthyString(state.templateS3Url)
    ensures r.template.TemplateURL? ==> r.template.url == state.templateS3Url.value
    ensures r.template.TemplateBody? ==> r.template.body == state.templateBody
    ensures state.stack.capabilities.Some? ==> r.capabilities == state.stack.capabilities.value
    ensures state.stack.capabilities.None? ==> r.capabilities == defaultCapabilities
    ensures forall p :: p in r.parameters ==> !p.usePreviousValue
  {
    var template := if TruthyString(state.templateS3Url) then TemplateURL(state.templateS3Url.value)
                    else TemplateBody(state.templateBody);
    var capabilities := if state.stack.capabilities.Some? then state.stack.capabilities.value else defaultCapabilities;
    UpdateStackRequest(capabilities, clientToken, ToRequestParameters(state.parameters), ToRequestTags(state.tags),
                       state.stack.name, template)
  }

  /** The request carries the state's parameters and tags one to one, in order. */
  lemma {:induction false} UpdateRequestKeepsParametersAndTags(state: UpdateStackState, clientToken: string,
                                                               defaultCapabilities: seq<Capability>)
    ensures FromRequestParameters(UpdateRequest(state, clientToken, defaultCapabilities).parameters) == state.parameters
    ensures FromRequestTags(UpdateRequest(state, clientToken, defaultCapabilities).tags) == state.tags
  {
    var r := UpdateRequest(state, clientToken, defaultCapabilities);
    assert FromRequestParameters(r.parameters) == state.parameters;
    assert FromRequestTags(r.tags) == state.tags;
  }

  /**
   * `initiateStackUpdate`: the request sent with the fresh token `clientToken`, and the
   * transition taken on the service's answer `response` to it.
   */
  function InitiateStackUpdate(state: UpdateStackState, clientToken: string, defaultCapabilities: seq<Capability>,
                               response: Result<(), CloudFormationClient.ApiError>)
    : (r: (UpdateStackRequest, Transition))
    ensures r.0 == UpdateRequest(state, clientToken, defaultCapabilities)
    ensures r.1.WaitStackCreateOrUpdateToComplete? <==> response.Ok?
    ensures r.1.WaitStackCreateOrUpdateToComplete? ==> r.1.state == state && r.1.clientToken == r.0.clientRequestToken
    ensures r.1.ExecuteAfterDeployHooks? <==> response == Err(CloudFormationClient.NoUpdatesError)
    ensures r.1.ExecuteAfterDeployHooks? ==>
              r.1.state == state && r.1.status == "SUCCESS" && r.1.events == [] && r.1.success &&
              r.1.message == (if state.terminationProtectionUpdated then "Stack update succeeded" else "No changes")
    ensures r.1.Rejected? ==> response.Err? && r.1.error == response.error
  {
    var request := UpdateRequest(state, clientToken, defaultCapabilities);
    match CloudFormationClient.UpdateStackResult(response)
    case Err(e) => (request, Rejected(e))
    case Ok(hasChanges) =>
      if hasChanges then (request, WaitStackCreateOrUpdateToComplete(state, clientToken))
      else if state.terminationProtectionUpdated then
        (request, ExecuteAfterDeployHooks(state, "Stack update succeeded", "SUCCESS", [], true))
      else (request, ExecuteAfterDeployHooks(state, "No changes", "SUCCESS", [], true))
  }
}
