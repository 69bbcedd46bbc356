/**
 * The small decisions of the stack-management client that sit around its service calls: the
 * expected-error mappings of `describeStack` and `updateStack`, the change-set and
 * drift-detection polling loops, the page collector of `listNotDeletedStacks`, the lookup of
 * `getNotDeletedStack`, and the parameter join of `enrichStack`.
 *
 * Service calls are parameters: a response or error for a single call, a sequence of
 * responses for a polling loop (one per poll), a sequence of pages for a paged listing.
 */
module CloudFormationClient {
  import opened Wrappers
  import opened Lists
  import opened ChangeSetRules

  type StackName = string

  /** An error the service SDK raised: its code and message. */
  datatype ApiError = ApiError(code: string, message: string)

  /** The error `describeStack` expects for a stack that does not exist. */
  function StackDoesNotExist(stackName: StackName): ApiError {
    ApiError("ValidationError", "Stack with id " + stackName + " does not exist")
  }

  /** The error `updateStack` expects for an update that changes nothing. */
  const NoUpdatesError: ApiError := ApiError("ValidationError", "No updates are to be performed.")

  /**
   * `describeStack`: the described stack, `None` only for the "does not exist" validation
   * error about this very stack name; every other error is rethrown.
   */
  function DescribeStackResult<S>(stackName: StackName, response: Result<S, ApiError>): (r: Result<Option<S>, ApiError>)
    ensures response.Ok? ==> r.Ok? && r.value.Some? && r.value.value == response.value
    ensures (r.Ok? && r.value.None?) <==> response.Err? && response.error == StackDoesNotExist(stackName)
    ensures r.Err? <==> response.Err? && response.error != StackDoesNotExist(stackName)
    ensures r.Err? ==> r.error == response.error
  {
    match response
    case Ok(stack) => Ok(Some(stack))
    case Err(e) =>
      if e.code == "ValidationError" && e.message == "Stack with id " + stackName + " does not exist" then Ok(None)
      else Err(e)
  }

  /**
   * `updateStack`: `true` when the update was accepted, `false` only for the "No updates are
   * to be performed." validation error; every other error is rethrown.
   */
  function UpdateStackResult(response: Result<(), ApiError>): (r: Result<bool, ApiError>)
    ensures r == Ok(true) <==> response.Ok?
    ensures r == Ok(false) <==> response == Err(NoUpdatesError)
    ensures r.Err? <==> response.Err? && response.error != NoUpdatesError
    ensures r.Err? ==> r.error == response.error
  {
    match response
    case Ok(_) => Ok(true)
    case Err(e) =>
      if e.code == "ValidationError" && e.message == "No updates are to be performed." then Ok(false)
      else Err(e)
  }

  /** How `waitUntilChangeSetIsReady` ends. */
  datatype ChangeSetWait =
    | ChangeSetReady(changeSet: ChangeSet)
    | ChangeSetHasNoChanges
    | ChangeSetWaitFailed(message: string)
    | ChangeSetStillPending

  function CouldNotEvaluateMessage(cs: ChangeSet): string {
    "Could not evaluate change set with status: " + cs.status + ", reason: " + cs.statusReason
  }

  /** The outcome of one description of the change set: `None` to poll again. */
  function ChangeSetPoll(cs: ChangeSet): (r: Option<ChangeSetWait>)
    ensures r.None? <==> EvaluateDescribeChangeSet(cs) == Pending
    ensures r == Some(ChangeSetReady(cs)) <==> EvaluateDescribeChangeSet(cs) == Ready
    ensures r == Some(ChangeSetHasNoChanges) <==> EvaluateDescribeChangeSet(cs) == NoChanges
    ensures r == Some(ChangeSetWaitFailed(cs.statusReason)) <== EvaluateDescribeChangeSet(cs) == Failed
    ensures r == Some(ChangeSetWaitFailed(CouldNotEvaluateMessage(cs))) <== EvaluateDescribeChangeSet(cs) == Error
  {
    match EvaluateDescribeChangeSet(cs)
    case Error => Some(ChangeSetWaitFailed(CouldNotEvaluateMessage(cs)))
    case NoChanges => Some(ChangeSetHasNoChanges)
    case Failed => Some(ChangeSetWaitFailed(cs.statusReason))
    case Pending => None
    case Ready => Some(ChangeSetReady(cs))
  }

  /** The recursion of `waitUntilChangeSetIsReady` over the successive descriptions. */
  function ChangeSetWaitOutcome(descriptions: seq<ChangeSet>): ChangeSetWait {
    if descriptions == [] then ChangeSetStillPending
    else match ChangeSetPoll(descriptions[0])
      case Some(outcome) => outcome
      case None => ChangeSetWaitOutcome(descriptions[1..])
  }

  /** The outcome is decided by the first description that is not pending. */
  lemma {:induction false} ChangeSetWaitOutcomeIsFirstDecided(descriptions: seq<ChangeSet>, i: nat)
    requires i < |descriptions| && EvaluateDescribeChangeSet(descriptions[i]) != Pending
    requires forall j :: 0 <= j < i ==> EvaluateDescribeChangeSet(descriptions[j]) == Pending
    ensures ChangeSetWaitOutcome(descriptions) == ChangeSetPoll(descriptions[i]).value
  {
    if i > 0 {
      ChangeSetWaitOutcomeIsFirstDecided(descriptions[1..], i - 1);
    }
  }

  /** A change set handed back as ready was described as CREATE_COMPLETE. */
  lemma {:induction false} ChangeSetWaitReturnsReady(descriptions: seq<ChangeSet>)
    ensures ChangeSetWaitOutcome(descriptions).ChangeSetReady? ==>
              ChangeSetWaitOutcome(descriptions).changeSet in descriptions &&
              ChangeSetWaitOutcome(descriptions).changeSet.status == "CREATE_COMPLETE"
  {
    if descriptions != [] {
      EvaluateDescribeChangeSetCases(descriptions[0]);
      ChangeSetWaitReturnsReady(descriptions[1..]);
    }
  }

  /** `waitUntilChangeSetIsReady` as a loop: describe, classify, stop unless pending. */
  method WaitUntilChangeSetIsReady(descriptions: seq<ChangeSet>) returns (r: ChangeSetWait)
    ensures r == ChangeSetWaitOutcome(descriptions)
    ensures r.ChangeSetStillPending? <==> forall j :: 0 <= j < |descriptions| ==> EvaluateDescribeChangeSet(descriptions[j]) == Pending
  {
    var i := 0;
    while i < |descriptions|
      invariant 0 <= i <= |descriptions|
      invariant forall j :: 0 <= j < i ==> EvaluateDescribeChangeSet(descriptions[j]) == Pending
      invariant ChangeSetWaitOutcome(descriptions) == ChangeSetWaitOutcome(descriptions[i..])
    {
      assert descriptions[i..][1..] == descriptions[i + 1..];
      var outcome := ChangeSetPoll(descriptions[i]);
      if outcome.Some? {
        ChangeSetWaitOutcomeIsFirstDecided(descriptions, i);
        return outcome.value;
      }
      i := i + 1;
    }
    return ChangeSetStillPending;
  }

  /** The part of a drift-detection status the waiter looks at. */
  datatype DriftDetectionStatus = DriftDetectionStatus(detectionStatus: string, stackDriftStatus: string)

  predicate DriftDetectionFinished(s: DriftDetectionStatus) {
    s.detectionStatus == "DETECTION_COMPLETE" || s.detectionStatus == "DETECTION_FAILED"
  }

  /**
   * `waitDriftDetectionToComplete` as a loop over the successive statuses: the first finished
   * status, or `None` while detection is still in progress.
   */
  method WaitDriftDetectionToComplete(statuses: seq<DriftDetectionStatus>) returns (r: Option<DriftDetectionStatus>)
    ensures r.None? <==> forall j :: 0 <= j < |statuses| ==> !DriftDetectionFinished(statuses[j])
    ensures r.Some? ==> exists i :: 0 <= i < |statuses| && statuses[i] == r.value && DriftDetectionFinished(r.value) &&
                          forall j :: 0 <= j < i ==> !DriftDetectionFinished(statuses[j])
  {
    var i := 0;
    while i < |statuses|
      invariant 0 <= i <= |statuses|
      invariant forall j :: 0 <= j < i ==> !DriftDetectionFinished(statuses[j])
    {
      if DriftDetectionFinished(statuses[i]) {
        return Some(statuses[i]);
      }
      i := i + 1;
    }
    return None;
  }

  /** A stack as listed by `listStacks`. */
  datatype StackSummary = StackSummary(id: string, name: StackName, status: string)

  /**
   * The `onPage` callback of `listNotDeletedStacks`: it collects the names seen so far and
   * asks to stop paging once every requested name has been seen. Without requested names it
   * never stops paging and collects nothing.
   */
  class PageCollector {
    var collectedNames: set<StackName>
    const stackNames: Option<seq<StackName>>

    constructor(stackNames: Option<seq<StackName>>)
      ensures this.stackNames == stackNames && collectedNames == {}
    {
      this.stackNames := stackNames;
      collectedNames := {};
    }

    method OnPage(items: seq<StackSummary>) returns (stop: bool)
      modifies this
      ensures stackNames.None? ==> collectedNames == old(collectedNames) && !stop
      ensures stackNames.Some? ==> collectedNames == old(collectedNames) + NamesOf(items)
      ensures stop <==> stackNames.Some? && AllCollected(stackNames.value, collectedNames)
    {
      if stackNames.None? {
        return false;
      }
      var i := 0;
      while i < |items|
        invariant 0 <= i <= |items|
        invariant collectedNames == old(collectedNames) + NamesOf(items[..i])
      {
        NamesOfSnoc(items[..i], items[i]);
        assert items[..i + 1] == items[..i] + [items[i]];
        collectedNames := collectedNames + {items[i].name};
        i := i + 1;
      }
      assert items[..i] == items;
      stop := AllCollected(stackNames.value, collectedNames);
    }
  }

  function NamesOf(items: seq<StackSummary>): (r: set<StackName>)
    ensures forall n :: n in r <==> exists s :: s in items && s.name == n
  {
    set s | s in items :: s.name
  }

  lemma NamesOfSnoc(items: seq<StackSummary>, s: StackSummary)
    ensures NamesOf(items + [s]) == NamesOf(items) + {s.name}
  {
  }

  predicate AllCollected(stackNames: seq<StackName>, collected: set<StackName>) {
    forall n :: n in stackNames ==> n in collected
  }

  /** The listing's filter: every stack when no names are requested, else the requested ones. */
  function PageItems(stackNames: Option<seq<StackName>>, page: seq<StackSummary>): seq<StackSummary> {
    Filter(page, (s: StackSummary) => stackNames.None? || s.name in stackNames.value)
  }

  /**
   * The stacks `listNotDeletedStacks` collects from `pages`: each page is filtered and handed
   * to the collector, and paging stops after the page on which the collector asks to stop.
   */
  function Listed(stackNames: Option<seq<StackName>>, pages: seq<seq<StackSummary>>, collected: set<StackName>): seq<StackSummary>
    decreases |pages|
  {
    if pages == [] then []
    else
      var items := PageItems(stackNames, pages[0]);
      var collected' := if stackNames.Some? then collected + NamesOf(items) else collected;
      if stackNames.Some? && AllCollected(stackNames.value, collected') then items
      else items + Listed(stackNames, pages[1..], collected')
  }

  /** The listed stacks by name, a later stack replacing an earlier one of the same name. */
  function ByName(stacks: seq<StackSummary>): (m: map<StackName, StackSummary>)
    ensures forall n :: n in m <==> exists s :: s in stacks && s.name == n
    ensures forall n :: n in m ==> m[n].name == n && m[n] in stacks
  {
    if stacks == [] then map[]
    else
      var last := stacks[|stacks| - 1];
      var m := ByName(stacks[..|stacks| - 1]);
      assert forall s :: s in stacks ==> s in stacks[..|stacks| - 1] || s == last;
      m[last.name := last]
  }

  /**
   * Every requested stack that appears on some page is listed: paging only stops early once
   * every requested name has been collected, and a collected name comes from a listed stack.
   */
  lemma {:induction false} ListedFindsRequested(stackNames: Option<seq<StackName>>, pages: seq<seq<StackSummary>>,
                                                collected: set<StackName>, p: nat, s: StackSummary)
    requires stackNames.Some? && s.name in stackNames.value
    requires p < |pages| && s in pages[p]
    ensures s.name in collected || exists t :: t in Listed(stackNames, pages, collected) && t.name == s.name
    decreases |pages|
  {
    var items := PageItems(stackNames, pages[0]);
    var collected' := collected + NamesOf(items);
    if AllCollected(stackNames.value, collected') {
      if s.name !in collected {
        assert s.name in NamesOf(items);
      }
    } else if p == 0 {
      assert s in items;
    } else {
      ListedFindsRequested(stackNames, pages[1..], collected', p - 1, s);
      if s.name in collected' && s.name !in collected {
        assert s.name in NamesOf(items);
      }
    }
  }

  /** One page of the listing: `Listed` on `pages[i..]` unfolded once. */
  lemma ListedStep(stackNames: Option<seq<StackName>>, pages: seq<seq<StackSummary>>, i: nat, collected: set<StackName>)
    requires i < |pages|
    ensures var items := PageItems(stackNames, pages[i]);
            var collected' := if stackNames.Some? then collected + NamesOf(items) else collected;
            Listed(stackNames, pages[i..], collected) ==
              if stackNames.Some? && AllCollected(stackNames.value, collected') then items
              else items + Listed(stackNames, pages[i + 1..], collected')
  {
    assert pages[i..][0] == pages[i] && pages[i..][1..] == pages[i + 1..];
  }

  lemma ListedNoPages(stackNames: Option<seq<StackName>>, pages: seq<seq<StackSummary>>, collected: set<StackName>)
    requires pages == []
    ensures Listed(stackNames, pages, collected) == []
  {
  }

  /** `listNotDeletedStacks` over the pages the service returns, with its page collector. */
  method ListNotDeletedStacks(stackNames: Option<seq<StackName>>, pages: seq<seq<StackSummary>>)
    returns (stacks: map<StackName, StackSummary>)
    ensures stacks == ByName(Listed(stackNames, pages, {}))
    ensures stackNames.Some? ==> forall n :: n in stacks ==> n in stackNames.value
  {
    hide Listed;
    var collector := new PageCollector(stackNames);
    var listed: seq<StackSummary> := [];
    var i := 0;
    var stop := false;
    while i < |pages| && !stop
      invariant 0 <= i <= |pages|
      invariant collector.stackNames == stackNames
      invariant !stop ==> Listed(stackNames, pages, {}) == listed + Listed(stackNames, pages[i..], collector.collectedNames)
      invariant stop ==> Listed(stackNames, pages, {}) == listed
      invariant stackNames.Some? ==> forall s :: s in listed ==> s.name in stackNames.value
      decreases |pages| - i, if stop then 0 else 1
    {
      ListedStep(stackNames, pages, i, collector.collectedNames);
      var items := PageItems(stackNames, pages[i]);
      stop := collector.OnPage(items);
      listed := listed + items;
      i := i + 1;
    }
    if !stop {
      ListedNoPages(stackNames, pages[i..], collector.collectedNames);
      assert listed + [] == listed;
    }
    stacks := ByName(listed);
  }

  /**
   * `getNotDeletedStack`: the stack of that name, or an error when the listing does not hold
   * it. A stack of that name on any page is always found.
   */
  method GetNotDeletedStack(stackName: StackName, pages: seq<seq<StackSummary>>) returns (r: Result<StackSummary, string>)
    ensures r.Ok? ==> r.value.name == stackName && exists p :: 0 <= p < |pages| && r.value in pages[p]
    ensures r.Err? ==> r.error == "Stack not found with name: '" + stackName + "'" &&
                       forall p, s :: 0 <= p < |pages| && s in pages[p] ==> s.name != stackName
  {
    var stacks := ListNotDeletedStacks(Some([stackName]), pages);
    if stackName !in stacks {
      forall p, s | 0 <= p < |pages| && s in pages[p] ensures s.name != stackName {
        if s.name == stackName {
          ListedFindsRequested(Some([stackName]), pages, {}, p, s);
        }
      }
      return Err("Stack not found with name: '" + stackName + "'");
    }
    ListedComesFromPages(Some([stackName]), pages, {});
    return Ok(stacks[stackName]);
  }

  /** Every listed stack is a stack of some page. */
  lemma {:induction false} ListedComesFromPages(stackNames: Option<seq<StackName>>, pages: seq<seq<StackSummary>>,
                                                collected: set<StackName>)
    ensures forall s :: s in Listed(stackNames, pages, collected) ==> exists p :: 0 <= p < |pages| && s in pages[p]
    decreases |pages|
  {
    if pages != [] {
      var items := PageItems(stackNames, pages[0]);
      var collected' := if stackNames.Some? then collected + NamesOf(items) else collected;
      ListedComesFromPages(stackNames, pages[1..], collected');
      forall s | s in Listed(stackNames, pages, collected) ensures exists p :: 0 <= p < |pages| && s in pages[p] {
        if s in items {
          assert s in pages[0];
        } else {
          assert s in Listed(stackNames, pages[1..], collected');
          var p :| 0 <= p < |pages[1..]| && s in pages[1..][p];
          assert s in pages[p + 1];
        }
      }
    }
  }

  /** A parameter as the stack reports it. */
  datatype StackParameter = StackParameter(key: string, value: string)

  /** A parameter as the stack's template declares it. */
  datatype ParameterDeclaration = ParameterDeclaration(key: string, defaultValue: Option<string>, description: string, noEcho: bool)

  /** A stack parameter enriched with its declaration (`{ ...stackParam, ...declaration }`). */
  datatype DetailedParameter = DetailedParameter(key: string, value: string, defaultValue: Option<string>,
                                                 description: string, noEcho: bool)

  /** `new Map(parameters.map(p => [p.key, p]))`: by key, a later parameter replacing an earlier one. */
  function ParameterMap(parameters: seq<StackParameter>): (m: map<string, StackParameter>)
    ensures forall k :: k in m <==> exists p :: p in parameters && p.key == k
    ensures forall k :: k in m ==> m[k].key == k && m[k] in parameters
  {
    if parameters == [] then map[]
    else
      var last := parameters[|parameters| - 1];
      var m := ParameterMap(parameters[..|parameters| - 1]);
      assert forall p :: p in parameters ==> p in parameters[..|parameters| - 1] || p == last;
      m[last.key := last]
  }

  /** The parameter of a key in the map is the last one in the list with that key. */
  lemma {:induction false} ParameterMapLastWins(parameters: seq<StackParameter>, i: nat)
    requires i < |parameters|
    requires forall j :: i < j < |parameters| ==> parameters[j].key != parameters[i].key
    ensures ParameterMap(parameters)[parameters[i].key] == parameters[i]
  {
    if i < |parameters| - 1 {
      ParameterMapLastWins(parameters[..|parameters| - 1], i);
    }
  }

  function MissingParameterMessage(key: string): string {
    "Parameter '" + key + "' not found"
  }

  /**
   * The `enrichStack` join: the template's declarations in order, each joined with the
   * stack's parameter of the same key; the first declaration without one is an error.
   */
  function JoinParameters(parameters: map<string, StackParameter>, declarations: seq<ParameterDeclaration>)
    : (r: Result<seq<DetailedParameter>, string>)
    ensures r.Ok? <==> forall d :: d in declarations ==> d.key in parameters
    ensures r.Ok? ==> (|r.value| == |declarations| &&
              forall i :: 0 <= i < |declarations| ==>
                var d := declarations[i];
                r.value[i] == DetailedParameter(d.key, parameters[d.key].value, d.defaultValue, d.description, d.noEcho))
    ensures r.Err? ==> exists i :: 0 <= i < |declarations| && declarations[i].key !in parameters &&
                          r.error == MissingParameterMessage(declarations[i].key) &&
                          forall j :: 0 <= j < i ==> declarations[j].key in parameters
  {
    if declarations == [] then Ok([])
    else
      var d := declarations[0];
      if d.key !in parameters then Err(MissingParameterMessage(d.key))
      else
        match JoinParameters(parameters, declarations[1..])
        case Err(e) =>
          assert forall j :: 1 <= j < |declarations| ==> declarations[j] == declarations[1..][j - 1];
          Err(e)
        case Ok(rest) =>
          assert forall x :: x in declarations ==> x == d || x in declarations[1..];
          Ok([DetailedParameter(d.key, parameters[d.key].value, d.defaultValue, d.description, d.noEcho)] + rest)
  }

  datatype CloudFormationStack = CloudFormationStack(id: string, name: StackName, status: string, parameters: seq<StackParameter>)

  datatype DetailedStack = DetailedStack(id: string, name: StackName, status: string, templateBody: string,
                                         stackPolicyBody: Option<string>, parameters: seq<DetailedParameter>)

  /**
   * `enrichStack`, given the template summary's declarations, the current template and the
   * stack policy the three service calls returned.
   */
  function EnrichStack(stack: CloudFormationStack, declarations: seq<ParameterDeclaration>, templateBody: string,
                       stackPolicyBody: Option<string>): (r: Result<DetailedStack, string>)
    ensures r.Ok? <==> forall d :: d in declarations ==> exists p :: p in stack.parameters && p.key == d.key
    ensures r.Ok? ==> r.value.id == stack.id && r.value.name == stack.name && r.value.status == stack.status &&
                      r.value.templateBody == templateBody && r.value.stackPolicyBody == stackPolicyBody &&
                      |r.value.parameters| == |declarations|
    ensures r.Ok? ==> forall i :: 0 <= i < |declarations| ==>
                        var d := declarations[i];
                        r.value.parameters[i] ==
                          DetailedParameter(d.key, ParameterMap(stack.parameters)[d.key].value,
                                            d.defaultValue, d.description, d.noEcho)
    ensures r.Err? ==> exists i :: 0 <= i < |declarations| &&
                          (forall p :: p in stack.parameters ==> p.key != declarations[i].key) &&
                          r.error == MissingParameterMessage(declarations[i].key) &&
                          forall j :: 0 <= j < i ==> exists p :: p in stack.parameters && p.key == declarations[j].key
  {
    match JoinParameters(ParameterMap(stack.parameters), declarations)
    case Err(e) => Err(e)
    case Ok(parameters) => Ok(DetailedStack(stack.id, stack.name, stack.status, templateBody, stackPolicyBody, parameters))
  }
}
