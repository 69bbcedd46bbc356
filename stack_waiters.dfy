/**
 * The five ways the client waits for a stack operation to finish: it polls the stack's event
 * page (and, in the two older waiters, the stack's status), forwards the new events of the
 * active client request token to the listener, and stops at a terminal state. The deploy
 * waiters cancel an update that outlives its timeout, once.
 *
 * The sleeps between polls, the listener and the service calls are not modelled: each poll's
 * observations are an `Observation`, the cancel call's returned token is `cancelToken`, and
 * waiting is run over a finite sequence of polls (`StillWaiting` when it runs out).
 */
module StackWaiters {
  import opened Wrappers
  import opened Lists
  import opened StackEvents

  /** `startTime` and the clock are in milliseconds, `timeout` in seconds; a timeout of 0 means none. */
  datatype TimeoutConfig = TimeoutConfig(startTime: int, timeout: int, timeoutOccurred: bool)

  predicate TimedOut(config: TimeoutConfig, now: int) {
    config.timeout != 0 && now - config.startTime > config.timeout * 1000
  }

  datatype WaiterKind =
    | DeployWaiter                 // waitStackDeployToComplete
    | DeleteWaiter                 // waitStackDeleteToComplete
    | RollbackWaiter               // waitStackRollbackToComplete
    | LegacyCreateOrUpdateWaiter   // waitUntilStackCreateOrUpdateCompletes (deprecated)
    | LegacyDeleteWaiter           // waitUntilStackIsDeleted (deprecated)
  {
    /** The older waiters decide on the stack's status rather than on its events. */
    predicate DecidesOnStatus() {
      LegacyCreateOrUpdateWaiter? || LegacyDeleteWaiter?
    }

    /** Only the create-or-update waiters honour a timeout. */
    predicate HasTimeout() {
      DeployWaiter? || LegacyCreateOrUpdateWaiter?
    }
  }

  const DeleteStatuses: set<ResourceStatus> := {"DELETE_COMPLETE", "DELETE_FAILED"}
  const UpdateInProgress: ResourceStatus := "UPDATE_IN_PROGRESS"

  /** The stack waited on: its name (used only in messages) and its id or ARN. */
  datatype Target = Target(stackName: StackName, stackId: StackId)

  /** What one poll sees: the clock, the stack's status (`None` if it does not exist), and the newest-first event page. */
  datatype Observation = Observation(now: int, stackStatus: Option<ResourceStatus>, page: seq<StackEvent>)

  /** The arguments a waiter passes to its next call. */
  datatype WaitState = WaitState(
    clientToken: ClientRequestToken,
    timeoutConfig: TimeoutConfig,
    latestEventId: Option<EventId>,
    allEvents: seq<StackEvent>)

  datatype PollOutcome =
    | Completed(stackStatus: ResourceStatus, events: seq<StackEvent>, timeoutConfig: Option<TimeoutConfig>)
    | Threw(message: string)
    | Polling(next: WaitState, cancelled: bool)

  /** The events forwarded to the listener by one poll, and what the poll decided. */
  datatype PollStep = PollStep(forwarded: seq<StackEvent>, outcome: PollOutcome)

  /** The most recent event of the stack itself in `events`. */
  function LatestStackEvent(stackId: StackId, events: seq<StackEvent>): (r: Option<StackEvent>)
    ensures r.None? <==> forall e :: e in events ==> !IsStackEvent(stackId, e)
    ensures r.Some? ==> IsStackEvent(stackId, r.value) && r.value in events
  {
    if events == [] then None
    else if IsStackEvent(stackId, events[|events| - 1]) then Some(events[|events| - 1])
    else
      var r := LatestStackEvent(stackId, events[..|events| - 1]);
      assert forall e :: e in events ==> e in events[..|events| - 1] || e == events[|events| - 1];
      r
  }

  /** The event found is the last event of the stack itself: no later event is one. */
  lemma {:induction false} LatestStackEventIsLast(stackId: StackId, events: seq<StackEvent>, i: nat)
    requires i < |events| && IsStackEvent(stackId, events[i])
    requires forall j :: i < j < |events| ==> !IsStackEvent(stackId, events[j])
    ensures LatestStackEvent(stackId, events) == Some(events[i])
  {
    if i < |events| - 1 {
      LatestStackEventIsLast(stackId, events[..|events| - 1], i);
    }
  }

  function MissingStackMessage(kind: WaiterKind, target: Target): string {
    if kind.LegacyDeleteWaiter? then "Stack " + target.stackName + " with arn " + target.stackId + " does not exists"
    else "Stack " + target.stackName + " with name " + target.stackName + " does not exists"
  }

  function MissingLatestEventMessage(stackId: StackId): string {
    "Expected latest event to exist for stack " + stackId
  }

  /** An update in progress is not a terminal status (no terminal status has its length). */
  lemma UpdateInProgressIsNotTerminal()
    ensures !IsTerminalResourceStatus(UpdateInProgress)
  {
    assert |UpdateInProgress| == 18;
    assert forall t :: t in TerminalStatuses ==> |t| != 18;
  }

  /** The next call's arguments once a timeout has cancelled the update. */
  function AfterCancel(advanced: WaitState, cancelToken: ClientRequestToken): WaitState {
    advanced.(clientToken := cancelToken, timeoutConfig := TimeoutConfig(advanced.timeoutConfig.startTime, 0, true))
  }

  /**
   * The deploy waiter: done at the first terminal event of the stack in the log; otherwise,
   * once the timeout has passed, it cancels if the latest event of the stack itself says its
   * update is in progress, and throws if there is no such event.
   */
  function DecideDeploy(stackId: StackId, now: int, advanced: WaitState, cancelToken: ClientRequestToken): (r: PollOutcome)
    ensures r.Completed? <==> FindTerminalEvent(stackId, advanced.allEvents).Some?
    ensures r.Completed? ==>
              r == Completed(FindTerminalEvent(stackId, advanced.allEvents).value.resourceStatus,
                             advanced.allEvents, Some(advanced.timeoutConfig))
    ensures r.Threw? <==> FindTerminalEvent(stackId, advanced.allEvents).None? && TimedOut(advanced.timeoutConfig, now) &&
                          LatestStackEvent(stackId, advanced.allEvents).None?
    ensures r.Threw? ==> r.message == MissingLatestEventMessage(stackId)
    ensures (r.Polling? && r.cancelled) <==>
              FindTerminalEvent(stackId, advanced.allEvents).None? && TimedOut(advanced.timeoutConfig, now) &&
              LatestStackEvent(stackId, advanced.allEvents).Some? &&
              LatestStackEvent(stackId, advanced.allEvents).value.resourceStatus == UpdateInProgress
    ensures r.Polling? ==> r.next == if r.cancelled then AfterCancel(advanced, cancelToken) else advanced
  {
    match FindTerminalEvent(stackId, advanced.allEvents)
    case Some(e) => Completed(e.resourceStatus, advanced.allEvents, Some(advanced.timeoutConfig))
    case None =>
      if !TimedOut(advanced.timeoutConfig, now) then Polling(advanced, false)
      else
        match LatestStackEvent(stackId, advanced.allEvents)
        case None => Threw(MissingLatestEventMessage(stackId))
        case Some(e) =>
          if e.resourceStatus == UpdateInProgress then Polling(AfterCancel(advanced, cancelToken), true)
          else Polling(advanced, false)
  }

  /** The delete and rollback waiters: done at the first terminal event of the stack in the log. */
  function DecideOnTerminalEvent(stackId: StackId, advanced: WaitState): (r: PollOutcome)
    ensures r.Completed? <==> FindTerminalEvent(stackId, advanced.allEvents).Some?
    ensures r.Completed? ==>
              r == Completed(FindTerminalEvent(stackId, advanced.allEvents).value.resourceStatus, advanced.allEvents, None)
    ensures !r.Completed? ==> r == Polling(advanced, false)
  {
    match FindTerminalEvent(stackId, advanced.allEvents)
    case Some(e) => Completed(e.resourceStatus, advanced.allEvents, None)
    case None => Polling(advanced, false)
  }

  /**
   * The deprecated create-or-update waiter: done when the stack's status is terminal; after the
   * timeout it cancels an update in progress.
   */
  function DecideLegacyCreateOrUpdate(status: ResourceStatus, now: int, advanced: WaitState,
                                      cancelToken: ClientRequestToken): (r: PollOutcome)
    ensures r.Completed? <==> IsTerminalResourceStatus(status)
    ensures r.Completed? ==> r == Completed(status, advanced.allEvents, Some(advanced.timeoutConfig))
    ensures !r.Threw?
    ensures (r.Polling? && r.cancelled) <==> status == UpdateInProgress && TimedOut(advanced.timeoutConfig, now)
    ensures r.Polling? ==> r.next == if r.cancelled then AfterCancel(advanced, cancelToken) else advanced
  {
    UpdateInProgressIsNotTerminal();
    if IsTerminalResourceStatus(status) then Completed(status, advanced.allEvents, Some(advanced.timeoutConfig))
    else if !TimedOut(advanced.timeoutConfig, now) then Polling(advanced, false)
    else if status == UpdateInProgress then Polling(AfterCancel(advanced, cancelToken), true)
    else Polling(advanced, false)
  }

  /** The deprecated delete waiter: done when the stack's status is DELETE_COMPLETE or DELETE_FAILED. */
  function DecideLegacyDelete(status: ResourceStatus, advanced: WaitState): (r: PollOutcome)
    ensures r.Completed? <==> status in DeleteStatuses
    ensures r.Completed? ==> r == Completed(status, advanced.allEvents, None)
    ensures !r.Completed? ==> r == Polling(advanced, false)
  {
    if status in DeleteStatuses then Completed(status, advanced.allEvents, None)
    else Polling(advanced, false)
  }

  /** What a waiter does with a poll whose new events are already in `advanced`. */
  function Decide(kind: WaiterKind, stackId: StackId, obs: Observation, advanced: WaitState,
                  cancelToken: ClientRequestToken): (r: PollOutcome)
    requires kind.DecidesOnStatus() ==> obs.stackStatus.Some?
    ensures r.Completed? ==> r.events == advanced.allEvents
    ensures r.Completed? && !kind.DecidesOnStatus() ==>
              FindTerminalEvent(stackId, r.events).Some? &&
              FindTerminalEvent(stackId, r.events).value.resourceStatus == r.stackStatus
    ensures r.Completed? && kind.LegacyDeleteWaiter? ==> r.stackStatus in DeleteStatuses
    ensures r.Completed? && !kind.LegacyDeleteWaiter? ==> IsTerminalResourceStatus(r.stackStatus)
    ensures r.Threw? ==> kind.DeployWaiter? && TimedOut(advanced.timeoutConfig, obs.now) &&
                         r.message == MissingLatestEventMessage(stackId)
    ensures r.Polling? && r.cancelled ==>
              kind.HasTimeout() && TimedOut(advanced.timeoutConfig, obs.now) && r.next == AfterCancel(advanced, cancelToken)
    ensures r.Polling? && !r.cancelled ==> r.next == advanced
  {
    match kind
    case DeployWaiter => DecideDeploy(stackId, obs.now, advanced, cancelToken)
    case DeleteWaiter => DecideOnTerminalEvent(stackId, advanced)
    case RollbackWaiter => DecideOnTerminalEvent(stackId, advanced)
    case LegacyCreateOrUpdateWaiter => DecideLegacyCreateOrUpdate(obs.stackStatus.value, obs.now, advanced, cancelToken)
    case LegacyDeleteWaiter => DecideLegacyDelete(obs.stackStatus.value, advanced)
  }

  /**
   * One call of a waiter: a status-based waiter first fails if the stack is gone; then the
   * new events are forwarded and appended to the log, the newest event id is remembered, and
   * the waiter decides.
   */
  function Poll(kind: WaiterKind, target: Target, obs: Observation, w: WaitState,
                cancelToken: ClientRequestToken): (r: PollStep)
    ensures kind.DecidesOnStatus() && obs.stackStatus.None? ==>
              r.forwarded == [] && r.outcome == Threw(MissingStackMessage(kind, target))
    ensures !(kind.DecidesOnStatus() && obs.stackStatus.None?) ==>
              r.forwarded == NewEvents(obs.page, w.latestEventId, w.clientToken)
    ensures forall e :: e in r.forwarded ==> e.clientRequestToken == Some(w.clientToken)
    ensures r.outcome.Completed? ==> r.outcome.events == w.allEvents + r.forwarded
    ensures r.outcome.Threw? ==>
              (kind.DecidesOnStatus() && obs.stackStatus.None? && r.forwarded == []) ||
              (kind.DeployWaiter? && TimedOut(w.timeoutConfig, obs.now))
    ensures r.outcome.Polling? ==>
              r.outcome.next.allEvents == w.allEvents + r.forwarded &&
              r.outcome.next.latestEventId == NextLatestEventId(obs.page, w.latestEventId) &&
              r.outcome.next.timeoutConfig.startTime == w.timeoutConfig.startTime
    ensures r.outcome.Polling? && r.outcome.cancelled ==>
              kind.HasTimeout() && TimedOut(w.timeoutConfig, obs.now) &&
              r.outcome.next.clientToken == cancelToken &&
              r.outcome.next.timeoutConfig == TimeoutConfig(w.timeoutConfig.startTime, 0, true)
    ensures r.outcome.Polling? && !r.outcome.cancelled ==>
              r.outcome.next.clientToken == w.clientToken && r.outcome.next.timeoutConfig == w.timeoutConfig
  {
    if kind.DecidesOnStatus() && obs.stackStatus.None? then
      PollStep([], Threw(MissingStackMessage(kind, target)))
    else
      var newEvents := NewEvents(obs.page, w.latestEventId, w.clientToken);
      var advanced := w.(latestEventId := NextLatestEventId(obs.page, w.latestEventId),
                         allEvents := w.allEvents + newEvents);
      PollStep(newEvents, Decide(kind, target.stackId, obs, advanced, cancelToken))
  }

  datatype WaitResult =
    | Done(stackStatus: ResourceStatus, events: seq<StackEvent>, timeoutConfig: Option<TimeoutConfig>)
    | Failed(message: string)
    | StillWaiting(state: WaitState)

  /** How a wait ended, every event the listener received, and how many updates were cancelled. */
  datatype Trace = Trace(result: WaitResult, forwarded: seq<StackEvent>, cancels: nat)

  /** Prefix the events and cancellations of earlier polls to a trace. */
  function After(forwarded: seq<StackEvent>, cancels: nat, t: Trace): Trace {
    Trace(t.result, forwarded + t.forwarded, cancels + t.cancels)
  }

  /** The waiter's recursion: poll, and call again with the new arguments until it completes or throws. */
  function Run(kind: WaiterKind, target: Target, polls: seq<Observation>, w: WaitState,
               cancelToken: ClientRequestToken): Trace
    decreases |polls|
  {
    if polls == [] then Trace(StillWaiting(w), [], 0)
    else
      var step := Poll(kind, target, polls[0], w, cancelToken);
      match step.outcome
      case Completed(status, events, config) => Trace(Done(status, events, config), step.forwarded, 0)
      case Threw(message) => Trace(Failed(message), step.forwarded, 0)
      case Polling(next, cancelled) =>
        After(step.forwarded, if cancelled then 1 else 0, Run(kind, target, polls[1..], next, cancelToken))
  }

  /*
   * The lemmas about `Run` below use only the contract of `Poll` (and the step lemmas next to
   * it), so they hide its body.
   */

  /** A poll completes only in a terminal state of its waiter. */
  lemma PollCompletesInTerminalState(kind: WaiterKind, target: Target, obs: Observation, w: WaitState,
                                     cancelToken: ClientRequestToken)
    ensures var step := Poll(kind, target, obs, w, cancelToken);
            step.outcome.Completed? ==>
              (!kind.DecidesOnStatus() ==>
                 FindTerminalEvent(target.stackId, step.outcome.events).Some? &&
                 FindTerminalEvent(target.stackId, step.outcome.events).value.resourceStatus == step.outcome.stackStatus) &&
              (kind.LegacyDeleteWaiter? ==> step.outcome.stackStatus in DeleteStatuses) &&
              (!kind.LegacyDeleteWaiter? ==> IsTerminalResourceStatus(step.outcome.stackStatus))
  {
  }

  /** The messages a poll can throw with. */
  lemma PollFailureMessages(kind: WaiterKind, target: Target, obs: Observation, w: WaitState,
                            cancelToken: ClientRequestToken)
    ensures var step := Poll(kind, target, obs, w, cancelToken);
            step.outcome.Threw? ==>
              (kind.DecidesOnStatus() && step.outcome.message == MissingStackMessage(kind, target)) ||
              (kind.DeployWaiter? && step.outcome.message == MissingLatestEventMessage(target.stackId))
  {
  }

  /** Every cancellation switches the timeout off, so a wait cancels at most one update. */
  lemma {:induction false} RunCancelsAtMostOnce(kind: WaiterKind, target: Target, polls: seq<Observation>,
                                                w: WaitState, cancelToken: ClientRequestToken)
    ensures Run(kind, target, polls, w, cancelToken).cancels <= 1
    ensures Run(kind, target, polls, w, cancelToken).cancels == 1 ==> kind.HasTimeout() && w.timeoutConfig.timeout != 0
    ensures w.timeoutConfig.timeout == 0 ==> Run(kind, target, polls, w, cancelToken).cancels == 0
    decreases |polls|
  {
    hide Poll;
    if polls != [] {
      var step := Poll(kind, target, polls[0], w, cancelToken);
      if step.outcome.Polling? {
        RunCancelsAtMostOnce(kind, target, polls[1..], step.outcome.next, cancelToken);
      }
    }
  }

  /** The log a wait ends with is the log it started with followed by exactly the forwarded events. */
  lemma {:induction false} RunLogIsInitialPlusForwarded(kind: WaiterKind, target: Target, polls: seq<Observation>,
                                                        w: WaitState, cancelToken: ClientRequestToken)
    ensures var t := Run(kind, target, polls, w, cancelToken);
            (t.result.Done? ==> t.result.events == w.allEvents + t.forwarded) &&
            (t.result.StillWaiting? ==> t.result.state.allEvents == w.allEvents + t.forwarded)
    decreases |polls|
  {
    hide Poll, NewEvents;
    if polls != [] {
      var step := Poll(kind, target, polls[0], w, cancelToken);
      if step.outcome.Polling? {
        var next := step.outcome.next;
        var rest := Run(kind, target, polls[1..], next, cancelToken);
        RunLogIsInitialPlusForwarded(kind, target, polls[1..], next, cancelToken);
        var a, b, c := w.allEvents, step.forwarded, rest.forwarded;
        assert a + (b + c) == (a + b) + c;
      }
    }
  }

  /**
   * The listener only hears events of the waited-for request: the initial token, or after a
   * cancellation the cancel call's token. Waiters without a timeout never switch token.
   */
  lemma {:induction false} RunForwardsActiveToken(kind: WaiterKind, target: Target, polls: seq<Observation>,
                                                  w: WaitState, cancelToken: ClientRequestToken)
    ensures forall e :: e in Run(kind, target, polls, w, cancelToken).forwarded ==>
              e.clientRequestToken == Some(w.clientToken) || e.clientRequestToken == Some(cancelToken)
    ensures !kind.HasTimeout() ==>
              forall e :: e in Run(kind, target, polls, w, cancelToken).forwarded ==> e.clientRequestToken == Some(w.clientToken)
    decreases |polls|
  {
    hide Poll;
    if polls != [] {
      var step := Poll(kind, target, polls[0], w, cancelToken);
      if step.outcome.Polling? {
        RunForwardsActiveToken(kind, target, polls[1..], step.outcome.next, cancelToken);
      }
    }
  }

  /**
   * A wait only completes in a terminal state: the event-based waiters with the status of the
   * first terminal event of the stack in the log, the status-based ones with a status from
   * their own list.
   */
  lemma {:induction false} RunCompletesInTerminalState(kind: WaiterKind, target: Target, polls: seq<Observation>,
                                                       w: WaitState, cancelToken: ClientRequestToken)
    ensures var t := Run(kind, target, polls, w, cancelToken);
            t.result.Done? ==>
              (!kind.DecidesOnStatus() ==>
                 FindTerminalEvent(target.stackId, t.result.events).Some? &&
                 FindTerminalEvent(target.stackId, t.result.events).value.resourceStatus == t.result.stackStatus) &&
              (kind.LegacyDeleteWaiter? ==> t.result.stackStatus in DeleteStatuses) &&
              (!kind.LegacyDeleteWaiter? ==> IsTerminalResourceStatus(t.result.stackStatus))
    decreases |polls|
  {
    hide Poll;
    if polls != [] {
      PollCompletesInTerminalState(kind, target, polls[0], w, cancelToken);
      var step := Poll(kind, target, polls[0], w, cancelToken);
      if step.outcome.Polling? {
        RunCompletesInTerminalState(kind, target, polls[1..], step.outcome.next, cancelToken);
      }
    }
  }

  /**
   * The only errors: a status-based waiter whose stack has disappeared, and a deploy waiter
   * with a timeout set that finds no event of the stack itself when the timeout passes.
   */
  lemma {:induction false} RunFailures(kind: WaiterKind, target: Target, polls: seq<Observation>,
                                       w: WaitState, cancelToken: ClientRequestToken)
    ensures var t := Run(kind, target, polls, w, cancelToken);
            t.result.Failed? ==>
              (kind.DecidesOnStatus() && t.result.message == MissingStackMessage(kind, target)) ||
              (kind.DeployWaiter? && w.timeoutConfig.timeout != 0 &&
               t.result.message == MissingLatestEventMessage(target.stackId))
    decreases |polls|
  {
    hide Poll;
    if polls != [] {
      PollFailureMessages(kind, target, polls[0], w, cancelToken);
      var step := Poll(kind, target, polls[0], w, cancelToken);
      if step.outcome.Polling? {
        RunFailures(kind, target, polls[1..], step.outcome.next, cancelToken);
      }
    }
  }

  /** Once the log holds a terminal event of the stack, the next poll completes with its status. */
  lemma RunStopsAtLoggedTerminalEvent(kind: WaiterKind, target: Target, polls: seq<Observation>,
                                      w: WaitState, cancelToken: ClientRequestToken)
    requires !kind.DecidesOnStatus() && polls != []
    requires FindTerminalEvent(target.stackId, w.allEvents).Some?
    ensures var t := Run(kind, target, polls, w, cancelToken);
            t.result.Done? && t.cancels == 0 && t.forwarded == NewEvents(polls[0].page, w.latestEventId, w.clientToken) &&
            t.result.stackStatus == FindTerminalEvent(target.stackId, w.allEvents).value.resourceStatus
  {
    FindTerminalEventStable(target.stackId, w.allEvents, NewEvents(polls[0].page, w.latestEventId, w.clientToken));
  }

  lemma DeleteAndRollbackPollsAgree(target: Target, obs: Observation, w: WaitState, cancelToken: ClientRequestToken)
    ensures Poll(DeleteWaiter, target, obs, w, cancelToken) == Poll(RollbackWaiter, target, obs, w, cancelToken)
  {
  }

  /** The delete and rollback waiters are the same waiter. */
  lemma {:induction false} DeleteAndRollbackWaitersAgree(target: Target, polls: seq<Observation>,
                                                         w: WaitState, cancelToken: ClientRequestToken)
    ensures Run(DeleteWaiter, target, polls, w, cancelToken) == Run(RollbackWaiter, target, polls, w, cancelToken)
    decreases |polls|
  {
    hide Poll;
    if polls != [] {
      var step := Poll(DeleteWaiter, target, polls[0], w, cancelToken);
      DeleteAndRollbackPollsAgree(target, polls[0], w, cancelToken);
      if step.outcome.Polling? {
        DeleteAndRollbackWaitersAgree(target, polls[1..], step.outcome.next, cancelToken);
      }
    }
  }

  lemma AfterAfter(f1: seq<StackEvent>, c1: nat, f2: seq<StackEvent>, c2: nat, t: Trace)
    ensures After(f1, c1, After(f2, c2, t)) == After(f1 + f2, c1 + c2, t)
  {
    var c := t.forwarded;
    assert f1 + (f2 + c) == (f1 + f2) + c;
  }

  lemma RunNoPolls(kind: WaiterKind, target: Target, polls: seq<Observation>, w: WaitState,
                   cancelToken: ClientRequestToken)
    requires polls == []
    ensures Run(kind, target, polls, w, cancelToken) == Trace(StillWaiting(w), [], 0)
  {
  }

  /** One unfolding of `Run` at poll `i`. */
  lemma RunUnfold(kind: WaiterKind, target: Target, polls: seq<Observation>, i: nat, w: WaitState,
                  cancelToken: ClientRequestToken)
    requires i < |polls|
    ensures var step := Poll(kind, target, polls[i], w, cancelToken);
            Run(kind, target, polls[i..], w, cancelToken) ==
              match step.outcome
              case Completed(status, events, config) => Trace(Done(status, events, config), step.forwarded, 0)
              case Threw(message) => Trace(Failed(message), step.forwarded, 0)
              case Polling(next, cancelled) =>
                After(step.forwarded, if cancelled then 1 else 0, Run(kind, target, polls[i + 1..], next, cancelToken))
  {
    hide Poll;
    assert polls[i..][0] == polls[i] && polls[i..][1..] == polls[i + 1..];
  }

  /**
   * The events a sequence of polls yields while the request token stays `token`: each poll's
   * new events, each poll starting after the newest event id of the poll before.
   */
  function NewEventsAlong(polls: seq<Observation>, latestEventId: Option<EventId>, token: ClientRequestToken)
    : seq<StackEvent>
    decreases |polls|
  {
    if polls == [] then []
    else
      NewEvents(polls[0].page, latestEventId, token) +
      NewEventsAlong(polls[1..], NextLatestEventId(polls[0].page, latestEventId), token)
  }

  /**
   * A wait that cancels nothing forwards, poll by poll, the new events of the polls it made:
   * those of its first `n` polls, and of all of them while it is still waiting.
   */
  lemma {:induction false} RunForwardsNewEventsAlong(kind: WaiterKind, target: Target, polls: seq<Observation>,
                                                     w: WaitState, cancelToken: ClientRequestToken)
    ensures var t := Run(kind, target, polls, w, cancelToken);
            t.cancels == 0 ==>
              (exists n :: 0 <= n <= |polls| && t.forwarded == NewEventsAlong(polls[..n], w.latestEventId, w.clientToken)) &&
              (t.result.StillWaiting? ==> t.forwarded == NewEventsAlong(polls, w.latestEventId, w.clientToken))
    decreases |polls|
  {
    hide Poll, NewEvents;
    var t := Run(kind, target, polls, w, cancelToken);
    if polls == [] || (kind.DecidesOnStatus() && polls[0].stackStatus.None?) {
      assert polls[..0] == [];
      assert t.forwarded == NewEventsAlong(polls[..0], w.latestEventId, w.clientToken);
    } else {
      var step := Poll(kind, target, polls[0], w, cancelToken);
      if !step.outcome.Polling? {
        NewEventsAlongFirst(polls, 1, w.latestEventId, w.clientToken);
        assert polls[1..][..0] == [];
        assert t.forwarded == NewEventsAlong(polls[..1], w.latestEventId, w.clientToken);
      } else if !step.outcome.cancelled {
        var rest := Run(kind, target, polls[1..], step.outcome.next, cancelToken);
        RunForwardsNewEventsAlong(kind, target, polls[1..], step.outcome.next, cancelToken);
        if rest.cancels == 0 {
          var m :| 0 <= m <= |polls[1..]| &&
                   rest.forwarded == NewEventsAlong(polls[1..][..m], step.outcome.next.latestEventId, w.clientToken);
          NewEventsAlongFirst(polls, m + 1, w.latestEventId, w.clientToken);
          assert t.forwarded == NewEventsAlong(polls[..m + 1], w.latestEventId, w.clientToken);
        }
      }
    }
  }

  /** The new events of the first `n` polls: the first poll's, then those of the next `n - 1`. */
  lemma NewEventsAlongFirst(polls: seq<Observation>, n: nat, latestEventId: Option<EventId>, token: ClientRequestToken)
    requires 0 < n <= |polls|
    ensures NewEventsAlong(polls[..n], latestEventId, token) ==
              NewEvents(polls[0].page, latestEventId, token) +
              NewEventsAlong(polls[1..][..n - 1], NextLatestEventId(polls[0].page, latestEventId), token)
  {
    assert polls[..n][0] == polls[0] && polls[..n][1..] == polls[1..][..n - 1];
  }

  /**
   * The waiter as a loop: one iteration per poll. The listener receives the events of the
   * active token in order, the log is the initial log followed by them, and at most one
   * update is cancelled, only by a waiter that has a timeout set.
   */
  method Wait(kind: WaiterKind, target: Target, polls: seq<Observation>, init: WaitState,
              cancelToken: ClientRequestToken) returns (result: WaitResult, forwarded: seq<StackEvent>, cancels: nat)
    ensures Trace(result, forwarded, cancels) == Run(kind, target, polls, init, cancelToken)
    ensures cancels <= 1
    ensures cancels == 1 ==> kind.HasTimeout() && init.timeoutConfig.timeout != 0
    ensures result.Done? ==> result.events == init.allEvents + forwarded
    ensures result.StillWaiting? ==> result.state.allEvents == init.allEvents + forwarded
    ensures forall e :: e in forwarded ==>
              e.clientRequestToken == Some(init.clientToken) || e.clientRequestToken == Some(cancelToken)
  {
    hide Poll, Run, NewEvents;
    var w := init;
    var i := 0;
    var finished := false;
    assert polls[0..] == polls;
    forwarded := [];
    cancels := 0;
    result := StillWaiting(init);
    while i < |polls| && !finished
      invariant 0 <= i <= |polls|
      invariant !finished ==> Run(kind, target, polls, init, cancelToken) ==
                              After(forwarded, cancels, Run(kind, target, polls[i..], w, cancelToken))
      invariant finished ==> Run(kind, target, polls, init, cancelToken) == Trace(result, forwarded, cancels)
      decreases |polls| - i, if finished then 0 else 1
    {
      RunUnfold(kind, target, polls, i, w, cancelToken);
      var step := Poll(kind, target, polls[i], w, cancelToken);
      match step.outcome {
        case Completed(status, events, config) =>
          result := Done(status, events, config);
          finished := true;
        case Threw(message) =>
          result := Failed(message);
          finished := true;
        case Polling(next, cancelled) =>
          var c := if cancelled then 1 else 0;
          AfterAfter(forwarded, cancels, step.forwarded, c, Run(kind, target, polls[i + 1..], next, cancelToken));
          cancels := cancels + c;
          w := next;
          i := i + 1;
      }
      forwarded := forwarded + step.forwarded;
    }
    if !finished {
      result := StillWaiting(w);
      RunNoPolls(kind, target, polls[i..], w, cancelToken);
    }
    RunCancelsAtMostOnce(kind, target, polls, init, cancelToken);
    RunLogIsInitialPlusForwarded(kind, target, polls, init, cancelToken);
    RunForwardsActiveToken(kind, target, polls, init, cancelToken);
  }
}
