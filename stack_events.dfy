/**
 * Stack events as the stack-management service reports them, the terminal-event search and
 * the per-poll event delta (reverse the newest-first page, keep what is newer than the last
 * seen event, keep only the events of the active client request token).
 */
module StackEvents {
  import opened Wrappers
  import opened Lists

  type EventId = string
  type StackId = string
  type StackName = string
  type ClientRequestToken = string
  type ResourceStatus = string

  datatype StackEvent = StackEvent(
    id: EventId,
    resourceType: string,
    physicalResourceId: string,
    resourceStatus: ResourceStatus,
    clientRequestToken: Option<ClientRequestToken>)

  const StackResourceType: string := "AWS::CloudFormation::Stack"

  /** Statuses after which a stack operation makes no further transition. */
  const TerminalStatuses: set<ResourceStatus> := {
    "CREATE_COMPLETE", "DELETE_COMPLETE", "ROLLBACK_COMPLETE", "UPDATE_COMPLETE",
    "ROLLBACK_FAILED", "CREATE_FAILED", "DELETE_FAILED",
    "UPDATE_ROLLBACK_COMPLETE", "UPDATE_ROLLBACK_FAILED"
  }

  predicate IsTerminalResourceStatus(status: ResourceStatus) {
    status in TerminalStatuses
  }

  /** An event about the stack resource itself rather than about one of its resources. */
  predicate IsStackEvent(stackId: StackId, e: StackEvent) {
    e.resourceType == StackResourceType && e.physicalResourceId == stackId
  }

  predicate IsTerminalEvent(stackId: StackId, e: StackEvent) {
    IsStackEvent(stackId, e) && IsTerminalResourceStatus(e.resourceStatus)
  }

  /** The first event of `events` that is a terminal event of the stack itself, if any. */
  function FindTerminalEvent(stackId: StackId, events: seq<StackEvent>): (r: Option<StackEvent>)
    ensures r.None? <==> forall e :: e in events ==> !IsTerminalEvent(stackId, e)
    ensures r.Some? ==> IsTerminalEvent(stackId, r.value) && r.value in events
  {
    if events == [] then None
    else if IsTerminalEvent(stackId, events[0]) then Some(events[0])
    else FindTerminalEvent(stackId, events[1..])
  }

  /** The event found is the first terminal event of the stack: every event before it is not one. */
  lemma {:induction false} FindTerminalEventIsFirst(stackId: StackId, events: seq<StackEvent>, i: nat)
    requires i < |events| && IsTerminalEvent(stackId, events[i])
    requires forall j :: 0 <= j < i ==> !IsTerminalEvent(stackId, events[j])
    ensures FindTerminalEvent(stackId, events) == Some(events[i])
  {
    if i > 0 {
      FindTerminalEventIsFirst(stackId, events[1..], i - 1);
    }
  }

  /** Once the log holds a terminal event, appending more events does not change which is found. */
  lemma {:induction false} FindTerminalEventStable(stackId: StackId, log: seq<StackEvent>, more: seq<StackEvent>)
    requires FindTerminalEvent(stackId, log).Some?
    ensures FindTerminalEvent(stackId, log + more) == FindTerminalEvent(stackId, log)
  {
    if !IsTerminalEvent(stackId, log[0]) {
      assert (log + more)[1..] == log[1..] + more;
      FindTerminalEventStable(stackId, log[1..], more);
    }
  }

  /** The stack's own events, in log order. */
  function StackEventsOf(stackId: StackId, events: seq<StackEvent>): seq<StackEvent> {
    Filter(events, (e: StackEvent) => IsStackEvent(stackId, e))
  }

  /**
   * The chronological suffix of `chronological` after the last event whose id is
   * `latestEventId` (`takeRightWhile(events, e => e.id !== latestEventId)`).
   */
  function EventsAfter(chronological: seq<StackEvent>, latestEventId: Option<EventId>): seq<StackEvent> {
    TakeRightWhile(chronological, (e: StackEvent) => Some(e.id) != latestEventId)
  }

  /** With no last-seen id, or one that no longer appears, every event is new. */
  lemma EventsAfterUnknownId(chronological: seq<StackEvent>, latestEventId: Option<EventId>)
    requires forall e :: e in chronological ==> Some(e.id) != latestEventId
    ensures EventsAfter(chronological, latestEventId) == chronological
  {
  }

  /** A known last-seen id: the new events start right after its last occurrence. */
  lemma EventsAfterKnownId(chronological: seq<StackEvent>, i: nat)
    requires i < |chronological|
    requires forall j :: i < j < |chronological| ==> chronological[j].id != chronological[i].id
    ensures EventsAfter(chronological, Some(chronological[i].id)) == chronological[i + 1..]
  {
    TakeRightWhileStopsAt(chronological, (e: StackEvent) => Some(e.id) != Some(chronological[i].id), i);
  }

  /** Whether an event was caused by the request with `token`. */
  function CarriesToken(token: ClientRequestToken): StackEvent -> bool {
    (e: StackEvent) => e.clientRequestToken == Some(token)
  }

  /**
   * The events one poll forwards to the listener and appends to the log: of the newest-first
   * page `page`, those newer than `latestEventId`, carrying `token`, oldest first.
   */
  function NewEvents(page: seq<StackEvent>, latestEventId: Option<EventId>, token: ClientRequestToken): seq<StackEvent> {
    Filter(EventsAfter(Reverse(page), latestEventId), CarriesToken(token))
  }

  /**
   * The new events are exactly the unseen events of the page that carry the token, oldest
   * first, each as often as it occurs on the page.
   */
  lemma NewEventsMembers(page: seq<StackEvent>, latestEventId: Option<EventId>, token: ClientRequestToken)
    ensures forall e :: e in NewEvents(page, latestEventId, token) <==>
              e in EventsAfter(Reverse(page), latestEventId) && e.clientRequestToken == Some(token)
    ensures exists idx :: SubsequenceAt(NewEvents(page, latestEventId, token), EventsAfter(Reverse(page), latestEventId), idx)
    ensures forall e :: multiset(NewEvents(page, latestEventId, token))[e] ==
              if e.clientRequestToken == Some(token) then multiset(EventsAfter(Reverse(page), latestEventId))[e] else 0
  {
    var after := EventsAfter(Reverse(page), latestEventId);
    FilterInOrder(after, CarriesToken(token));
    var idx :| SubsequenceAt(Filter(after, CarriesToken(token)), after, idx);
    assert SubsequenceAt(NewEvents(page, latestEventId, token), after, idx);
    FilterCount(EventsAfter(Reverse(page), latestEventId), CarriesToken(token));
  }

  /** The id to remember after a poll: the newest event of the page, or the old id for an empty page. */
  function NextLatestEventId(page: seq<StackEvent>, latestEventId: Option<EventId>): (r: Option<EventId>)
    ensures page == [] ==> r == latestEventId
    ensures page != [] ==> r == Some(Reverse(page)[|page| - 1].id)
  {
    if page == [] then latestEventId else Some(page[0].id)
  }
}
