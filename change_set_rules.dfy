/**
 * Classification of a described change set: an ordered list of rules, the first of which to
 * give an answer decides; a change set no rule answers for is an ERROR.
 */
module ChangeSetRules {
  import opened Wrappers

  /** The two fields of a change set description the rules look at. */
  datatype ChangeSet = ChangeSet(status: string, statusReason: string)

  datatype DescribeChangeSetResult = Pending | Ready | NoChanges | Failed | Error

  /** A rule answers with a result or abstains (`undefined`). */
  type Rule = ChangeSet -> Option<DescribeChangeSetResult>

  /** Reason-text prefixes with which the service reports that a change set changes nothing. */
  const NoChangesReason1: string := "The submitted information didn't contain changes"
  const NoChangesReason2: string := "No updates are to be performed"

  function ChangeSetReadyRule(cs: ChangeSet): Option<DescribeChangeSetResult> {
    if cs.status == "CREATE_COMPLETE" then Some(Ready) else None
  }

  function ChangeSetPendingRule(cs: ChangeSet): Option<DescribeChangeSetResult> {
    if cs.status == "CREATE_IN_PROGRESS" || cs.status == "CREATE_PENDING" then Some(Pending) else None
  }

  function ChangeSetFailedRule(cs: ChangeSet): Option<DescribeChangeSetResult> {
    if cs.status == "FAILED" then Some(Failed) else None
  }

  /** `startsWith` is a case-sensitive prefix test. */
  predicate IsNoChangesReason(reason: string) {
    NoChangesReason1 <= reason || NoChangesReason2 <= reason
  }

  function ChangeSetNoChangesRule(cs: ChangeSet): Option<DescribeChangeSetResult> {
    if cs.status != "FAILED" then None
    else if IsNoChangesReason(cs.statusReason) then Some(NoChanges)
    else None
  }

  /** The rules in the order they are tried: the no-changes rule comes before the failed rule. */
  const Rules: seq<Rule> := [ChangeSetReadyRule, ChangeSetPendingRule, ChangeSetNoChangesRule, ChangeSetFailedRule]

  /** `evaluateRules`: the answer of the first rule that answers, else the default. */
  function EvaluateRules(rules: seq<Rule>, cs: ChangeSet, default: DescribeChangeSetResult): (r: DescribeChangeSetResult)
    ensures r == default || exists i :: 0 <= i < |rules| && rules[i](cs) == Some(r)
    ensures (forall i :: 0 <= i < |rules| ==> rules[i](cs).None?) ==> r == default
    ensures forall i :: 0 <= i < |rules| && rules[i](cs).Some? && (forall j :: 0 <= j < i ==> rules[j](cs).None?) ==>
              r == rules[i](cs).value
  {
    if rules == [] then default
    else match rules[0](cs)
      case Some(v) => v
      case None =>
        assert forall i :: 1 <= i < |rules| ==> rules[i] == rules[1..][i - 1];
        EvaluateRules(rules[1..], cs, default)
  }

  function EvaluateDescribeChangeSet(cs: ChangeSet): DescribeChangeSetResult {
    EvaluateRules(Rules, cs, Error)
  }

  /** What every status and reason classify as: each change set gets exactly one of the five results. */
  lemma EvaluateDescribeChangeSetCases(cs: ChangeSet)
    ensures EvaluateDescribeChangeSet(cs) == Ready <==> cs.status == "CREATE_COMPLETE"
    ensures EvaluateDescribeChangeSet(cs) == Pending <==> cs.status in {"CREATE_IN_PROGRESS", "CREATE_PENDING"}
    ensures EvaluateDescribeChangeSet(cs) == NoChanges <==> cs.status == "FAILED" && IsNoChangesReason(cs.statusReason)
    ensures EvaluateDescribeChangeSet(cs) == Failed <==> cs.status == "FAILED" && !IsNoChangesReason(cs.statusReason)
    ensures EvaluateDescribeChangeSet(cs) == Error <==> cs.status !in {"CREATE_COMPLETE", "CREATE_IN_PROGRESS", "CREATE_PENDING", "FAILED"}
  {
    var rest := Rules[1..];
    assert rest == [ChangeSetPendingRule, ChangeSetNoChangesRule, ChangeSetFailedRule];
    assert rest[1..] == [ChangeSetNoChangesRule, ChangeSetFailedRule];
    assert rest[1..][1..] == [ChangeSetFailedRule];
    assert rest[1..][1..][1..] == [];
    assert EvaluateRules(rest[1..][1..], cs, Error) == if cs.status == "FAILED" then Failed else Error;
    var afterPending := EvaluateRules(rest[1..], cs, Error);
    assert afterPending == if cs.status != "FAILED" then Error
                           else if IsNoChangesReason(cs.statusReason) then NoChanges else Failed;
    assert EvaluateRules(rest, cs, Error) ==
           if cs.status in {"CREATE_IN_PROGRESS", "CREATE_PENDING"} then Pending else afterPending;
  }

  /** The no-changes phrase is only recognised at the very start of the reason. */
  lemma NoChangesPhraseMidReasonIsFailure()
    ensures EvaluateDescribeChangeSet(ChangeSet("FAILED", "Error: " + NoChangesReason2)) == Failed
  {
    var reason := "Error: " + NoChangesReason2;
    assert reason[0] == 'E';
    assert !(NoChangesReason1 <= reason) by {
      assert |reason| < |NoChangesReason1|;
    }
    assert !(NoChangesReason2 <= reason) by {
      assert NoChangesReason2[0] == "No updates are to be performed"[0] == 'N';
    }
    EvaluateDescribeChangeSetCases(ChangeSet("FAILED", reason));
  }

  /**
   * Rule order matters: with the failed rule ahead of the no-changes rule, a change set that
   * reports no changes would be classified as a failure.
   */
  lemma RuleOrderDecidesNoChanges(reason: string)
    requires IsNoChangesReason(reason)
    ensures EvaluateDescribeChangeSet(ChangeSet("FAILED", reason)) == NoChanges
    ensures EvaluateRules([ChangeSetReadyRule, ChangeSetPendingRule, ChangeSetFailedRule, ChangeSetNoChangesRule],
                          ChangeSet("FAILED", reason), Error) == Failed
  {
    EvaluateDescribeChangeSetCases(ChangeSet("FAILED", reason));
    var swapped: seq<Rule> := [ChangeSetReadyRule, ChangeSetPendingRule, ChangeSetFailedRule, ChangeSetNoChangesRule];
    var cs := ChangeSet("FAILED", reason);
    assert swapped[1..] == [ChangeSetPendingRule, ChangeSetFailedRule, ChangeSetNoChangesRule];
    assert swapped[1..][1..] == [ChangeSetFailedRule, ChangeSetNoChangesRule];
    assert EvaluateRules(swapped[1..][1..], cs, Error) == Failed;
    assert EvaluateRules(swapped[1..], cs, Error) == Failed;
  }
}
