# Takomo deployment decisions, modelled in Dafny

Takomo deploys CloudFormation stacks, organizational units and deployment targets from
configuration files. Between its calls to the cloud services it makes deterministic decisions.
This project models those decisions and proves what they promise:

- **Change-set rules** (`change_set_rules.dfy`). An ordered, first-match rule list classifies a
  described change set as READY, PENDING, NO_CHANGES, FAILED or ERROR.
- **CloudFormation client** (`cloudformation_client.dfy`, `stack_events.dfy`, `stack_waiters.dfy`):
  - the expected-error mappings of `describeStack` and `updateStack`;
  - the change-set and drift-detection polling loops;
  - the page collector of `listNotDeletedStacks` (a class whose collected-name set is updated
    in place), and `getNotDeletedStack`;
  - the parameter join of `enrichStack`;
  - the terminal-event search;
  - the five stack waiters (deploy, delete, rollback and the two deprecated status-based ones).
    Each is one pure poll step, plus a loop driver over a finite sequence of polls.
- **Stack update initiation** (`initiate_stack_update.dfy`). The update request, and the
  transition taken on the service's answer.
- **Organizational-unit planner** (`organizational_units.dfy`). The recursive three-way diff of
  the configured and current organizational-unit trees:
  - add, delete, update or skip per unit;
  - policy add/retain/remove buckets in four categories;
  - account moves;
  - `hasChanges` over the planned tree.
- **Deployment-target planning** (`deployment_plan.dfy`). Group validation, collection of active
  groups by priority and name, de-duplication, the target filter, and the SKIPPED result.
- **Resolvers** (`secret_resolver.dfy`, `hook_output_resolver.dfy`). The secret resolver's
  dependency and lookup logic, and the hook-output resolver's init and lookup.
- **Stack names** (`stack_name.dfy`). `makeStackName`.
- **Stack-group configuration overlay** (`stack_group_config.dfy`). A mutable properties record
  whose fields are overridden one by one, under each property's own rule, by the group's
  configuration file. Its tag map is updated in place.

`wrappers.dfy` holds `Option`, `Result` and JavaScript string truthiness. `lists.dfy` defines
the list semantics of the lodash helpers the code relies on: `without`, `intersection`, `uniq`,
`uniqBy`, `takeRightWhile`, and an insertion sort.

Service calls, the clock, the token generator and the listener are parameters:

- a single call is its response;
- a polling loop receives one observation per poll;
- a paged listing receives its pages;
- `uuid()` is the token passed in;
- `Date.now()` is the `now` of each observation.

Real polling never ends on its own. The model's loops run over finite sequences and report
"still waiting" when these run out.

## Model

| member | source | states |
|---|---|---|
| ChangeSetRules.EvaluateRules | src/takomo-aws-clients/cloudformation/rules/describe-change-set-rule.ts:68-70 | The result is the answer of the first rule that answers, every earlier rule having abstained, and the default exactly when no rule answers (the first-match semantics of `evaluateRules`). |
| ChangeSetRules.EvaluateDescribeChangeSetCases | src/takomo-aws-clients/cloudformation/rules/describe-change-set-rule.ts:19-70 | Each change set gets exactly one of the five results: READY iff CREATE_COMPLETE, PENDING iff CREATE_IN_PROGRESS or CREATE_PENDING, NO_CHANGES iff FAILED with a no-changes reason prefix, FAILED iff FAILED with any other reason, ERROR iff no rule matches. |
| ChangeSetRules.NoChangesPhraseMidReasonIsFailure | src/takomo-aws-clients/cloudformation/rules/describe-change-set-rule.ts:53 | The no-changes phrase only counts as a prefix: a FAILED change set whose reason holds it after other text is FAILED. |
| ChangeSetRules.RuleOrderDecidesNoChanges | src/takomo-aws-clients/cloudformation/rules/describe-change-set-rule.ts:58-63 | A FAILED change set with a no-changes reason is NO_CHANGES with the rules in their order, and would be FAILED with the failed rule placed first. |
| CloudFormationClient.DescribeStackResult | packages/aws-clients/src/cloudformation/client.ts:266-281 | `describeStack` yields the stack on success, nothing exactly for the "Stack with id <name> does not exist" validation error, and rethrows every other error unchanged. |
| CloudFormationClient.UpdateStackResult | packages/aws-clients/src/cloudformation/client.ts:513-527 | `updateStack` is true exactly on success, false exactly for the "No updates are to be performed." validation error, and rethrows every other error unchanged. |
| CloudFormationClient.ChangeSetPoll | packages/aws-clients/src/cloudformation/client.ts:450-466 | One description: poll again exactly when PENDING, return the change set exactly when READY, return nothing exactly when NO_CHANGES, throw the status reason on FAILED and the "Could not evaluate" message on ERROR. |
| CloudFormationClient.ChangeSetWaitOutcomeIsFirstDecided | packages/aws-clients/src/cloudformation/client.ts:446-467 | The wait ends with the outcome of the first description that is not pending. |
| CloudFormationClient.ChangeSetWaitReturnsReady | packages/aws-clients/src/cloudformation/client.ts:464-465 | A change set handed back by the wait was described as CREATE_COMPLETE. |
| CloudFormationClient.WaitUntilChangeSetIsReady | packages/aws-clients/src/cloudformation/client.ts:446-467 | The polling loop returns the outcome of the recursive definition, and is still pending exactly when every description was pending. |
| CloudFormationClient.WaitDriftDetectionToComplete | packages/aws-clients/src/cloudformation/client.ts:245-257 | The loop returns the first status that is DETECTION_COMPLETE or DETECTION_FAILED, and nothing exactly when none is. |
| CloudFormationClient.PageCollector.OnPage | packages/aws-clients/src/cloudformation/client.ts:293-300 | Without requested names the callback never stops paging and collects nothing; otherwise it adds the page's names to the collected set and stops exactly when every requested name has been collected. |
| CloudFormationClient.NamesOf | packages/aws-clients/src/cloudformation/client.ts:298 | A name is collected exactly when some item of the page has it. |
| CloudFormationClient.ByName | packages/aws-clients/src/cloudformation/client.ts:302 | `arrayToMap` by name: a name is a key exactly when some listed stack has it, and its value is a listed stack of that name. |
| CloudFormationClient.ListedFindsRequested | packages/aws-clients/src/cloudformation/client.ts:283-303 | A requested stack present on any page is listed (or was already collected): paging only stops once every requested name has been seen. |
| CloudFormationClient.ListedComesFromPages | packages/aws-clients/src/cloudformation/client.ts:283-303 | Every listed stack comes from some page. |
| CloudFormationClient.ListNotDeletedStacks | packages/aws-clients/src/cloudformation/client.ts:283-303 | The loop over pages with its collector returns the by-name map of the listed stacks, and with requested names only requested names are keys. |
| CloudFormationClient.GetNotDeletedStack | packages/aws-clients/src/cloudformation/client.ts:305-315 | A found stack has the requested name and comes from a page; "Stack not found with name" is returned only when no page holds a stack of that name. |
| CloudFormationClient.ParameterMap | packages/aws-clients/src/cloudformation/client.ts:328 | A key is in the map exactly when some stack parameter has it, and maps to a parameter with that key. |
| CloudFormationClient.ParameterMapLastWins | packages/aws-clients/src/cloudformation/client.ts:328 | A key maps to the last parameter in the list that has it. |
| CloudFormationClient.JoinParameters | packages/aws-clients/src/cloudformation/client.ts:329-339 | The join succeeds exactly when every declared key has a stack parameter; it then yields one enriched parameter per declaration, in order, with the stack's value and the declaration's fields; otherwise it fails with the first missing key. |
| CloudFormationClient.EnrichStack | packages/aws-clients/src/cloudformation/client.ts:317-347 | Enrichment succeeds exactly when every declared parameter exists on the stack. It then keeps the stack's identity and status, adds the template and policy bodies, and joins each declaration, in order, with the value of the stack's parameter of that key. Otherwise the error is `Parameter '<key>' not found` for the first declaration without one. |
| StackEvents.FindTerminalEvent | packages/aws-clients/src/cloudformation/client.ts:174-183 | Nothing is found exactly when no event is a stack-level event of that stack id with a terminal status; a found event is such an event from the list. |
| StackEvents.FindTerminalEventIsFirst | packages/aws-clients/src/cloudformation/client.ts:178-183 | The event found is the first terminal stack event of the list. |
| StackEvents.FindTerminalEventStable | packages/aws-clients/src/cloudformation/client.ts:646-647 | Appending events to a log that already holds a terminal event does not change which event is found. |
| StackEvents.EventsAfterUnknownId | packages/aws-clients/src/cloudformation/client.ts:639-642 | With no last-seen id, or one no event has, every event is new. |
| StackEvents.EventsAfterKnownId | packages/aws-clients/src/cloudformation/client.ts:639-642 | With a known last-seen id, the new events are exactly those after its last occurrence. |
| StackEvents.NewEventsMembers | packages/aws-clients/src/cloudformation/client.ts:638-642 | The events one poll forwards are the unseen events of the page that carry the active token, oldest first: a subsequence of the unseen events in their order, each as often as it occurs there. |
| StackEvents.NextLatestEventId | packages/aws-clients/src/cloudformation/client.ts:657-658 | After a poll the remembered id is that of the newest event of the page, whatever its token, and is unchanged for an empty page. |
| StackWaiters.LatestStackEvent | packages/aws-clients/src/cloudformation/client.ts:663-669 | Nothing is found exactly when the log has no stack-level event of that stack id; a found event is one. |
| StackWaiters.LatestStackEventIsLast | packages/aws-clients/src/cloudformation/client.ts:663-669 | The event found is the last stack-level event of the log. |
| StackWaiters.UpdateInProgressIsNotTerminal | packages/aws-clients/src/cloudformation/client.ts:569-583 | UPDATE_IN_PROGRESS is not a terminal status, so the legacy waiter's cancel branch is reachable only for a non-terminal stack. |
| StackWaiters.DecideDeploy | packages/aws-clients/src/cloudformation/client.ts:647-700 | The deploy waiter completes exactly when the log holds a terminal stack event, with its status and the whole log; after the timeout it throws exactly when the log has no stack event, cancels exactly when the latest stack event is UPDATE_IN_PROGRESS (switching to the cancel token with timeout 0 and timeoutOccurred set), and otherwise keeps polling unchanged. |
| StackWaiters.DecideOnTerminalEvent | packages/aws-clients/src/cloudformation/client.ts:774-781 | The delete and rollback waiters complete exactly when the log holds a terminal stack event, with its status, and otherwise keep polling with no timeout branch. |
| StackWaiters.DecideLegacyCreateOrUpdate | packages/aws-clients/src/cloudformation/client.ts:569-611 | The deprecated create-or-update waiter completes exactly on a terminal status, never throws after the status check, and cancels exactly when the stack is UPDATE_IN_PROGRESS past the timeout. |
| StackWaiters.DecideLegacyDelete | packages/aws-clients/src/cloudformation/client.ts:730-736 | The deprecated delete waiter completes exactly on DELETE_COMPLETE or DELETE_FAILED and otherwise keeps polling. |
| StackWaiters.Decide | packages/aws-clients/src/cloudformation/client.ts:542-831 | Across the five waiters: completion is in a terminal state with the whole log, only the deploy waiter throws on a timeout, a cancellation needs a timeout that has passed and switches to the cancel arguments, and any other poll leaves the arguments unchanged. |
| StackWaiters.Poll | packages/aws-clients/src/cloudformation/client.ts:638-700 | One poll forwards exactly the page's new events of the active token; when a status-based waiter's stack is missing it forwards nothing and throws the missing-stack error. It appends exactly the forwarded events to the log, remembers the newest event id, keeps the start time, and throws only in those two cases. |
| StackWaiters.PollCompletesInTerminalState | packages/aws-clients/src/cloudformation/client.ts:647-655 | A poll completes only in a terminal state of its waiter. |
| StackWaiters.PollFailureMessages | packages/aws-clients/src/cloudformation/client.ts:552-557 | A poll throws only with the missing-stack message of a status-based waiter or the "Expected latest event to exist" message of the deploy waiter. |
| StackWaiters.RunCancelsAtMostOnce | packages/aws-clients/src/cloudformation/client.ts:675-687 | A whole wait cancels at most one update, only in a waiter with a timeout and only when a timeout was set. |
| StackWaiters.RunLogIsInitialPlusForwarded | packages/aws-clients/src/cloudformation/client.ts:644-646 | The log a wait ends with is its initial log followed by exactly the events forwarded to the listener. |
| StackWaiters.RunForwardsActiveToken | packages/aws-clients/src/cloudformation/client.ts:639-642 | The listener hears only events of the initial token or of the cancel token, and only of the initial token in waiters without a timeout. |
| StackWaiters.RunCompletesInTerminalState | packages/aws-clients/src/cloudformation/client.ts:647-655 | A wait completes only in a terminal state: the event-based waiters with the status of the first terminal stack event of the log. |
| StackWaiters.RunFailures | packages/aws-clients/src/cloudformation/client.ts:671-673 | A wait fails only when a status-based waiter's stack disappears, or when a deploy waiter with a timeout set finds no stack event after the timeout. |
| StackWaiters.RunStopsAtLoggedTerminalEvent | packages/aws-clients/src/cloudformation/client.ts:647-655 | Once the log holds a terminal stack event, the next poll completes with that event's status, with no cancellation, after forwarding exactly that poll's new events. |
| StackWaiters.RunForwardsNewEventsAlong | packages/aws-clients/src/cloudformation/client.ts:638-700 | A wait that cancels nothing forwards, poll by poll, the concatenated new events of the polls it made, each poll starting after the newest event id of the poll before; while still waiting, those of all polls. |
| StackWaiters.DeleteAndRollbackPollsAgree | packages/aws-clients/src/cloudformation/client.ts:751-831 | A delete poll and a rollback poll are the same. |
| StackWaiters.DeleteAndRollbackWaitersAgree | packages/aws-clients/src/cloudformation/client.ts:751-831 | The delete and rollback waiters run identically on every sequence of polls. |
| StackWaiters.Wait | packages/aws-clients/src/cloudformation/client.ts:624-701 | The polling loop computes the recursive waiter, cancels at most once, ends with the initial log plus the forwarded events, and forwards only events of the active tokens. |
| InitiateStackUpdate.ToRequestParameters | packages/stacks-commands/src/stacks/deploy/steps/initiate-stack-update.ts:30-34 | One request parameter per state parameter, in order, each with `UsePreviousValue` false. |
| InitiateStackUpdate.ToRequestTags | packages/stacks-commands/src/stacks/deploy/steps/initiate-stack-update.ts:35 | One request tag per state tag, in order, with the same key and value. |
| InitiateStackUpdate.UpdateRequest | packages/stacks-commands/src/stacks/deploy/steps/initiate-stack-update.ts:22-38 | The request carries the fresh token and the stack's name; the template goes under TemplateURL exactly when an S3 URL is set, else under TemplateBody; capabilities are the stack's own when defined (even empty), else the defaults; no parameter reuses its previous value. |
| InitiateStackUpdate.UpdateRequestKeepsParametersAndTags | packages/stacks-commands/src/stacks/deploy/steps/initiate-stack-update.ts:30-35 | Reading the request's parameters and tags back gives the state's parameters and tags, in order. |
| InitiateStackUpdate.InitiateStackUpdate | packages/stacks-commands/src/stacks/deploy/steps/initiate-stack-update.ts:40-63 | Changes lead to the completion wait with the token that was sent; "No updates" leads to the after-deploy hooks with SUCCESS, no events, and "Stack update succeeded" or "No changes" by termination-protection update; any other error is rethrown. |
| OrganizationalUnits.UnionMembers | packages/takomo-organization/src/plan/organizational-units.ts:469-483 | Each category of `uniq(inherited ++ own)` holds the policies of either side, each once. |
| OrganizationalUnits.CurrentOf | packages/takomo-organization/src/plan/organizational-units.ts:53-58 | The current policies of a target, per category, or none when the target is not in that category's map. |
| OrganizationalUnits.DiffMembers | packages/takomo-organization/src/plan/organizational-units.ts:485-529 | add is desired minus current, remove is current minus desired, retain is their intersection without repeats. |
| OrganizationalUnits.DiffEmptyIffInSync | packages/takomo-organization/src/plan/organizational-units.ts:117-127 | A category has nothing to add or remove exactly when the desired and current sets are equal. |
| OrganizationalUnits.DiffPoliciesUnchangedIffInSync | packages/takomo-organization/src/plan/organizational-units.ts:552-562 | The policy diff of all four categories changes nothing exactly when every category is in sync. |
| OrganizationalUnits.PlanAccountUpdate | packages/takomo-organization/src/plan/organizational-units.ts:22-153 | An account plan keeps the id, diffs `uniq(inherited ++ own)` against the account's current policies, and is an update or a skip. |
| OrganizationalUnits.PlanAccountUpdateSkipsIffInSync | packages/takomo-organization/src/plan/organizational-units.ts:117-127 | An account is skipped exactly when every category of its policies is already in sync. |
| OrganizationalUnits.LocalAccountIds | packages/takomo-organization/src/plan/organizational-units.ts:438 | The configured account ids, in order. |
| OrganizationalUnits.PlannedAccountIds | packages/takomo-organization/src/plan/organizational-units.ts:564-566 | The planned accounts' ids, in order. |
| OrganizationalUnits.FindLocalAccount | packages/takomo-organization/src/plan/organizational-units.ts:571 | The configured account found has the requested id. |
| OrganizationalUnits.PlanAccounts | packages/takomo-organization/src/plan/organizational-units.ts:568-596 | The planned accounts have exactly the given ids, in order, and each is the plan of its configured account with the inherited sets. |
| OrganizationalUnits.SkipAccounts | packages/takomo-organization/src/plan/organizational-units.ts:598-623 | One skipped account with empty buckets per id, in order. |
| OrganizationalUnits.PlanLocalAccounts | packages/takomo-organization/src/plan/organizational-units.ts:399-413 | An add plan's accounts are every configured account, in order, planned with the inherited sets. |
| OrganizationalUnits.ByPriority | packages/takomo-organization/src/plan/organizational-units.ts:335-337 | The children sorted by priority are a permutation of the children. |
| OrganizationalUnits.ByPrioritySorted | packages/takomo-organization/src/plan/organizational-units.ts:335-337 | Sorted children are in ascending priority. |
| OrganizationalUnits.FindCurrentChild | packages/takomo-organization/src/plan/organizational-units.ts:649-651 | A current child is found exactly when one has that name, and the one found has it. |
| OrganizationalUnits.PlanDelete | packages/takomo-organization/src/plan/organizational-units.ts:228-316 | A delete plan: operation delete, priority 0, no new name, no policy work, every current account removed as a skip, one child per current child. |
| OrganizationalUnits.PlanDeleteChildren | packages/takomo-organization/src/plan/organizational-units.ts:239-255 | One plan per current child. |
| OrganizationalUnits.PlanDeleteChildrenAt | packages/takomo-organization/src/plan/organizational-units.ts:239-255 | The i-th child plan is the delete plan of the i-th current child, with nothing inherited. |
| OrganizationalUnits.PlanDeleteChild | packages/takomo-organization/src/plan/organizational-units.ts:239-255 | The i-th child of a delete plan is the delete plan of the i-th current child. |
| OrganizationalUnits.PlanAdd | packages/takomo-organization/src/plan/organizational-units.ts:318-417 | An add plan: operation add, no id or current name, every bucket `uniq(own ++ inherited)` to add, every configured account added, one child per configured child. |
| OrganizationalUnits.PlanAddChildren | packages/takomo-organization/src/plan/organizational-units.ts:335-362 | One plan per configured child. |
| OrganizationalUnits.PlanAddChildrenAt | packages/takomo-organization/src/plan/organizational-units.ts:335-362 | The i-th child plan is the add plan of the i-th child with the unit's desired sets as its inherited sets. |
| OrganizationalUnits.PlanAddChild | packages/takomo-organization/src/plan/organizational-units.ts:335-362 | The i-th child of an add plan is the add plan of the i-th child by priority. |
| OrganizationalUnits.PlanAddAccount | packages/takomo-organization/src/plan/organizational-units.ts:399-413 | The i-th added account of an add plan is the i-th configured account planned with the inherited sets. |
| OrganizationalUnits.PlanUpdate | packages/takomo-organization/src/plan/organizational-units.ts:419-739 | An update plan keeps the current id and name and the configured name, diffs the policies, splits the accounts, and is an update exactly when the name differs, a policy is added or removed, the account ids differ or an account is updated; its children are the configured ones then the deleted ones. |
| OrganizationalUnits.PlanUpdateAccounts | packages/takomo-organization/src/plan/organizational-units.ts:564-623 | Accounts to add are configured minus current, to remove current minus configured, to retain their intersection; removed accounts are skips and the rest are planned from their configuration. |
| OrganizationalUnits.DeletedChildren | packages/takomo-organization/src/plan/organizational-units.ts:671-695 | The deleted children are exactly the current children that no configured child names. |
| OrganizationalUnits.PlanUpdateChild | packages/takomo-organization/src/plan/organizational-units.ts:644-669 | A configured child is added exactly when no current child has its name. |
| OrganizationalUnits.PlanUpdateChildren | packages/takomo-organization/src/plan/organizational-units.ts:644-669 | One plan per configured child. |
| OrganizationalUnits.PlanUpdateChildrenAt | packages/takomo-organization/src/plan/organizational-units.ts:644-669 | The i-th child plan is the plan of the i-th child against its namesake, with the unit's desired sets inherited. |
| OrganizationalUnits.PlanUpdateChildAt | packages/takomo-organization/src/plan/organizational-units.ts:644-707 | The children of an update plan are the configured children by priority, then the delete plans of the deleted children. |
| OrganizationalUnits.CreatePlan | packages/takomo-organization/src/plan/organizational-units.ts:155-226 | Dispatch: remote only is a delete plan, local only an add plan, both an update plan, neither "Assertion error"; the operation is delete exactly when local is absent and add exactly when remote is absent. |
| OrganizationalUnits.Nodes | packages/takomo-organization/src/plan/organizational-units.ts:776-782 | The tree's nodes in pre-order start with the root. |
| OrganizationalUnits.HasChangesIffSomeNodeChanges | packages/takomo-organization/src/plan/organizational-units.ts:776-782 | `hasChanges` holds exactly when some node of the planned tree is not a skip. |
| OrganizationalUnits.AnyHasChangesIffSomeNodeChanges | packages/takomo-organization/src/plan/organizational-units.ts:781 | Some child has changes exactly when some node under the children is not a skip. |
| OrganizationalUnits.NodesOfMember | packages/takomo-organization/src/plan/organizational-units.ts:781 | A node under the children lies in the tree of one of them. |
| OrganizationalUnits.DeletePlanAllDelete | packages/takomo-organization/src/plan/organizational-units.ts:239-266 | Every node of a delete plan is a delete. |
| OrganizationalUnits.AddPlanAllAdd | packages/takomo-organization/src/plan/organizational-units.ts:335-371 | Every node of an add plan is an add. |
| OrganizationalUnits.AddOrDeleteHasChanges | packages/takomo-organization/src/plan/organizational-units.ts:777-779 | An added or deleted unit makes the plan one with changes. |
| OrganizationalUnits.SkippedUpdateMovesNothing | packages/takomo-organization/src/plan/organizational-units.ts:697-702 | A skipped unit keeps its name, adds and removes no account and no policy, and updates no account. |
| OrganizationalUnits.UnchangedAccountsMoveNothing | packages/takomo-organization/src/plan/organizational-units.ts:625-642 | When the accounts are unchanged, no account is added or removed and every retained account is a skip. |
| OrganizationalUnits.AccountsIgnoreUnitPolicies | packages/takomo-organization/src/plan/organizational-units.ts:568-596 | Accounts are planned with the unit's inherited sets, not its own: a policy neither inherited nor on the account is never added to it. |
| OrganizationalUnits.PlanOrganizationalUnitsDeployment | packages/takomo-organization/src/plan/organizational-units.ts:741-789 | The plan is the root's plan with no parent and nothing inherited, and `hasChanges` holds exactly when some node of it is not a skip. |
| DeploymentPlan.FirstUnknownGroup | packages/deployment-targets-commands/src/operation/plan.ts:24-30 | No path is reported exactly when every requested path is a known group; a reported path is requested and unknown. |
| DeploymentPlan.FirstUnknownGroupIsFirst | packages/deployment-targets-commands/src/operation/plan.ts:25-28 | The reported path is the first unknown one. |
| DeploymentPlan.GroupsToLaunchFrom | packages/deployment-targets-commands/src/operation/plan.ts:32-37 | The launch set is the root groups when none is requested, else the requested groups in the given order. |
| DeploymentPlan.Lookup | packages/deployment-targets-commands/src/operation/plan.ts:35-37 | The groups of the requested paths, one per path, in order. |
| DeploymentPlan.GroupLessStrictOrder | packages/deployment-targets-commands/src/operation/plan.ts:39-45 | `sortGroups` (priority, then name) is a strict order. |
| DeploymentPlan.SortedActiveChildren | packages/deployment-targets-commands/src/operation/plan.ts:50-53 | The collected children are exactly the active children. |
| DeploymentPlan.SiblingsSorted | packages/deployment-targets-commands/src/operation/plan.ts:39-53 | Siblings are collected in ascending priority, by name among equals. |
| DeploymentPlan.Collect | packages/deployment-targets-commands/src/operation/plan.ts:47-56 | Collection from a group starts with the group itself. |
| DeploymentPlan.CollectBelowActive | packages/deployment-targets-commands/src/operation/plan.ts:50-53 | Everything collected below the starting group is active. |
| DeploymentPlan.CollectAllActive | packages/deployment-targets-commands/src/operation/plan.ts:50-53 | Collection from active children yields only active groups. |
| DeploymentPlan.LaunchedCollected | packages/deployment-targets-commands/src/operation/plan.ts:47-56 | Every group of the launch set is collected. |
| DeploymentPlan.UniqueActive | packages/deployment-targets-commands/src/operation/plan.ts:58-60 | De-duplication keeps only active collected groups, with distinct paths, and keeps exactly the active groups that are the first with their path: an inactive first group hides later active groups of its path. |
| DeploymentPlan.FilterKeepsDistinctPaths | packages/deployment-targets-commands/src/operation/plan.ts:58-60 | Filtering keeps paths distinct. |
| DeploymentPlan.HasConfigSets | packages/deployment-targets-commands/src/operation/plan.ts:62-71 | "standard" checks the config sets, "bootstrap" the bootstrap config sets, and any other type is "Unsupported config set type". |
| DeploymentPlan.FilterTargets | packages/deployment-targets-commands/src/operation/plan.ts:77-82 | A target is kept exactly when it is active, has config sets of the type and is named by the filter if any; an unsupported type fails exactly when some active target reaches the check. |
| DeploymentPlan.SelectGroups | packages/deployment-targets-commands/src/operation/plan.ts:73-85 | Kept groups come from the input with their qualifying targets, and only groups with some target left are kept. |
| DeploymentPlan.SelectGroupsKeeps | packages/deployment-targets-commands/src/operation/plan.ts:73-85 | A group with a qualifying target stays, with that target and its path. |
| DeploymentPlan.SelectGroupsOrigin | packages/deployment-targets-commands/src/operation/plan.ts:73-85 | A target in a kept group comes from the group of the same path. |
| DeploymentPlan.SelectGroupsEmptyIffNoTarget | packages/deployment-targets-commands/src/operation/plan.ts:73-87 | Nothing is kept exactly when no target of any group qualifies. |
| DeploymentPlan.PlanDeployment | packages/deployment-targets-commands/src/operation/plan.ts:24-109 | An unknown group fails first with "Deployment group '<path>' not found"; then the result is SKIPPED with "No targets to deploy" exactly when no group is left, and otherwise a plan with changes holding the groups left. |
| DeploymentPlan.PlanDeploymentSkipsIffNoTarget | packages/deployment-targets-commands/src/operation/plan.ts:87-99 | With known groups and a supported type, the operation is skipped exactly when no active collected group has a qualifying target. |
| SecretResolver.SecretResolver.Confidential | packages/takomo-stacks-resolvers/src/impl/secret-resolver.ts:14 | The resolved value is always confidential. |
| SecretResolver.SecretResolver.Dependencies | packages/takomo-stacks-resolvers/src/impl/secret-resolver.ts:16 | The configured stack path is the one dependency when set, else there are none. |
| SecretResolver.SecretResolver.ReferencedStacks | packages/takomo-stacks-resolvers/src/impl/secret-resolver.ts:19-21 | The invoking stack without a configured path, else the stacks found at the path. |
| SecretResolver.SecretResolver.Resolve | packages/takomo-stacks-resolvers/src/impl/secret-resolver.ts:18-47 | No match is "Stack not found with path", several are "More than one stack found with path", a missing secret is "Stack <invoking path> does not have secret"; otherwise the read uses the referenced stack's credentials and region and the secret's parameter name. |
| SecretResolver.ResolveOwnSecret | packages/takomo-stacks-resolvers/src/impl/secret-resolver.ts:19-46 | Without a configured path there is no dependency, and resolution succeeds exactly when the invoking stack has the secret, reading it with that stack's credentials. |
| SecretResolver.ResolveReadsDependency | packages/takomo-stacks-resolvers/src/impl/secret-resolver.ts:16-46 | A successful read of another stack's secret uses the single stack found at the declared dependency's path. |
| HookOutputResolver.HookOutputResolver.Resolve | src/takomo-stacks-resolvers/hook-output-resolver.ts:25-29 | The hook's output is returned exactly when the hook is in the map, whatever its value; otherwise "No such hook: '<hook>'". |
| HookOutputResolver.Init | src/takomo-stacks-resolvers/hook-output-resolver.ts:10-13 | Initialisation succeeds exactly for a non-empty hook name, binding the resolver to it, and fails with "hook is required property" otherwise. |
| HookOutputResolver.InitThenResolve | src/takomo-stacks-resolvers/hook-output-resolver.ts:10-31 | An initialised resolver returns its own hook's output and ignores every other hook's. |
| StackName.Prefix | src/takomo-stacks-context/config/make-stack-name.ts:9 | "<project>-" for a non-empty project, else nothing. |
| StackName.DropFirst | src/takomo-stacks-context/config/make-stack-name.ts:10 | The path without its first character, nothing for an empty path. |
| StackName.ReplaceSlashes | src/takomo-stacks-context/config/make-stack-name.ts:12 | Same length, every "/" replaced by "-" and every other character kept. |
| StackName.StripTemplateSuffix | src/takomo-stacks-context/config/make-stack-name.ts:13 | One ".yml" is removed when it ends the string; otherwise the string is unchanged. |
| StackName.MakeStackName | src/takomo-stacks-context/config/make-stack-name.ts:5-14 | The name has no "/". It is the prefix plus the path without its first character, with "/" replaced by "-", character for character. It is exactly one ".yml" shorter when that string ends in ".yml", and otherwise equally long. |
| StackName.ReplaceSlashesEndsWith | src/takomo-stacks-context/config/make-stack-name.ts:9-13 | Replacing slashes neither creates nor removes an ending without "/" or "-", such as ".yml". |
| StackName.StripTemplateSuffixOnce | src/takomo-stacks-context/config/make-stack-name.ts:13 | ".yml" goes only once, even when what precedes it also ends in ".yml". |
| StackName.MakeStackNameKeepsLength | src/takomo-stacks-context/config/make-stack-name.ts:9-13 | A stack path that does not end in ".yml" keeps every character after its first one, behind the prefix. |
| StackName.ExampleStackName | src/takomo-stacks-context/config/make-stack-name.ts:5-14 | "/dev/vpc.yml" in project "example" is "example-dev-vpc". |
| StackGroupConfig.TagMapKeys | src/takomo-stacks-context/config/populate-properties-from-config-file.ts:75-81 | The configured tag map has a key exactly when some configured tag has it. |
| StackGroupConfig.TagMapLastWins | src/takomo-stacks-context/config/populate-properties-from-config-file.ts:76-78 | A key takes the value of its last configured tag. |
| StackGroupConfig.Merge | src/takomo-stacks-context/config/populate-properties-from-config-file.ts:83 | Merging two objects has the keys of both, merging two arrays has the longer length, and otherwise the later value wins. |
| StackGroupConfig.MergeObjects | test/takomo-util/objects/merge.test.ts:35-53 | A key only the earlier object has keeps its value, a key only the later one has takes its value, and a key both have takes the merge of the two. |
| StackGroupConfig.MergeIdempotent | test/takomo-util/objects/merge.test.ts:35-53 | Merging a value with itself gives it back. |
| StackGroupConfig.MergeIntoEmpty | test/takomo-util/objects/merge.test.ts:96-101 | Merging into an empty object gives the later object back. |
| StackGroupConfig.MergeHooks | src/takomo-stacks-context/config/populate-properties-from-config-file.ts:84-89 | The parent's hooks come first and unchanged, followed by configured hooks only. |
| StackGroupConfig.MergeHooksNames | src/takomo-stacks-context/config/populate-properties-from-config-file.ts:84-89 | Every configured hook is represented by name, and no name is added twice. |
| StackGroupConfig.OverrideIfTruthy | src/takomo-stacks-context/config/populate-properties-from-config-file.ts:27-29 | A truthy (non-empty) configured string overrides; otherwise the inherited value stays. |
| StackGroupConfig.OverrideIfSet | src/takomo-stacks-context/config/populate-properties-from-config-file.ts:31-49 | A configured object or list overrides whenever it is set; otherwise the inherited value stays. |
| StackGroupConfig.OverrideIfDefined | src/takomo-stacks-context/config/populate-properties-from-config-file.ts:51-61 | A defined flag overrides, so an explicit false wins. |
| StackGroupConfig.OverrideIfNotNull | src/takomo-stacks-context/config/populate-properties-from-config-file.ts:71-73 | A null timeout keeps the inherited one; any other value, undefined included, replaces it. |
| StackGroupConfig.OverlayTagsInheritOrReplace | src/takomo-stacks-context/config/populate-properties-from-config-file.ts:75-81 | With `inheritTags` a configured tag wins on a clash and other inherited tags stay; without it the group has exactly the configured tags. |
| StackGroupConfig.EmptyConfigFileChangesNothing | src/takomo-stacks-context/config/populate-properties-from-config-file.ts:27-89 | A file that sets nothing leaves the group as it was. |
| StackGroupConfig.StackGroupProps.constructor | src/takomo-stacks-context/config/populate-properties-from-config-file.ts:25 | The record describes the given group. |
| StackGroupConfig.StackGroupProps.SetTags | src/takomo-stacks-context/config/populate-properties-from-config-file.ts:76-78 | Setting the configured tags one by one gives the old map overridden by the configured map. |
| StackGroupConfig.StackGroupProps.OverrideNaming | src/takomo-stacks-context/config/populate-properties-from-config-file.ts:27-41 | project, templateBucket, regions and commandRole are each overridden under their own rule. |
| StackGroupConfig.StackGroupProps.OverrideTargeting | src/takomo-stacks-context/config/populate-properties-from-config-file.ts:43-57 | capabilities, accountIds, ignore and obsolete are each overridden under their own rule. |
| StackGroupConfig.StackGroupProps.OverrideProtection | src/takomo-stacks-context/config/populate-properties-from-config-file.ts:59-73 | terminationProtection, the stack policies and the timeout are each overridden under their own rule. |
| StackGroupConfig.StackGroupProps.OverrideProperties | src/takomo-stacks-context/config/populate-properties-from-config-file.ts:27-73 | Every property before the tags is overridden under its own rule. |
| StackGroupConfig.StackGroupProps.OverlayTagsInPlace | src/takomo-stacks-context/config/populate-properties-from-config-file.ts:75-81 | The tags are overlaid in place or replaced, as `inheritTags` says. |
| StackGroupConfig.StackGroupProps.Populate | src/takomo-stacks-context/config/populate-properties-from-config-file.ts:25-89 | The record after the whole overlay describes the overlaid group. |
| StackGroupConfig.PopulatePropertiesFromConfigFile | src/takomo-stacks-context/config/populate-properties-from-config-file.ts:11-98 | Without a configuration file the group is returned unchanged; otherwise the group with the file overlaid. |
| Lists.Filter | packages/deployment-targets-commands/src/operation/plan.ts:77-85 | The kept elements are exactly those satisfying the predicate. |
| Lists.FilterAppend | packages/deployment-targets-commands/src/operation/plan.ts:73-85 | Filtering distributes over concatenation. |
| Lists.FilterInOrder | packages/aws-clients/src/cloudformation/client.ts:639-642 | `filter` keeps the order of its input: the result is its input read at increasing positions. |
| Lists.FilterCount | packages/aws-clients/src/cloudformation/client.ts:639-642 | `filter` keeps every occurrence of a value that satisfies the predicate, and no other value. |
| Lists.Without | packages/takomo-organization/src/plan/organizational-units.ts:564-565 | lodash `without`: exactly the elements of the first list not in the second. |
| Lists.WithoutEmpty | packages/takomo-organization/src/plan/organizational-units.ts:625-642 | Nothing is left exactly when every element is in the second list. |
| Lists.UniqBy | packages/deployment-targets-commands/src/operation/plan.ts:58 | lodash `uniqBy`: elements of the input, one per key, every key kept. |
| Lists.UniqByKeepsFirst | packages/deployment-targets-commands/src/operation/plan.ts:58 | The first element with a key is the one kept. |
| Lists.UniqByKeepsOnlyFirst | packages/deployment-targets-commands/src/operation/plan.ts:58 | Every kept element is the first of the input with its key. |
| Lists.UniqMembers | packages/takomo-organization/src/plan/organizational-units.ts:469-483 | lodash `uniq` keeps every element, each once. |
| Lists.UniqIsUniqByIdentity | packages/takomo-organization/src/plan/organizational-units.ts:469-483 | `uniq` is `uniqBy` with the identity key. |
| Lists.IntersectionMembers | packages/takomo-organization/src/plan/organizational-units.ts:566 | lodash `intersection`: the elements of both lists, each once. |
| Lists.IntersectionIsUniqOfFilter | packages/takomo-organization/src/plan/organizational-units.ts:566 | `intersection` is the first list filtered by membership in the second, without repeats. |
| Lists.TakeRightWhile | packages/aws-clients/src/cloudformation/client.ts:639-642 | lodash `takeRightWhile`: the longest suffix whose elements satisfy the predicate. |
| Lists.TakeRightWhileStopsAt | packages/aws-clients/src/cloudformation/client.ts:639-642 | The suffix starts right after the last element failing the predicate. |
| Lists.Reverse | packages/aws-clients/src/cloudformation/client.ts:638 | The page reversed, element for element. |
| Lists.Sort | packages/takomo-organization/src/plan/organizational-units.ts:335-337 | Sorting gives a permutation of the input. |
| Lists.SortSorted | packages/takomo-organization/src/plan/organizational-units.ts:335-337 | Sorting by a strict order gives a sorted list. |
| Lists.StringLessTransitive | packages/deployment-targets-commands/src/operation/plan.ts:44 | The name order used to break ties is transitive. |

## Left out

- Calls to the AWS SDK, the bulkheads, schedulers, paging plumbing, sleeps and poll intervals are not modelled. Their results are inputs: responses, observations per poll, pages.
- `isTerminalResourceStatus` is not part of this model. The terminal statuses are taken to be the nine the deprecated create-or-update waiter enumerates.
- `evaluateRules` is not part of this model. It is defined as "the first rule that answers, else the default".
- The lodash helpers `without`, `intersection`, `uniq`, `uniqBy` and `takeRightWhile` are given their documented semantics.
- `collectFromHierarchy` is not part of this model. It is taken to be a pre-order walk that always includes the starting group, drops children failing the filter together with their subtrees, and orders siblings with `sortGroups`.
- `localeCompare` is locale-dependent. It is modelled as plain code-point lexicographic order.
- `merge` is not part of this model. It is modelled from its tests: objects merge key by key and arrays index by index; any other pair of values takes the later one.
- `mergeArrays` is not part of this model. With duplicates disallowed, it is taken to append each configured hook whose name is not yet present; a duplicate is dropped rather than reported.
- `mergeStackGroupSchemas` and the `schemas` property are left out. They depend on an asynchronous schema registry.
- The insertion order of the tag `Map` is not modelled. Tags are a Dafny `map`.
- `StackGroupConfig.OverrideIfNotNull`: a timeout left out of the file is not null, so it clears the inherited timeout. This is modelled as the code is written.
- `OrganizationalUnits.PlanUpdate`: the account-id comparison `sort().join(",")` is modelled as multiset equality. That is exact only when account ids contain no ",", which holds for twelve-digit account ids.
- The planner requires every configured account to exist among the current accounts (`AccountsKnown`). The code dereferences `find(...)!` and would fail otherwise.
- The organization's data loading, the logger, `confirmOperation`, the timer and the io object are left out. These are the effects of the planning functions.
- `InitiateStackUpdate.InitiateStackUpdate`: `defaultCapabilities` is a parameter, and `executeSteps` and the transition wiring are not part of this model.
- `enrichStackSummary` is not modelled. Only `enrichStack`'s parameter join is, with the three concurrent service calls (`Promise.all`) as inputs.
- `validateTemplate`, `detectDrift`, `createStack`, `createChangeSet` and the other plain SDK wrappers are left out. They only forward a call.
- `SecretResolver.SecretResolver.Resolve` ends with the encrypted-parameter request. The SSM read itself is left out, and `getStacksByPath` is a parameter.
- The deprecated waiters' `describeStack` call is abstracted to the stack status of each observation, with `None` for a stack that does not exist.
- `HookOutputResolver.HookOutputResolver.Resolve` looks hook outputs up as own entries of a map. The code's `hook in variables.hooks` is JavaScript `in`; on a plain object it is also true for inherited names such as "constructor" or "toString", for which the code returns the inherited member and the model returns "No such hook". The type of `variables.hooks` is not part of this model.
- The event listener is modelled as the sequence of forwarded events, and the logger's warnings are left out.
- `pagedOperationV2` is not part of this model. `CloudFormationClient.ListNotDeletedStacks` assumes it applies `filter` to a page before calling `onPage`, keeps the items of the page on which `onPage` returns true, and then stops paging.
- `OrganizationalUnits.PlanOrganizationalUnitsDeployment`: an added or updated unit's plan takes its path from the configured unit, where the code passes the `ouPath` argument. The two agree at every recursive call (organizational-units.ts:341 and 655). At the root the code passes "Root" (organizational-units.ts:761), so the model agrees with it there only when the configured root's path is "Root".
- `StackGroupConfig.StackGroupProps.constructor` copies the group's fields into a fresh record. The stack group's `toProps` is not part of this model. If it hands out the group's own properties object, as a stack's `toProps` does (packages/stacks-model/src/stack.ts:152), then the in-place tag writes of `populatePropertiesFromConfigFile` also reach the input group. That aliasing is not modelled.
- `Lists.Sort` is an insertion sort and keeps equal elements in their input order, as ES2019 `sort` does, but only that it returns a sorted permutation is proved. Stability is not.
- Concurrency (the `Promise.all` in `enrichStack` and the scheduling of stack operations) is not modelled.
