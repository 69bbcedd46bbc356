/**
 * The organizational-unit deployment planner: a three-way diff of the configured OU tree
 * (local) against the organization's current OU tree, per policy category and for the
 * accounts directly under each unit, producing a planned tree whose nodes are added, deleted,
 * updated or skipped.
 */
module OrganizationalUnits {
  import opened Wrappers
  import opened Lists

  type PolicyName = string
  type AccountId = string
  type OrganizationalUnitId = string

  /** A policy list for each of the four policy categories. */
  datatype Policies = Policies(
    serviceControl: seq<PolicyName>,
    tag: seq<PolicyName>,
    aiServicesOptOut: seq<PolicyName>,
    backup: seq<PolicyName>)

  /** The policies currently attached, per category, by target (OU or account) id. */
  datatype CurrentPolicies = CurrentPolicies(
    serviceControl: map<string, seq<PolicyName>>,
    tag: map<string, seq<PolicyName>>,
    aiServicesOptOut: map<string, seq<PolicyName>>,
    backup: map<string, seq<PolicyName>>)

  /** A configured account: its id and its own policies. */
  datatype OrganizationAccount = OrganizationAccount(id: AccountId, policies: Policies)

  /** A configured organizational unit. */
  datatype OrganizationalUnit = OrganizationalUnit(
    path: string,
    name: string,
    priority: int,
    policies: Policies,
    accounts: seq<OrganizationAccount>,
    children: seq<OrganizationalUnit>)

  /** An organizational unit as it currently exists, with the ids of its accounts. */
  datatype DetailedOrganizationalUnit = DetailedOrganizationalUnit(
    id: OrganizationalUnitId,
    name: string,
    accountIds: seq<AccountId>,
    children: seq<DetailedOrganizationalUnit>)

  datatype Operation = Add | Delete | Update | Skip

  /** What to do with the policies of one category. */
  datatype PolicyOps = PolicyOps(add: seq<PolicyName>, retain: seq<PolicyName>, remove: seq<PolicyName>)

  datatype PlannedPolicies = PlannedPolicies(
    serviceControl: PolicyOps,
    tag: PolicyOps,
    aiServicesOptOut: PolicyOps,
    backup: PolicyOps)

  datatype PlannedAccount = PlannedAccount(operation: Operation, id: AccountId, policies: PlannedPolicies)

  datatype PlannedAccounts = PlannedAccounts(add: seq<PlannedAccount>, retain: seq<PlannedAccount>, remove: seq<PlannedAccount>)

  datatype PlannedOrganizationalUnit = PlannedOrganizationalUnit(
    path: string,
    priority: int,
    children: seq<PlannedOrganizationalUnit>,
    parentId: Option<OrganizationalUnitId>,
    id: Option<OrganizationalUnitId>,
    currentName: Option<string>,
    newName: Option<string>,
    operation: Operation,
    policies: PlannedPolicies,
    accounts: PlannedAccounts)

  datatype OrganizationalUnitsDeploymentPlan = OrganizationalUnitsDeploymentPlan(
    hasChanges: bool,
    root: PlannedOrganizationalUnit)

  // ---------------------------------------------------------------------------------------
  // Policy algebra
  // ---------------------------------------------------------------------------------------

  /** `uniq([...a, ...b])` in each category. */
  function Union(a: Policies, b: Policies): Policies {
    Policies(Uniq(a.serviceControl + b.serviceControl), Uniq(a.tag + b.tag),
             Uniq(a.aiServicesOptOut + b.aiServicesOptOut), Uniq(a.backup + b.backup))
  }

  /** Each category of the union holds the policies of either side, each once. */
  lemma UnionMembers(a: Policies, b: Policies)
    ensures var r := Union(a, b);
            (forall x :: x in r.serviceControl <==> x in a.serviceControl || x in b.serviceControl) &&
            (forall x :: x in r.tag <==> x in a.tag || x in b.tag) &&
            (forall x :: x in r.aiServicesOptOut <==> x in a.aiServicesOptOut || x in b.aiServicesOptOut) &&
            (forall x :: x in r.backup <==> x in a.backup || x in b.backup) &&
            Distinct(r.serviceControl) && Distinct(r.tag) && Distinct(r.aiServicesOptOut) && Distinct(r.backup)
  {
    UniqMembers(a.serviceControl + b.serviceControl);
    UniqMembers(a.tag + b.tag);
    UniqMembers(a.aiServicesOptOut + b.aiServicesOptOut);
    UniqMembers(a.backup + b.backup);
  }

  /** `map.get(target) || []` in each category. */
  function CurrentOf(current: CurrentPolicies, target: string): (r: Policies)
    ensures target in current.serviceControl ==> r.serviceControl == current.serviceControl[target]
    ensures target !in current.serviceControl ==> r.serviceControl == []
    ensures target in current.tag ==> r.tag == current.tag[target]
    ensures target !in current.tag ==> r.tag == []
    ensures target in current.aiServicesOptOut ==> r.aiServicesOptOut == current.aiServicesOptOut[target]
    ensures target !in current.aiServicesOptOut ==> r.aiServicesOptOut == []
    ensures target in current.backup ==> r.backup == current.backup[target]
    ensures target !in current.backup ==> r.backup == []
  {
    Policies(
      if target in current.serviceControl then current.serviceControl[target] else [],
      if target in current.tag then current.tag[target] else [],
      if target in current.aiServicesOptOut then current.aiServicesOptOut[target] else [],
      if target in current.backup then current.backup[target] else [])
  }

  /**
   * One category's three-way split: add what is desired but not attached, remove what is
   * attached but not desired, retain what is both.
   */
  function Diff(desired: seq<PolicyName>, current: seq<PolicyName>): PolicyOps {
    PolicyOps(Without(desired, current), Intersection(current, desired), Without(current, desired))
  }

  /** The three buckets partition the policies of both sides; retained ones appear once. */
  lemma DiffMembers(desired: seq<PolicyName>, current: seq<PolicyName>)
    ensures var r := Diff(desired, current);
            (forall x :: x in r.add <==> x in desired && x !in current) &&
            (forall x :: x in r.remove <==> x in current && x !in desired) &&
            (forall x :: x in r.retain <==> x in current && x in desired) &&
            Distinct(r.retain)
  {
    IntersectionMembers(current, desired);
  }

  /** The same policies are desired and attached. */
  predicate InSync(desired: seq<PolicyName>, current: seq<PolicyName>) {
    (forall x :: x in desired ==> x in current) && (forall x :: x in current ==> x in desired)
  }

  /** A category needs no change exactly when what is desired is what is attached. */
  lemma DiffEmptyIffInSync(desired: seq<PolicyName>, current: seq<PolicyName>)
    ensures Diff(desired, current).add == [] && Diff(desired, current).remove == [] <==> InSync(desired, current)
  {
    WithoutEmpty(desired, current);
    WithoutEmpty(current, desired);
  }

  function DiffPolicies(desired: Policies, current: Policies): PlannedPolicies {
    PlannedPolicies(
      Diff(desired.serviceControl, current.serviceControl),
      Diff(desired.tag, current.tag),
      Diff(desired.aiServicesOptOut, current.aiServicesOptOut),
      Diff(desired.backup, current.backup))
  }

  predicate PolicyOpsChanged(ops: PolicyOps) {
    |ops.add| > 0 || |ops.remove| > 0
  }

  /** Some category has a policy to add or to remove. */
  predicate PoliciesChanged(p: PlannedPolicies) {
    PolicyOpsChanged(p.serviceControl) || PolicyOpsChanged(p.tag) ||
    PolicyOpsChanged(p.aiServicesOptOut) || PolicyOpsChanged(p.backup)
  }

  predicate PoliciesInSync(desired: Policies, current: Policies) {
    InSync(desired.serviceControl, current.serviceControl) && InSync(desired.tag, current.tag) &&
    InSync(desired.aiServicesOptOut, current.aiServicesOptOut) && InSync(desired.backup, current.backup)
  }

  /** The diff of all four categories changes nothing exactly when every category is in sync. */
  lemma DiffPoliciesUnchangedIffInSync(desired: Policies, current: Policies)
    ensures !PoliciesChanged(DiffPolicies(desired, current)) <==> PoliciesInSync(desired, current)
  {
    DiffEmptyIffInSync(desired.serviceControl, current.serviceControl);
    DiffEmptyIffInSync(desired.tag, current.tag);
    DiffEmptyIffInSync(desired.aiServicesOptOut, current.aiServicesOptOut);
    DiffEmptyIffInSync(desired.backup, current.backup);
  }

  const NoOps: PolicyOps := PolicyOps([], [], [])
  const NoPolicyOps: PlannedPolicies := PlannedPolicies(NoOps, NoOps, NoOps, NoOps)

  /** An add plan's buckets: everything to add, nothing to retain or remove. */
  function AddAll(p: Policies): PlannedPolicies {
    PlannedPolicies(PolicyOps(p.serviceControl, [], []), PolicyOps(p.tag, [], []),
                    PolicyOps(p.aiServicesOptOut, [], []), PolicyOps(p.backup, [], []))
  }

  // ---------------------------------------------------------------------------------------
  // Accounts
  // ---------------------------------------------------------------------------------------

  /**
   * `planAccountUpdate`: the account's desired policies are the inherited ones plus its own,
   * diffed against what is attached to the account; it is updated iff something changes.
   */
  function PlanAccountUpdate(id: AccountId, localAccount: OrganizationAccount, current: CurrentPolicies,
                             inherited: Policies): (r: PlannedAccount)
    ensures r.id == id
    ensures r.policies == DiffPolicies(Union(inherited, localAccount.policies), CurrentOf(current, id))
    ensures r.operation == Update || r.operation == Skip
  {
    var policies := DiffPolicies(Union(inherited, localAccount.policies), CurrentOf(current, id));
    PlannedAccount(if PoliciesChanged(policies) then Update else Skip, id, policies)
  }

  /** An account is skipped exactly when every category of its policies is already in sync. */
  lemma PlanAccountUpdateSkipsIffInSync(id: AccountId, localAccount: OrganizationAccount, current: CurrentPolicies,
                                        inherited: Policies)
    ensures PlanAccountUpdate(id, localAccount, current, inherited).operation == Skip <==>
            PoliciesInSync(Union(inherited, localAccount.policies), CurrentOf(current, id))
  {
    DiffPoliciesUnchangedIffInSync(Union(inherited, localAccount.policies), CurrentOf(current, id));
  }

  /** An account leaving its organizational unit: skipped, with no policy work. */
  function SkipAccount(id: AccountId): PlannedAccount {
    PlannedAccount(Skip, id, NoPolicyOps)
  }

  function LocalAccountIds(accounts: seq<OrganizationAccount>): (r: seq<AccountId>)
    ensures |r| == |accounts|
    ensures forall i {:trigger r[i]} :: 0 <= i < |r| ==> r[i] == accounts[i].id
  {
    if accounts == [] then [] else [accounts[0].id] + LocalAccountIds(accounts[1..])
  }

  function PlannedAccountIds(accounts: seq<PlannedAccount>): (r: seq<AccountId>)
    ensures |r| == |accounts|
    ensures forall i {:trigger r[i]} :: 0 <= i < |r| ==> r[i] == accounts[i].id
  {
    if accounts == [] then [] else [accounts[0].id] + PlannedAccountIds(accounts[1..])
  }

  /** `a` is the plan of the configured account with its id, made with the inherited sets. */
  predicate IsAccountPlan(a: PlannedAccount, localAccounts: seq<OrganizationAccount>, current: CurrentPolicies,
                          inherited: Policies) {
    a.id in LocalAccountIds(localAccounts) &&
    a == PlanAccountUpdate(a.id, FindLocalAccount(localAccounts, a.id), current, inherited)
  }

  /** `accounts.find(a => a.id === id)!`: the first configured account with that id. */
  function FindLocalAccount(accounts: seq<OrganizationAccount>, id: AccountId): (r: OrganizationAccount)
    requires id in LocalAccountIds(accounts)
    ensures r in accounts && r.id == id
  {
    if accounts[0].id == id then accounts[0]
    else
      assert LocalAccountIds(accounts[1..]) == LocalAccountIds(accounts)[1..];
      FindLocalAccount(accounts[1..], id)
  }

  /** Every account of the configured tree exists in the organization (`currentAccounts.find(...)!`). */
  predicate AccountsKnown(ou: OrganizationalUnit, currentAccounts: seq<AccountId>) {
    (forall a :: a in ou.accounts ==> a.id in currentAccounts) &&
    (forall i :: 0 <= i < |ou.children| ==> AccountsKnown(ou.children[i], currentAccounts))
  }

  /** The added or retained accounts of an update plan, each planned from its configuration. */
  function PlanAccounts(ids: seq<AccountId>, localAccounts: seq<OrganizationAccount>, current: CurrentPolicies,
                        inherited: Policies): (r: seq<PlannedAccount>)
    requires forall id :: id in ids ==> id in LocalAccountIds(localAccounts)
    ensures PlannedAccountIds(r) == ids
    ensures forall a :: a in r ==> IsAccountPlan(a, localAccounts, current, inherited)
  {
    var r := seq(|ids|, i requires 0 <= i < |ids| =>
                   PlanAccountUpdate(ids[i], FindLocalAccount(localAccounts, ids[i]), current, inherited));
    assert forall i :: 0 <= i < |r| ==> r[i].id == ids[i];
    r
  }

  function SkipAccounts(ids: seq<AccountId>): (r: seq<PlannedAccount>)
    ensures PlannedAccountIds(r) == ids
    ensures forall i {:trigger r[i]} :: 0 <= i < |r| ==> r[i] == SkipAccount(ids[i])
  {
    if ids == [] then [] else [SkipAccount(ids[0])] + SkipAccounts(ids[1..])
  }

  /** The add plan's accounts: every configured account, planned with the inherited sets. */
  function PlanLocalAccounts(accounts: seq<OrganizationAccount>, current: CurrentPolicies, inherited: Policies)
    : (r: seq<PlannedAccount>)
    ensures PlannedAccountIds(r) == LocalAccountIds(accounts)
    ensures forall i {:trigger r[i]} :: 0 <= i < |r| ==> r[i] == PlanAccountUpdate(accounts[i].id, accounts[i], current, inherited)
  {
    if accounts == [] then []
    else [PlanAccountUpdate(accounts[0].id, accounts[0], current, inherited)] +
         PlanLocalAccounts(accounts[1..], current, inherited)
  }

  /** Some planned account is updated. */
  predicate SomeAccountUpdated(accounts: seq<PlannedAccount>) {
    exists a :: a in accounts && a.operation == Update
  }

  /**
   * `accountsChanged`: the id lists differ in length or in sorted content, or some planned
   * account is updated. The sorted, comma-joined comparison is equality of the id multisets.
   */
  predicate AccountsChanged(currentIds: seq<AccountId>, localIds: seq<AccountId>, accounts: PlannedAccounts) {
    |currentIds| != |localIds| || multiset(currentIds) != multiset(localIds) ||
    SomeAccountUpdated(accounts.add + accounts.remove + accounts.retain)
  }

  // ---------------------------------------------------------------------------------------
  // Children ordering and lookup
  // ---------------------------------------------------------------------------------------

  predicate PriorityLess(a: OrganizationalUnit, b: OrganizationalUnit) {
    a.priority < b.priority
  }

  /** `children.slice().sort((a, b) => a.priority - b.priority)`. */
  function ByPriority(children: seq<OrganizationalUnit>): (r: seq<OrganizationalUnit>)
    ensures |r| == |children| && multiset(r) == multiset(children)
    ensures forall c :: c in r ==> c in children
  {
    var r := Sort(children, PriorityLess);
    assert forall c :: c in r ==> c in multiset(children);
    r
  }

  /** The children are planned in ascending priority. */
  lemma ByPrioritySorted(children: seq<OrganizationalUnit>)
    ensures forall i, j :: 0 <= i < j < |ByPriority(children)| ==>
              ByPriority(children)[i].priority <= ByPriority(children)[j].priority
  {
    SortSorted(children, PriorityLess);
  }

  /** `children.find(c => c.ou.Name === name) || null`. */
  function FindCurrentChild(children: seq<DetailedOrganizationalUnit>, name: string): (r: Option<DetailedOrganizationalUnit>)
    ensures r.None? <==> forall c :: c in children ==> c.name != name
    ensures r.Some? ==> r.value in children && r.value.name == name
  {
    if children == [] then None
    else if children[0].name == name then Some(children[0])
    else FindCurrentChild(children[1..], name)
  }

  /** A current child that no configured child names. */
  predicate NotConfigured(local: seq<OrganizationalUnit>, c: DetailedOrganizationalUnit) {
    forall l :: l in local ==> l.name != c.name
  }

  // ---------------------------------------------------------------------------------------
  // Plans
  // ---------------------------------------------------------------------------------------

  /** `planOrganizationalUnitDelete`: the unit, its accounts and all its descendants go. */
  function PlanDelete(path: string, current: DetailedOrganizationalUnit, parentId: Option<OrganizationalUnitId>)
    : (r: PlannedOrganizationalUnit)
    decreases current, 1
    ensures r.operation == Delete && r.priority == 0 && r.newName.None? && r.path == path && r.parentId == parentId
    ensures r.id == Some(current.id) && r.currentName == Some(current.name)
    ensures r.policies == NoPolicyOps
    ensures r.accounts.add == [] && r.accounts.retain == []
    ensures PlannedAccountIds(r.accounts.remove) == current.accountIds
    ensures forall a :: a in r.accounts.remove ==> a == SkipAccount(a.id)
    ensures |r.children| == |current.children|
  {
    var children := PlanDeleteChildren(path, current, current.children);
    PlannedOrganizationalUnit(path, 0, children, parentId, Some(current.id), Some(current.name), None, Delete,
                              NoPolicyOps, PlannedAccounts([], [], SkipAccounts(current.accountIds)))
  }

  /** The delete plans of `children`, all current children of `parent`, with nothing inherited. */
  function PlanDeleteChildren(path: string, parent: DetailedOrganizationalUnit, children: seq<DetailedOrganizationalUnit>)
    : (r: seq<PlannedOrganizationalUnit>)
    requires forall c :: c in children ==> c in parent.children
    decreases parent, 0, |children|
    ensures |r| == |children|
  {
    if children == [] then []
    else
      assert children[0] in parent.children;
      [PlanDelete(path + "/" + children[0].name, children[0], Some(parent.id))] +
      PlanDeleteChildren(path, parent, children[1..])
  }

  lemma {:induction false} PlanDeleteChildrenAt(path: string, parent: DetailedOrganizationalUnit,
                                                children: seq<DetailedOrganizationalUnit>, i: nat)
    requires forall c :: c in children ==> c in parent.children
    requires i < |children|
    ensures PlanDeleteChildren(path, parent, children)[i] ==
            PlanDelete(path + "/" + children[i].name, children[i], Some(parent.id))
  {
    hide PlanDelete;
    if i > 0 {
      PlanDeleteChildrenAt(path, parent, children[1..], i - 1);
    }
  }

  /** The `i`-th child of a delete plan is the delete plan of the `i`-th current child. */
  lemma PlanDeleteChild(path: string, current: DetailedOrganizationalUnit, parentId: Option<OrganizationalUnitId>, i: nat)
    requires i < |current.children|
    ensures PlanDelete(path, current, parentId).children[i] ==
            PlanDelete(path + "/" + current.children[i].name, current.children[i], Some(current.id))
  {
    PlanDeleteChildrenAt(path, current, current.children, i);
  }

  /**
   * `planOrganizationalUnitAdd`: the unit is created with its own and inherited policies and
   * its configured accounts; its children, by priority, are added too and inherit the
   * inherited policies plus the unit's own.
   */
  function PlanAdd(local: OrganizationalUnit, currentAccounts: seq<AccountId>, current: CurrentPolicies,
                   parentId: Option<OrganizationalUnitId>, inherited: Policies): (r: PlannedOrganizationalUnit)
    requires AccountsKnown(local, currentAccounts)
    decreases local, 1
    ensures r.operation == Add && r.id.None? && r.currentName.None? && r.newName == Some(local.name)
    ensures r.path == local.path && r.priority == local.priority && r.parentId == parentId
    ensures r.policies == AddAll(Union(local.policies, inherited))
    ensures r.accounts.retain == [] && r.accounts.remove == []
    ensures PlannedAccountIds(r.accounts.add) == LocalAccountIds(local.accounts)
    ensures |r.children| == |local.children|
  {
    var children := PlanAddChildren(local, ByPriority(local.children), currentAccounts, current, Union(inherited, local.policies));
    PlannedOrganizationalUnit(local.path, local.priority, children, parentId, None, None, Some(local.name), Add,
                              AddAll(Union(local.policies, inherited)),
                              PlannedAccounts(PlanLocalAccounts(local.accounts, current, inherited), [], []))
  }

  function PlanAddChildren(parent: OrganizationalUnit, children: seq<OrganizationalUnit>, currentAccounts: seq<AccountId>,
                           current: CurrentPolicies, inherited: Policies): (r: seq<PlannedOrganizationalUnit>)
    requires forall c :: c in children ==> c in parent.children
    requires AccountsKnown(parent, currentAccounts)
    decreases parent, 0, |children|
    ensures |r| == |children|
  {
    if children == [] then []
    else
      var c := children[0];
      assert c in parent.children;
      ChildAccountsKnown(parent, c, currentAccounts);
      [PlanAdd(c, currentAccounts, current, None, inherited)] +
      PlanAddChildren(parent, children[1..], currentAccounts, current, inherited)
  }

  lemma ChildAccountsKnown(parent: OrganizationalUnit, c: OrganizationalUnit, currentAccounts: seq<AccountId>)
    requires AccountsKnown(parent, currentAccounts) && c in parent.children
    ensures AccountsKnown(c, currentAccounts)
  {
    var k :| 0 <= k < |parent.children| && parent.children[k] == c;
  }

  lemma {:induction false} PlanAddChildrenAt(parent: OrganizationalUnit, children: seq<OrganizationalUnit>,
                                             currentAccounts: seq<AccountId>, current: CurrentPolicies,
                                             inherited: Policies, i: nat)
    requires forall c :: c in children ==> c in parent.children
    requires AccountsKnown(parent, currentAccounts)
    requires i < |children|
    ensures AccountsKnown(children[i], currentAccounts)
    ensures PlanAddChildren(parent, children, currentAccounts, current, inherited)[i] ==
            PlanAdd(children[i], currentAccounts, current, None, inherited)
  {
    hide PlanAdd;
    ChildAccountsKnown(parent, children[i], currentAccounts);
    if i > 0 {
      PlanAddChildrenAt(parent, children[1..], currentAccounts, current, inherited, i - 1);
    }
  }

  /**
   * The `i`-th child of an add plan is the add plan, with no parent id, of the `i`-th child by
   * priority, which inherits the unit's inherited policies plus its own.
   */
  lemma PlanAddChild(local: OrganizationalUnit, currentAccounts: seq<AccountId>, current: CurrentPolicies,
                     parentId: Option<OrganizationalUnitId>, inherited: Policies, i: nat)
    requires AccountsKnown(local, currentAccounts)
    requires i < |local.children|
    ensures AccountsKnown(ByPriority(local.children)[i], currentAccounts)
    ensures PlanAdd(local, currentAccounts, current, parentId, inherited).children[i] ==
            PlanAdd(ByPriority(local.children)[i], currentAccounts, current, None, Union(inherited, local.policies))
  {
    PlanAddChildrenAt(local, ByPriority(local.children), currentAccounts, current, Union(inherited, local.policies), i);
  }

  /** The `i`-th account of an add plan is the `i`-th configured account, planned with the inherited sets. */
  lemma PlanAddAccount(local: OrganizationalUnit, currentAccounts: seq<AccountId>, current: CurrentPolicies,
                       parentId: Option<OrganizationalUnitId>, inherited: Policies, i: nat)
    requires AccountsKnown(local, currentAccounts)
    requires i < |local.accounts|
    ensures PlanAdd(local, currentAccounts, current, parentId, inherited).accounts.add[i] ==
            PlanAccountUpdate(local.accounts[i].id, local.accounts[i], current, inherited)
  {
  }

  /**
   * `planOrganizationalUnitUpdate`: policies and account ids are diffed against the current
   * unit; configured children, by priority, are updated when a current child has their name
   * and added otherwise; current children no configured child names are deleted after them.
   */
  function PlanUpdate(local: OrganizationalUnit, currentOu: DetailedOrganizationalUnit, currentAccounts: seq<AccountId>,
                      current: CurrentPolicies, parentId: Option<OrganizationalUnitId>, inherited: Policies)
    : (r: PlannedOrganizationalUnit)
    requires AccountsKnown(local, currentAccounts)
    decreases local, 1
    ensures r.operation == Update || r.operation == Skip
    ensures r.id == Some(currentOu.id) && r.currentName == Some(currentOu.name) && r.newName == Some(local.name)
    ensures r.path == local.path && r.priority == local.priority && r.parentId == parentId
    ensures r.policies == DiffPolicies(Union(inherited, local.policies), CurrentOf(current, currentOu.id))
    ensures r.accounts == PlanUpdateAccounts(local.accounts, currentOu.accountIds, current, inherited)
    ensures r.operation == Update <==>
              local.name != currentOu.name || PoliciesChanged(r.policies) ||
              AccountsChanged(currentOu.accountIds, LocalAccountIds(local.accounts), r.accounts)
    ensures |r.children| == |local.children| + |DeletedChildren(local, currentOu)|
  {
    hide PlanUpdateChildren, PlanDeleteChildren, PlanUpdateAccounts, DiffPolicies, DeletedChildren, ByPriority;
    var localIds := LocalAccountIds(local.accounts);
    var desired := Union(inherited, local.policies);
    var policies := DiffPolicies(desired, CurrentOf(current, currentOu.id));
    var accounts := PlanUpdateAccounts(local.accounts, currentOu.accountIds, current, inherited);
    var children := PlanUpdateChildren(local, currentOu, ByPriority(local.children), currentAccounts, current, desired);
    var deletedChildren := PlanDeleteChildren(local.path, currentOu, DeletedChildren(local, currentOu));
    var changed := local.name != currentOu.name || PoliciesChanged(policies) ||
                   AccountsChanged(currentOu.accountIds, localIds, accounts);
    PlannedOrganizationalUnit(local.path, local.priority, children + deletedChildren, parentId, Some(currentOu.id),
                              Some(currentOu.name), Some(local.name), if changed then Update else Skip,
                              policies, accounts)
  }

  /**
   * The accounts of an updated unit: configured accounts not yet in the unit are added and
   * those already in it retained, each planned with the inherited sets; accounts in the unit
   * that are not configured are removed, skipped.
   */
  function PlanUpdateAccounts(localAccounts: seq<OrganizationAccount>, currentIds: seq<AccountId>,
                              current: CurrentPolicies, inherited: Policies): (r: PlannedAccounts)
    ensures PlannedAccountIds(r.add) == Without(LocalAccountIds(localAccounts), currentIds)
    ensures PlannedAccountIds(r.remove) == Without(currentIds, LocalAccountIds(localAccounts))
    ensures PlannedAccountIds(r.retain) == Intersection(currentIds, LocalAccountIds(localAccounts))
    ensures forall a :: a in r.remove ==> a == SkipAccount(a.id)
    ensures forall a :: a in r.add + r.retain ==> IsAccountPlan(a, localAccounts, current, inherited)
  {
    var localIds := LocalAccountIds(localAccounts);
    IntersectionMembers(currentIds, localIds);
    PlannedAccounts(PlanAccounts(Without(localIds, currentIds), localAccounts, current, inherited),
                    PlanAccounts(Intersection(currentIds, localIds), localAccounts, current, inherited),
                    SkipAccounts(Without(currentIds, localIds)))
  }

  /** The current children that no configured child names, in their current order. */
  function DeletedChildren(local: OrganizationalUnit, currentOu: DetailedOrganizationalUnit)
    : (r: seq<DetailedOrganizationalUnit>)
    ensures forall c :: c in r <==> c in currentOu.children && NotConfigured(local.children, c)
  {
    Filter(currentOu.children, c => NotConfigured(local.children, c))
  }

  /** The plan of a configured child of an updated unit: an update when a current child has its name, else an add. */
  function PlanUpdateChild(c: OrganizationalUnit, currentOu: DetailedOrganizationalUnit, currentAccounts: seq<AccountId>,
                           current: CurrentPolicies, inherited: Policies): (r: PlannedOrganizationalUnit)
    requires AccountsKnown(c, currentAccounts)
    decreases c, 2
    ensures r.operation == Add <==> forall cc :: cc in currentOu.children ==> cc.name != c.name
  {
    hide PlanUpdate, PlanAdd;
    match FindCurrentChild(currentOu.children, c.name)
    case Some(cc) => PlanUpdate(c, cc, currentAccounts, current, Some(currentOu.id), inherited)
    case None => PlanAdd(c, currentAccounts, current, Some(currentOu.id), inherited)
  }

  function PlanUpdateChildren(parent: OrganizationalUnit, currentOu: DetailedOrganizationalUnit,
                              children: seq<OrganizationalUnit>, currentAccounts: seq<AccountId>,
                              current: CurrentPolicies, inherited: Policies): (r: seq<PlannedOrganizationalUnit>)
    requires forall c :: c in children ==> c in parent.children
    requires AccountsKnown(parent, currentAccounts)
    decreases parent, 0, |children|
    ensures |r| == |children|
  {
    if children == [] then []
    else
      var c := children[0];
      assert c in parent.children;
      ChildAccountsKnown(parent, c, currentAccounts);
      [PlanUpdateChild(c, currentOu, currentAccounts, current, inherited)] +
      PlanUpdateChildren(parent, currentOu, children[1..], currentAccounts, current, inherited)
  }

  lemma {:induction false} PlanUpdateChildrenAt(parent: OrganizationalUnit, currentOu: DetailedOrganizationalUnit,
                                                children: seq<OrganizationalUnit>, currentAccounts: seq<AccountId>,
                                                current: CurrentPolicies, inherited: Policies, i: nat)
    requires forall c :: c in children ==> c in parent.children
    requires AccountsKnown(parent, currentAccounts)
    requires i < |children|
    ensures AccountsKnown(children[i], currentAccounts)
    ensures PlanUpdateChildren(parent, currentOu, children, currentAccounts, current, inherited)[i] ==
            PlanUpdateChild(children[i], currentOu, currentAccounts, current, inherited)
  {
    hide PlanUpdateChild;
    ChildAccountsKnown(parent, children[i], currentAccounts);
    if i > 0 {
      PlanUpdateChildrenAt(parent, currentOu, children[1..], currentAccounts, current, inherited, i - 1);
    }
  }

  /**
   * The children of an update plan: first the configured children by priority, each updated
   * against the current child of its name or added, inheriting the unit's desired policies;
   * then the current children no configured child names, deleted.
   */
  lemma PlanUpdateChildAt(local: OrganizationalUnit, currentOu: DetailedOrganizationalUnit, currentAccounts: seq<AccountId>,
                          current: CurrentPolicies, parentId: Option<OrganizationalUnitId>, inherited: Policies, i: nat)
    requires AccountsKnown(local, currentAccounts)
    requires i < |local.children| + |DeletedChildren(local, currentOu)|
    ensures i < |local.children| ==>
              AccountsKnown(ByPriority(local.children)[i], currentAccounts) &&
              PlanUpdate(local, currentOu, currentAccounts, current, parentId, inherited).children[i] ==
              PlanUpdateChild(ByPriority(local.children)[i], currentOu, currentAccounts, current,
                              Union(inherited, local.policies))
    ensures i >= |local.children| ==>
              var d := DeletedChildren(local, currentOu)[i - |local.children|];
              PlanUpdate(local, currentOu, currentAccounts, current, parentId, inherited).children[i] ==
              PlanDelete(local.path + "/" + d.name, d, Some(currentOu.id))
  {
    var desired := Union(inherited, local.policies);
    PlanUpdateChildrenSplit(local, currentOu, currentAccounts, current, parentId, inherited);
    hide PlanUpdate, PlanUpdateChild, PlanDelete, PlanUpdateChildren, PlanDeleteChildren;
    if i < |local.children| {
      PlanUpdateChildrenAt(local, currentOu, ByPriority(local.children), currentAccounts, current, desired, i);
    } else {
      PlanDeleteChildrenAt(local.path, currentOu, DeletedChildren(local, currentOu), i - |local.children|);
    }
  }

  lemma PlanUpdateChildrenSplit(local: OrganizationalUnit, currentOu: DetailedOrganizationalUnit,
                                currentAccounts: seq<AccountId>, current: CurrentPolicies,
                                parentId: Option<OrganizationalUnitId>, inherited: Policies)
    requires AccountsKnown(local, currentAccounts)
    ensures PlanUpdate(local, currentOu, currentAccounts, current, parentId, inherited).children ==
            PlanUpdateChildren(local, currentOu, ByPriority(local.children), currentAccounts, current,
                               Union(inherited, local.policies)) +
            PlanDeleteChildren(local.path, currentOu, DeletedChildren(local, currentOu))
  {
  }

  /**
   * `createOrganizationalUnitsDeploymentPlan`: dispatch on which of the configured and the
   * current unit exist.
   */
  function CreatePlan(path: string, local: Option<OrganizationalUnit>, currentOu: Option<DetailedOrganizationalUnit>,
                      currentAccounts: seq<AccountId>, current: CurrentPolicies, parentId: Option<OrganizationalUnitId>,
                      inherited: Policies): (r: Result<PlannedOrganizationalUnit, string>)
    requires local.Some? ==> AccountsKnown(local.value, currentAccounts)
    ensures r.Err? <==> local.None? && currentOu.None?
    ensures r.Err? ==> r.error == "Assertion error"
    ensures local.None? && currentOu.Some? ==> r == Ok(PlanDelete(path, currentOu.value, parentId))
    ensures local.Some? && currentOu.None? ==> r == Ok(PlanAdd(local.value, currentAccounts, current, parentId, inherited))
    ensures local.Some? && currentOu.Some? ==>
              r == Ok(PlanUpdate(local.value, currentOu.value, currentAccounts, current, parentId, inherited))
    ensures r.Ok? ==> (r.value.operation == Delete <==> local.None?) && (r.value.operation == Add <==> currentOu.None?)
  {
    hide PlanDelete, PlanAdd, PlanUpdate;
    match (local, currentOu)
    case (None, Some(c)) => Ok(PlanDelete(path, c, parentId))
    case (Some(l), None) => Ok(PlanAdd(l, currentAccounts, current, parentId, inherited))
    case (Some(l), Some(c)) => Ok(PlanUpdate(l, c, currentAccounts, current, parentId, inherited))
    case (None, None) => Err("Assertion error")
  }

  // ---------------------------------------------------------------------------------------
  // Changes
  // ---------------------------------------------------------------------------------------

  /** `hasChanges`: the node is not skipped, or some child has changes. */
  predicate HasChanges(ou: PlannedOrganizationalUnit)
    decreases ou, 1
  {
    ou.operation != Skip || AnyHasChanges(ou, ou.children)
  }

  predicate AnyHasChanges(parent: PlannedOrganizationalUnit, children: seq<PlannedOrganizationalUnit>)
    requires forall c :: c in children ==> c in parent.children
    decreases parent, 0, |children|
  {
    children != [] && (assert children[0] in parent.children; HasChanges(children[0]) || AnyHasChanges(parent, children[1..]))
  }

  /** The planned tree's nodes in pre-order. */
  function Nodes(ou: PlannedOrganizationalUnit): (r: seq<PlannedOrganizationalUnit>)
    decreases ou
    ensures |r| > 0 && r[0] == ou
  {
    [ou] + NodesOf(ou.children)
  }

  function NodesOf(children: seq<PlannedOrganizationalUnit>): seq<PlannedOrganizationalUnit>
    decreases children
  {
    if children == [] then [] else Nodes(children[0]) + NodesOf(children[1..])
  }

  /** Some node of the tree is added, deleted or updated. */
  predicate SomeNodeChanges(nodes: seq<PlannedOrganizationalUnit>) {
    exists n :: n in nodes && n.operation != Skip
  }

  /** `hasChanges` holds exactly when some node of the planned tree is not skipped. */
  lemma {:induction false} HasChangesIffSomeNodeChanges(ou: PlannedOrganizationalUnit)
    decreases ou, 1
    ensures HasChanges(ou) <==> SomeNodeChanges(Nodes(ou))
  {
    AnyHasChangesIffSomeNodeChanges(ou, ou.children);
    var nodes := Nodes(ou);
    assert nodes == [ou] + NodesOf(ou.children);
    if SomeNodeChanges(NodesOf(ou.children)) {
      var n :| n in NodesOf(ou.children) && n.operation != Skip;
      assert n in nodes;
    }
    if SomeNodeChanges(nodes) && ou.operation == Skip {
      var n :| n in nodes && n.operation != Skip;
      assert n in NodesOf(ou.children);
    }
  }

  lemma {:induction false} AnyHasChangesIffSomeNodeChanges(parent: PlannedOrganizationalUnit, children: seq<PlannedOrganizationalUnit>)
    requires forall c :: c in children ==> c in parent.children
    decreases parent, 0, |children|
    ensures AnyHasChanges(parent, children) <==> SomeNodeChanges(NodesOf(children))
  {
    if children != [] {
      assert children[0] in parent.children;
      HasChangesIffSomeNodeChanges(children[0]);
      AnyHasChangesIffSomeNodeChanges(parent, children[1..]);
      var nodes := NodesOf(children);
      assert nodes == Nodes(children[0]) + NodesOf(children[1..]);
      if SomeNodeChanges(Nodes(children[0])) {
        var n :| n in Nodes(children[0]) && n.operation != Skip;
        assert n in nodes;
      }
      if SomeNodeChanges(NodesOf(children[1..])) {
        var n :| n in NodesOf(children[1..]) && n.operation != Skip;
        assert n in nodes;
      }
    }
  }

  /** A node of the trees under `children` lies in the tree of one of them. */
  lemma {:induction false} NodesOfMember(children: seq<PlannedOrganizationalUnit>, n: PlannedOrganizationalUnit)
    requires n in NodesOf(children)
    decreases children
    ensures exists k :: 0 <= k < |children| && n in Nodes(children[k])
  {
    if n !in Nodes(children[0]) {
      NodesOfMember(children[1..], n);
      var k :| 0 <= k < |children[1..]| && n in Nodes(children[1..][k]);
      assert n in Nodes(children[k + 1]);
    }
  }

  /** Every node of a delete plan, down to the leaves, is deleted. */
  lemma {:induction false} DeletePlanAllDelete(path: string, current: DetailedOrganizationalUnit,
                                               parentId: Option<OrganizationalUnitId>)
    decreases current
    ensures forall n :: n in Nodes(PlanDelete(path, current, parentId)) ==> n.operation == Delete
  {
    var r := PlanDelete(path, current, parentId);
    forall n | n in Nodes(r) ensures n.operation == Delete {
      if n != r {
        NodesOfMember(r.children, n);
        var k :| 0 <= k < |r.children| && n in Nodes(r.children[k]);
        PlanDeleteChild(path, current, parentId, k);
        DeletePlanAllDelete(path + "/" + current.children[k].name, current.children[k], Some(current.id));
      }
    }
  }

  /** Every node of an add plan, down to the leaves, is added. */
  lemma {:induction false} AddPlanAllAdd(local: OrganizationalUnit, currentAccounts: seq<AccountId>,
                                         current: CurrentPolicies, parentId: Option<OrganizationalUnitId>,
                                         inherited: Policies)
    requires AccountsKnown(local, currentAccounts)
    decreases local
    ensures forall n :: n in Nodes(PlanAdd(local, currentAccounts, current, parentId, inherited)) ==> n.operation == Add
  {
    var r := PlanAdd(local, currentAccounts, current, parentId, inherited);
    forall n | n in Nodes(r) ensures n.operation == Add {
      if n != r {
        NodesOfMember(r.children, n);
        var k :| 0 <= k < |r.children| && n in Nodes(r.children[k]);
        PlanAddChild(local, currentAccounts, current, parentId, inherited, k);
        var c := ByPriority(local.children)[k];
        assert c in local.children;
        AddPlanAllAdd(c, currentAccounts, current, None, Union(inherited, local.policies));
      }
    }
  }

  /** A unit that is added or deleted always makes the plan one with changes. */
  lemma AddOrDeleteHasChanges(ou: PlannedOrganizationalUnit)
    requires ou.operation == Add || ou.operation == Delete
    ensures HasChanges(ou)
  {
  }

  /** A skipped unit moves no accounts in or out, changes no policy and updates no account. */
  lemma SkippedUpdateMovesNothing(local: OrganizationalUnit, currentOu: DetailedOrganizationalUnit,
                                  currentAccounts: seq<AccountId>, current: CurrentPolicies,
                                  parentId: Option<OrganizationalUnitId>, inherited: Policies)
    requires AccountsKnown(local, currentAccounts)
    requires PlanUpdate(local, currentOu, currentAccounts, current, parentId, inherited).operation == Skip
    ensures var r := PlanUpdate(local, currentOu, currentAccounts, current, parentId, inherited);
            r.accounts.add == [] && r.accounts.remove == [] && local.name == currentOu.name &&
            PoliciesInSync(Union(inherited, local.policies), CurrentOf(current, currentOu.id)) &&
            forall a :: a in r.accounts.retain ==> a.operation == Skip
  {
    var r := PlanUpdate(local, currentOu, currentAccounts, current, parentId, inherited);
    hide PlanUpdate;
    UnchangedAccountsMoveNothing(local.accounts, currentOu.accountIds, current, inherited);
    DiffPoliciesUnchangedIffInSync(Union(inherited, local.policies), CurrentOf(current, currentOu.id));
  }

  /**
   * When the unit's account ids equal the configured ones (as multisets) and no planned
   * account is updated, nothing is added or removed and every retained account is skipped.
   */
  lemma UnchangedAccountsMoveNothing(localAccounts: seq<OrganizationAccount>, currentIds: seq<AccountId>,
                                     current: CurrentPolicies, inherited: Policies)
    requires !AccountsChanged(currentIds, LocalAccountIds(localAccounts),
                              PlanUpdateAccounts(localAccounts, currentIds, current, inherited))
    ensures var r := PlanUpdateAccounts(localAccounts, currentIds, current, inherited);
            r.add == [] && r.remove == [] && forall a :: a in r.retain ==> a.operation == Skip
  {
    var r := PlanUpdateAccounts(localAccounts, currentIds, current, inherited);
    var localIds := LocalAccountIds(localAccounts);
    hide PlanUpdateAccounts, Without, Intersection, PlanAccountUpdate, FindLocalAccount;
    assert multiset(currentIds) == multiset(localIds);
    forall x | x in localIds ensures x in currentIds {
      assert x in multiset(localIds);
    }
    forall x | x in currentIds ensures x in localIds {
      assert x in multiset(currentIds);
    }
    WithoutEmpty(localIds, currentIds);
    WithoutEmpty(currentIds, localIds);
    assert |PlannedAccountIds(r.add)| == 0;
    assert |PlannedAccountIds(r.remove)| == 0;
    forall a | a in r.retain ensures a.operation == Skip {
      assert a in r.add + r.remove + r.retain;
    }
  }

  /**
   * Accounts are planned with the unit's inherited policies, not with the unit's own: a
   * service control policy that is neither inherited nor configured on the account itself is
   * never added to an account of the unit.
   */
  lemma AccountsIgnoreUnitPolicies(localAccounts: seq<OrganizationAccount>, currentIds: seq<AccountId>,
                                   current: CurrentPolicies, inherited: Policies, policy: PolicyName)
    requires policy !in inherited.serviceControl
    requires forall a :: a in localAccounts ==> policy !in a.policies.serviceControl
    ensures forall a :: a in PlanUpdateAccounts(localAccounts, currentIds, current, inherited).add ==>
              policy !in a.policies.serviceControl.add
  {
    var r := PlanUpdateAccounts(localAccounts, currentIds, current, inherited);
    forall a | a in r.add ensures policy !in a.policies.serviceControl.add {
      assert a in r.add + r.retain;
      var la := FindLocalAccount(localAccounts, a.id);
      UnionMembers(inherited, la.policies);
    }
  }

  /**
   * `planOrganizationUnitsDeployment`: the plan of the configured root against the current
   * root, with no parent and nothing inherited, and whether any node of it changes.
   */
  function PlanOrganizationalUnitsDeployment(root: OrganizationalUnit, currentRoot: DetailedOrganizationalUnit,
                                             currentAccounts: seq<AccountId>, current: CurrentPolicies)
    : (r: OrganizationalUnitsDeploymentPlan)
    requires AccountsKnown(root, currentAccounts)
    ensures Ok(r.root) == CreatePlan("Root", Some(root), Some(currentRoot), currentAccounts, current, None,
                                     Policies([], [], [], []))
    ensures r.hasChanges <==> SomeNodeChanges(Nodes(r.root))
  {
    hide PlanUpdate, HasChanges, Nodes;
    var plan := PlanUpdate(root, currentRoot, currentAccounts, current, None, Policies([], [], [], []));
    HasChangesIffSomeNodeChanges(plan);
    OrganizationalUnitsDeploymentPlan(HasChanges(plan), plan)
  }
}
