/**
 * Planning a deployment-targets operation: validate the requested deployment groups, collect
 * the groups to launch from the hierarchy (siblings by priority, then name), de-duplicate them
 * by path, keep the targets that are active, have config sets of the requested type and pass
 * the target filter, and skip the operation when no group is left.
 */
module DeploymentPlan {
  import opened Wrappers
  import opened Lists

  type GroupPath = string
  type TargetName = string

  datatype Status = Active | Disabled

  datatype DeploymentTarget = DeploymentTarget(
    name: TargetName,
    status: Status,
    configSets: seq<string>,
    bootstrapConfigSets: seq<string>)

  datatype DeploymentGroup = DeploymentGroup(
    path: GroupPath,
    name: string,
    priority: int,
    status: Status,
    targets: seq<DeploymentTarget>,
    children: seq<DeploymentGroup>)

  /** The deployment groups of the configuration: the roots, and every group by its path. */
  datatype Context = Context(rootDeploymentGroups: seq<DeploymentGroup>, deploymentGroups: map<GroupPath, DeploymentGroup>)

  /** The command's input: requested group paths, target names and the config-set type. */
  datatype PlanInput = PlanInput(groups: seq<GroupPath>, targets: seq<TargetName>, configSetType: string)

  datatype Plan = Plan(groups: seq<DeploymentGroup>, hasChanges: bool)

  /** Either nothing is deployed and the operation ends as skipped, or the plan goes to confirmation. */
  datatype PlanOutcome =
    | Skipped(success: bool, status: string, message: string)
    | Confirm(plan: Plan)

  const StandardConfigSetType: string := "standard"
  const BootstrapConfigSetType: string := "bootstrap"

  // ---------------------------------------------------------------------------------------
  // Validation and the launch set
  // ---------------------------------------------------------------------------------------

  /** The first requested path that names no deployment group. */
  function FirstUnknownGroup(ctx: Context, groups: seq<GroupPath>): (r: Option<GroupPath>)
    ensures r.None? <==> forall p :: p in groups ==> p in ctx.deploymentGroups
    ensures r.Some? ==> r.value in groups && r.value !in ctx.deploymentGroups
  {
    if groups == [] then None
    else if groups[0] !in ctx.deploymentGroups then Some(groups[0])
    else FirstUnknownGroup(ctx, groups[1..])
  }

  /** The reported path is the first unknown one: every path before it is known. */
  lemma {:induction false} FirstUnknownGroupIsFirst(ctx: Context, groups: seq<GroupPath>, i: nat)
    requires i < |groups| && groups[i] !in ctx.deploymentGroups
    requires forall j :: 0 <= j < i ==> groups[j] in ctx.deploymentGroups
    ensures FirstUnknownGroup(ctx, groups) == Some(groups[i])
  {
    if i > 0 {
      FirstUnknownGroupIsFirst(ctx, groups[1..], i - 1);
    }
  }

  function GroupNotFoundMessage(path: GroupPath): string {
    "Deployment group '" + path + "' not found"
  }

  /** The requested groups in the given order, or the root groups when none is requested. */
  function GroupsToLaunchFrom(ctx: Context, groups: seq<GroupPath>): (r: seq<DeploymentGroup>)
    requires forall p :: p in groups ==> p in ctx.deploymentGroups
    ensures groups == [] ==> r == ctx.rootDeploymentGroups
    ensures groups != [] ==> |r| == |groups|
    ensures groups != [] ==> forall i :: 0 <= i < |r| ==> r[i] == ctx.deploymentGroups[groups[i]]
  {
    if groups == [] then ctx.rootDeploymentGroups else Lookup(ctx, groups)
  }

  function Lookup(ctx: Context, groups: seq<GroupPath>): (r: seq<DeploymentGroup>)
    requires forall p :: p in groups ==> p in ctx.deploymentGroups
    ensures |r| == |groups|
    ensures forall i :: 0 <= i < |r| ==> r[i] == ctx.deploymentGroups[groups[i]]
  {
    if groups == [] then [] else [ctx.deploymentGroups[groups[0]]] + Lookup(ctx, groups[1..])
  }

  // ---------------------------------------------------------------------------------------
  // Collecting from the hierarchy
  // ---------------------------------------------------------------------------------------

  /** `sortGroups`: ascending priority, ties broken by name. */
  predicate GroupLess(a: DeploymentGroup, b: DeploymentGroup) {
    a.priority < b.priority || (a.priority == b.priority && StringLess(a.name, b.name))
  }

  lemma GroupLessStrictOrder()
    ensures StrictOrder(GroupLess)
  {
    forall a | true ensures !GroupLess(a, a) {
      StringLessIrreflexive(a.name);
    }
    forall a, b, c | GroupLess(a, b) && GroupLess(b, c) ensures GroupLess(a, c) {
      if a.priority == b.priority && b.priority == c.priority {
        StringLessTransitive(a.name, b.name, c.name);
      }
    }
  }

  predicate IsActive(g: DeploymentGroup) {
    g.status == Active
  }

  /** The children that pass the hierarchy filter, ordered by `sortGroups`. */
  function SortedActiveChildren(g: DeploymentGroup): (r: seq<DeploymentGroup>)
    ensures forall c :: c in r <==> c in g.children && IsActive(c)
  {
    var active := Filter(g.children, IsActive);
    var r := Sort(active, GroupLess);
    assert forall c :: c in r <==> c in multiset(active);
    r
  }

  /** Siblings are collected in ascending priority, and by name among equal priorities. */
  lemma SiblingsSorted(g: DeploymentGroup)
    ensures SortedBy(SortedActiveChildren(g), GroupLess)
  {
    GroupLessStrictOrder();
    SortSorted(Filter(g.children, IsActive), GroupLess);
  }

  /**
   * `flatten(collectFromHierarchy(g, ...))`: the group followed, in pre-order, by the groups
   * under its active children, siblings ordered by `sortGroups`; a child that is not active
   * is left out together with everything under it.
   */
  function Collect(g: DeploymentGroup): (r: seq<DeploymentGroup>)
    decreases g, 1
    ensures |r| > 0 && r[0] == g
  {
    [g] + CollectAll(g, SortedActiveChildren(g))
  }

  function CollectAll(parent: DeploymentGroup, children: seq<DeploymentGroup>): seq<DeploymentGroup>
    requires forall c :: c in children ==> c in parent.children
    decreases parent, 0, |children|
  {
    if children == [] then []
    else
      assert children[0] in parent.children;
      Collect(children[0]) + CollectAll(parent, children[1..])
  }

  /** Everything collected below the starting group is active. */
  lemma {:induction false} CollectBelowActive(g: DeploymentGroup)
    decreases g, 1
    ensures forall x :: x in Collect(g)[1..] ==> IsActive(x)
  {
    CollectAllActive(g, SortedActiveChildren(g));
  }

  lemma {:induction false} CollectAllActive(parent: DeploymentGroup, children: seq<DeploymentGroup>)
    requires forall c :: c in children ==> c in parent.children && IsActive(c)
    decreases parent, 0, |children|
    ensures forall x :: x in CollectAll(parent, children) ==> IsActive(x)
  {
    if children != [] {
      assert children[0] in parent.children;
      CollectBelowActive(children[0]);
      CollectAllActive(parent, children[1..]);
      var head := Collect(children[0]);
      assert head == [children[0]] + head[1..];
    }
  }

  /** The groups collected from every group of the launch set, in order. */
  function CollectLaunched(launch: seq<DeploymentGroup>): seq<DeploymentGroup> {
    if launch == [] then [] else Collect(launch[0]) + CollectLaunched(launch[1..])
  }

  /** Every group of the launch set is collected. */
  lemma {:induction false} LaunchedCollected(launch: seq<DeploymentGroup>)
    ensures forall g :: g in launch ==> g in CollectLaunched(launch)
  {
    if launch != [] {
      LaunchedCollected(launch[1..]);
      assert launch[0] == Collect(launch[0])[0];
    }
  }

  function PathOf(g: DeploymentGroup): GroupPath {
    g.path
  }

  /** No group before the `i`th has its path. */
  predicate FirstOfPath(groups: seq<DeploymentGroup>, i: nat)
    requires i < |groups|
  {
    forall k :: 0 <= k < i ==> groups[k].path != groups[i].path
  }

  /** `uniqBy(groups, o => o.path).filter(o => o.status === "active")`. */
  function UniqueActive(groups: seq<DeploymentGroup>): (r: seq<DeploymentGroup>)
    ensures forall g :: g in r ==> g in groups && IsActive(g)
    ensures forall i, j :: 0 <= i < j < |r| ==> r[i].path != r[j].path
    ensures forall i :: 0 <= i < |groups| && IsActive(groups[i]) && FirstOfPath(groups, i) ==> groups[i] in r
    ensures forall g :: g in r ==> exists i :: 0 <= i < |groups| && groups[i] == g && FirstOfPath(groups, i)
  {
    var u := UniqBy(groups, PathOf);
    var r := Filter(u, IsActive);
    FilterKeepsDistinctPaths(u, IsActive);
    forall i | 0 <= i < |groups| && IsActive(groups[i]) && FirstOfPath(groups, i)
      ensures groups[i] in r
    {
      UniqByKeepsFirst(groups, PathOf, i);
    }
    forall g | g in r ensures exists i :: 0 <= i < |groups| && groups[i] == g && FirstOfPath(groups, i) {
      UniqByKeepsOnlyFirst(groups, PathOf, g);
    }
    r
  }

  /** Filtering keeps paths distinct when they were distinct before. */
  lemma {:induction false} FilterKeepsDistinctPaths(xs: seq<DeploymentGroup>, p: DeploymentGroup -> bool)
    requires forall i, j :: 0 <= i < j < |xs| ==> xs[i].path != xs[j].path
    ensures forall i, j :: 0 <= i < j < |Filter(xs, p)| ==> Filter(xs, p)[i].path != Filter(xs, p)[j].path
  {
    if xs != [] {
      FilterKeepsDistinctPaths(xs[1..], p);
      var r := Filter(xs, p);
      var rest := Filter(xs[1..], p);
      assert xs == [xs[0]] + xs[1..];
      FilterAppend([xs[0]], xs[1..], p);
      if p(xs[0]) {
        assert r == [xs[0]] + rest;
        forall j | 0 < j < |r| ensures r[0].path != r[j].path {
          assert r[j] in xs[1..];
          var l :| 0 <= l < |xs[1..]| && xs[1..][l] == r[j];
          assert xs[l + 1] == r[j];
        }
        forall i, j | 0 < i < j < |r| ensures r[i].path != r[j].path {
          assert r[i] == rest[i - 1] && r[j] == rest[j - 1];
        }
      } else {
        assert r == rest;
      }
    }
  }

  // ---------------------------------------------------------------------------------------
  // Target filter
  // ---------------------------------------------------------------------------------------

  predicate SupportedConfigSetType(configSetType: string) {
    configSetType == StandardConfigSetType || configSetType == BootstrapConfigSetType
  }

  function UnsupportedConfigSetTypeMessage(configSetType: string): string {
    "Unsupported config set type: " + configSetType
  }

  /** `hasConfigSets`: the target has config sets of the requested type; any other type is an error. */
  function HasConfigSets(configSetType: string, t: DeploymentTarget): (r: Result<bool, string>)
    ensures r.Err? <==> !SupportedConfigSetType(configSetType)
    ensures r.Err? ==> r.error == UnsupportedConfigSetTypeMessage(configSetType)
    ensures configSetType == StandardConfigSetType ==> r == Ok(|t.configSets| > 0)
    ensures configSetType == BootstrapConfigSetType ==> r == Ok(|t.bootstrapConfigSets| > 0)
  {
    if configSetType == StandardConfigSetType then Ok(|t.configSets| > 0)
    else if configSetType == BootstrapConfigSetType then Ok(|t.bootstrapConfigSets| > 0)
    else Err(UnsupportedConfigSetTypeMessage(configSetType))
  }

  /** A target the operation deploys to: active, with config sets of the type, and named by the filter if any. */
  predicate Qualifies(input: PlanInput, t: DeploymentTarget) {
    t.status == Active && HasConfigSets(input.configSetType, t) == Ok(true) &&
    (input.targets == [] || t.name in input.targets)
  }

  predicate SomeActiveTarget(targets: seq<DeploymentTarget>) {
    exists t :: t in targets && t.status == Active
  }

  /**
   * The targets of one group that pass the filter, in order. The config-set check runs only on
   * active targets, so an unsupported type is an error exactly when some target is active.
   */
  function FilterTargets(input: PlanInput, targets: seq<DeploymentTarget>): (r: Result<seq<DeploymentTarget>, string>)
    ensures r.Err? <==> !SupportedConfigSetType(input.configSetType) && SomeActiveTarget(targets)
    ensures r.Err? ==> r.error == UnsupportedConfigSetTypeMessage(input.configSetType)
    ensures r.Ok? ==> forall t :: t in r.value <==> t in targets && Qualifies(input, t)
  {
    if targets == [] then Ok([])
    else
      var t := targets[0];
      var rest := FilterTargets(input, targets[1..]);
      if t.status != Active then
        assert forall x :: x in targets <==> x == t || x in targets[1..];
        rest
      else
        match HasConfigSets(input.configSetType, t)
        case Err(e) => Err(e)
        case Ok(has) =>
          if rest.Err? then rest
          else if has && (input.targets == [] || t.name in input.targets) then Ok([t] + rest.value)
          else rest
  }

  /** Every group with its targets filtered, keeping the groups with some target left. */
  function SelectGroups(input: PlanInput, groups: seq<DeploymentGroup>): (r: Result<seq<DeploymentGroup>, string>)
    ensures r.Err? <==>
              !SupportedConfigSetType(input.configSetType) && exists g :: g in groups && SomeActiveTarget(g.targets)
    ensures r.Err? ==> r.error == UnsupportedConfigSetTypeMessage(input.configSetType)
    ensures r.Ok? ==> |r.value| <= |groups|
    ensures r.Ok? ==> forall g :: g in r.value ==>
              g.targets != [] && forall t :: t in g.targets ==> Qualifies(input, t)
  {
    if groups == [] then Ok([])
    else
      var g := groups[0];
      var rest := SelectGroups(input, groups[1..]);
      match FilterTargets(input, g.targets)
      case Err(e) => Err(e)
      case Ok(kept) =>
        if rest.Err? then rest
        else if kept == [] then rest
        else Ok([g.(targets := kept)] + rest.value)
  }

  /** A group with a qualifying target stays in the plan, with its qualifying targets and its path. */
  lemma {:induction false} SelectGroupsKeeps(input: PlanInput, groups: seq<DeploymentGroup>, i: nat, t: DeploymentTarget)
    requires i < |groups| && t in groups[i].targets && Qualifies(input, t)
    requires SelectGroups(input, groups).Ok?
    ensures exists g :: g in SelectGroups(input, groups).value && g.path == groups[i].path && t in g.targets
  {
    var kept := FilterTargets(input, groups[0].targets);
    assert kept.Ok?;
    if i == 0 {
      assert t in kept.value;
      assert groups[0].(targets := kept.value) in SelectGroups(input, groups).value;
    } else {
      SelectGroupsKeeps(input, groups[1..], i - 1, t);
      var g :| g in SelectGroups(input, groups[1..]).value && g.path == groups[i].path && t in g.targets;
      assert g in SelectGroups(input, groups).value;
    }
  }

  // ---------------------------------------------------------------------------------------
  // The plan
  // ---------------------------------------------------------------------------------------

  const NoTargetsMessage: string := "No targets to deploy"

  /** The groups left after de-duplication and the target filter, for known requested groups. */
  function GroupsToDeploy(ctx: Context, input: PlanInput): Result<seq<DeploymentGroup>, string>
    requires forall p :: p in input.groups ==> p in ctx.deploymentGroups
  {
    SelectGroups(input, UniqueActive(CollectLaunched(GroupsToLaunchFrom(ctx, input.groups))))
  }

  /**
   * `planDeployment`: an unknown requested group is an error before anything else; then the
   * groups to deploy, skipped when there are none and handed to confirmation otherwise.
   */
  function PlanDeployment(ctx: Context, input: PlanInput): (r: Result<PlanOutcome, string>)
    ensures FirstUnknownGroup(ctx, input.groups).Some? ==>
              r == Err(GroupNotFoundMessage(FirstUnknownGroup(ctx, input.groups).value))
    ensures FirstUnknownGroup(ctx, input.groups).None? ==>
              (r.Err? <==> GroupsToDeploy(ctx, input).Err?) &&
              (r.Err? ==> r.error == UnsupportedConfigSetTypeMessage(input.configSetType)) &&
              (r == Ok(Skipped(true, "SKIPPED", NoTargetsMessage)) <==> GroupsToDeploy(ctx, input) == Ok([])) &&
              (r.Ok? && r.value.Confirm? ==>
                 r.value.plan.hasChanges && Ok(r.value.plan.groups) == GroupsToDeploy(ctx, input))
  {
    match FirstUnknownGroup(ctx, input.groups)
    case Some(p) => Err(GroupNotFoundMessage(p))
    case None =>
      match GroupsToDeploy(ctx, input)
      case Err(e) => Err(e)
      case Ok(grs) =>
        var hasChanges := |grs| > 0;
        if !hasChanges then Ok(Skipped(true, "SKIPPED", NoTargetsMessage))
        else Ok(Confirm(Plan(grs, hasChanges)))
  }

  /**
   * With a supported config-set type and known groups, the operation is skipped exactly when
   * no active group collected from the launch set has a qualifying target.
   */
  lemma PlanDeploymentSkipsIffNoTarget(ctx: Context, input: PlanInput)
    requires forall p :: p in input.groups ==> p in ctx.deploymentGroups
    requires SupportedConfigSetType(input.configSetType)
    ensures var unique := UniqueActive(CollectLaunched(GroupsToLaunchFrom(ctx, input.groups)));
            PlanDeployment(ctx, input) == Ok(Skipped(true, "SKIPPED", NoTargetsMessage)) <==>
            forall g, t :: g in unique && t in g.targets ==> !Qualifies(input, t)
  {
    var unique := UniqueActive(CollectLaunched(GroupsToLaunchFrom(ctx, input.groups)));
    assert GroupsToDeploy(ctx, input) == SelectGroups(input, unique);
    hide *;
    SelectGroupsEmptyIffNoTarget(input, unique);
  }

  /** With a supported config-set type, nothing is selected exactly when no target qualifies. */
  lemma SelectGroupsEmptyIffNoTarget(input: PlanInput, groups: seq<DeploymentGroup>)
    requires SupportedConfigSetType(input.configSetType)
    ensures SelectGroups(input, groups) == Ok([]) <==>
            forall g, t :: g in groups && t in g.targets ==> !Qualifies(input, t)
  {
    var selected := SelectGroups(input, groups);
    assert selected.Ok?;
    hide SelectGroups, FilterTargets;
    if exists g, t :: g in groups && t in g.targets && Qualifies(input, t) {
      var g, t :| g in groups && t in g.targets && Qualifies(input, t);
      var i :| 0 <= i < |groups| && groups[i] == g;
      SelectGroupsKeeps(input, groups, i, t);
      assert selected.value != [];
    } else if selected.value != [] {
      var sg := selected.value[0];
      assert sg in selected.value;
      var t := sg.targets[0];
      assert Qualifies(input, t);
      SelectGroupsOrigin(input, groups, sg, t);
    }
  }

  /** A target in a selected group comes from the group of the same path it was selected from. */
  lemma {:induction false} SelectGroupsOrigin(input: PlanInput, groups: seq<DeploymentGroup>, sg: DeploymentGroup,
                                              t: DeploymentTarget)
    requires SelectGroups(input, groups).Ok? && sg in SelectGroups(input, groups).value && t in sg.targets
    ensures exists g :: g in groups && g.path == sg.path && t in g.targets
  {
    var kept := FilterTargets(input, groups[0].targets);
    var rest := SelectGroups(input, groups[1..]);
    if kept.value != [] && sg == groups[0].(targets := kept.value) {
      assert groups[0] in groups;
    } else {
      SelectGroupsOrigin(input, groups[1..], sg, t);
      var g :| g in groups[1..] && g.path == sg.path && t in g.targets;
      assert g in groups;
    }
  }
}
