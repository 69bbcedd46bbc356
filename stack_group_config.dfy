/**
 * Overlaying a stack group's configuration file on the properties the group inherits from its
 * parent: each property is overridden under its own rule (a truthy value, a defined value, a
 * non-empty list, a value that is not null), tags are inherited or replaced, data objects are
 * merged deeply and hooks are combined by name.
 */
module StackGroupConfig {
  import opened Wrappers

  type Region = string
  type AccountId = string
  type Capability = string
  type TagKey = string
  type TagValue = string

  datatype TemplateBucketConfig = TemplateBucketConfig(name: string, keyPrefix: Option<string>)
  datatype CommandRole = CommandRole(iamRoleArn: string)
  datatype TimeoutConfig = TimeoutConfig(create: nat, update: nat)

  /** A hook binding; hooks are told apart by name. */
  datatype HookConfig = HookConfig(name: string, hookType: string)

  /** A data value as read from configuration: JSON-like, with objects merged deeply. */
  datatype Value =
    | Null
    | Bool(b: bool)
    | Num(n: int)
    | Str(s: string)
    | Arr(items: seq<Value>)
    | Obj(fields: map<string, Value>)

  /** A configuration property that may be left out, set to null, or set. */
  datatype Nullable<T> = Undefined | IsNull | Defined(value: T)

  /** The stack group configuration file, as parsed. Tags are in file order. */
  datatype StackGroupConfigFile = StackGroupConfigFile(
    project: Option<string>,
    templateBucket: Option<TemplateBucketConfig>,
    regions: seq<Region>,
    commandRole: Option<CommandRole>,
    capabilities: Option<seq<Capability>>,
    accountIds: Option<seq<AccountId>>,
    ignore: Option<bool>,
    obsolete: Option<bool>,
    terminationProtection: Option<bool>,
    stackPolicy: Option<string>,
    stackPolicyDuringUpdate: Option<string>,
    timeout: Nullable<TimeoutConfig>,
    inheritTags: bool,
    tags: seq<(TagKey, TagValue)>,
    data: Value,
    hooks: seq<HookConfig>)

  /** The properties of a stack group. */
  datatype StackGroup = StackGroup(
    project: Option<string>,
    templateBucket: Option<TemplateBucketConfig>,
    regions: seq<Region>,
    commandRole: Option<CommandRole>,
    capabilities: Option<seq<Capability>>,
    accountIds: Option<seq<AccountId>>,
    ignore: bool,
    obsolete: bool,
    terminationProtection: bool,
    stackPolicy: Option<string>,
    stackPolicyDuringUpdate: Option<string>,
    timeout: Option<TimeoutConfig>,
    tags: map<TagKey, TagValue>,
    data: Value,
    hooks: seq<HookConfig>)

  // ---------------------------------------------------------------------------------------
  // Library semantics
  // ---------------------------------------------------------------------------------------

  /** The tag map built from `pairs` in order: a later pair for the same key wins. */
  function TagMap(pairs: seq<(TagKey, TagValue)>): map<TagKey, TagValue> {
    if pairs == [] then map[]
    else TagMap(pairs[..|pairs| - 1])[pairs[|pairs| - 1].0 := pairs[|pairs| - 1].1]
  }

  /** The tag map has a key exactly when some pair has it. */
  lemma {:induction false} TagMapKeys(pairs: seq<(TagKey, TagValue)>)
    ensures forall k :: k in TagMap(pairs) <==> exists p :: p in pairs && p.0 == k
  {
    if pairs != [] {
      var init := pairs[..|pairs| - 1];
      TagMapKeys(init);
      assert forall p :: p in pairs <==> p in init || p == pairs[|pairs| - 1];
    }
  }

  /** The value a key gets in the tag map: that of its last pair. */
  lemma {:induction false} TagMapLastWins(pairs: seq<(TagKey, TagValue)>, i: nat)
    requires i < |pairs|
    requires forall j :: i < j < |pairs| ==> pairs[j].0 != pairs[i].0
    ensures pairs[i].0 in TagMap(pairs) && TagMap(pairs)[pairs[i].0] == pairs[i].1
  {
    if i < |pairs| - 1 {
      TagMapLastWins(pairs[..|pairs| - 1], i);
    }
  }

  /**
   * `merge(a, b)`: objects are merged key by key, recursively where both sides hold a value;
   * arrays index by index; otherwise the later value wins.
   */
  function Merge(a: Value, b: Value): (r: Value)
    decreases a
    ensures a.Obj? && b.Obj? ==> r.Obj? && r.fields.Keys == a.fields.Keys + b.fields.Keys
    ensures a.Arr? && b.Arr? ==> r.Arr? && |r.items| == Max(|a.items|, |b.items|)
    ensures !(a.Obj? && b.Obj?) && !(a.Arr? && b.Arr?) ==> r == b
  {
    if a.Obj? && b.Obj? then
      Obj(map k | k in a.fields.Keys + b.fields.Keys ::
            if k in a.fields && k in b.fields then Merge(a.fields[k], b.fields[k])
            else if k in b.fields then b.fields[k]
            else a.fields[k])
    else if a.Arr? && b.Arr? then
      Arr(seq(Max(|a.items|, |b.items|), i requires 0 <= i < Max(|a.items|, |b.items|) =>
            if i < |a.items| && i < |b.items| then Merge(a.items[i], b.items[i])
            else if i < |b.items| then b.items[i]
            else a.items[i]))
    else b
  }

  function Max(x: int, y: int): int {
    if x < y then y else x
  }

  /**
   * In a merge of two objects, a key only the earlier object has keeps its value, a key only
   * the later one has takes its value, and a key both have takes the merge of the two.
   */
  lemma MergeObjects(a: map<string, Value>, b: map<string, Value>, k: string)
    requires k in a.Keys + b.Keys
    ensures k in Merge(Obj(a), Obj(b)).fields
    ensures k in a && k !in b ==> Merge(Obj(a), Obj(b)).fields[k] == a[k]
    ensures k in b && k !in a ==> Merge(Obj(a), Obj(b)).fields[k] == b[k]
    ensures k in a && k in b ==> Merge(Obj(a), Obj(b)).fields[k] == Merge(a[k], b[k])
  {
  }

  /** Merging a value with itself gives it back. */
  lemma {:induction false} MergeIdempotent(v: Value)
    decreases v
    ensures Merge(v, v) == v
  {
    match v
    case Obj(fields) =>
      forall k | k in fields ensures Merge(fields[k], fields[k]) == fields[k] {
        MergeIdempotent(fields[k]);
      }
      assert Merge(v, v).fields == fields;
    case Arr(items) =>
      forall i | 0 <= i < |items| ensures Merge(items[i], items[i]) == items[i] {
        MergeIdempotent(items[i]);
      }
      assert Merge(v, v).items == items;
    case _ =>
  }

  /** Merging into an empty object gives the later object back, nested values and all. */
  lemma MergeIntoEmpty(b: map<string, Value>)
    ensures Merge(Obj(map[]), Obj(b)) == Obj(b)
  {
    assert Merge(Obj(map[]), Obj(b)).fields == b;
  }

  /**
   * `mergeArrays` without duplicates: the parent's hooks, then each configured hook whose
   * name is not yet among those collected.
   */
  function MergeHooks(first: seq<HookConfig>, second: seq<HookConfig>): (r: seq<HookConfig>)
    ensures |first| <= |r| <= |first| + |second| && r[..|first|] == first
    ensures forall h :: h in r ==> h in first || h in second
  {
    if second == [] then first
    else
      var collected := MergeHooks(first, second[..|second| - 1]);
      var item := second[|second| - 1];
      assert forall h :: h in second[..|second| - 1] ==> h in second;
      if HasHookNamed(collected, item.name) then collected else collected + [item]
  }

  predicate HasHookNamed(hooks: seq<HookConfig>, name: string) {
    exists h :: h in hooks && h.name == name
  }

  predicate DistinctHookNames(hooks: seq<HookConfig>) {
    forall i, j :: 0 <= i < j < |hooks| ==> hooks[i].name != hooks[j].name
  }

  /** Every configured hook is represented by name, and no name is added twice. */
  lemma {:induction false} MergeHooksNames(first: seq<HookConfig>, second: seq<HookConfig>)
    ensures forall h :: h in second ==> HasHookNamed(MergeHooks(first, second), h.name)
    ensures DistinctHookNames(first) ==> DistinctHookNames(MergeHooks(first, second))
  {
    if second != [] {
      var init := second[..|second| - 1];
      MergeHooksNames(first, init);
      var collected := MergeHooks(first, init);
      var item := second[|second| - 1];
      var r := MergeHooks(first, second);
      forall h | h in second ensures HasHookNamed(r, h.name) {
        if h != item {
          assert h in init;
          var g :| g in collected && g.name == h.name;
          assert g in r;
        } else if !HasHookNamed(collected, item.name) {
          assert r[|r| - 1] == item;
        } else {
          var g :| g in collected && g.name == item.name;
          assert g in r;
        }
      }
      if DistinctHookNames(first) && !HasHookNamed(collected, item.name) {
        forall i, j | 0 <= i < j < |r| ensures r[i].name != r[j].name {
          if j == |r| - 1 {
            assert r[i] in collected;
          } else {
            assert r[i] == collected[i] && r[j] == collected[j];
          }
        }
      }
    }
  }

  // ---------------------------------------------------------------------------------------
  // The overlay
  // ---------------------------------------------------------------------------------------

  /** Overridden when the configured string is truthy (set and not empty). */
  function OverrideIfTruthy(inherited: Option<string>, configured: Option<string>): (r: Option<string>)
    ensures TruthyString(configured) ==> r == configured
    ensures !TruthyString(configured) ==> r == inherited
  {
    if TruthyString(configured) then configured else inherited
  }

  /** Overridden when the configured object or list is set; an empty list is truthy too. */
  function OverrideIfSet<T>(inherited: Option<T>, configured: Option<T>): (r: Option<T>)
    ensures configured.Some? ==> r == configured
    ensures configured.None? ==> r == inherited
  {
    if configured.Some? then configured else inherited
  }

  /** Overridden whenever the configured flag is defined, so an explicit `false` wins. */
  function OverrideIfDefined(inherited: bool, configured: Option<bool>): (r: bool)
    ensures configured.Some? ==> r == configured.value
    ensures configured.None? ==> r == inherited
  {
    if configured.Some? then configured.value else inherited
  }

  /**
   * Overridden whenever the configured timeout is not null; a timeout left out of the file
   * is not null, so it clears the inherited one.
   */
  function OverrideIfNotNull(inherited: Option<TimeoutConfig>, configured: Nullable<TimeoutConfig>)
    : (r: Option<TimeoutConfig>)
    ensures configured.IsNull? ==> r == inherited
    ensures configured.Defined? ==> r == Some(configured.value)
    ensures configured.Undefined? ==> r == None
  {
    match configured
    case IsNull => inherited
    case Undefined => None
    case Defined(t) => Some(t)
  }

  /** The tags after the overlay: written over the inherited map, or replacing it. */
  function OverlayTags(inherited: map<TagKey, TagValue>, configFile: StackGroupConfigFile): map<TagKey, TagValue> {
    if configFile.inheritTags then inherited + TagMap(configFile.tags) else TagMap(configFile.tags)
  }

  /** The properties the configuration file overrides one by one, each under its own rule. */
  function OverlayProperties(g: StackGroup, configFile: StackGroupConfigFile): StackGroup {
    g.(project := OverrideIfTruthy(g.project, configFile.project),
       templateBucket := OverrideIfSet(g.templateBucket, configFile.templateBucket),
       regions := if |configFile.regions| > 0 then configFile.regions else g.regions,
       commandRole := OverrideIfSet(g.commandRole, configFile.commandRole),
       capabilities := OverrideIfSet(g.capabilities, configFile.capabilities),
       accountIds := OverrideIfSet(g.accountIds, configFile.accountIds),
       ignore := OverrideIfDefined(g.ignore, configFile.ignore),
       obsolete := OverrideIfDefined(g.obsolete, configFile.obsolete),
       terminationProtection := OverrideIfDefined(g.terminationProtection, configFile.terminationProtection),
       stackPolicy := OverrideIfTruthy(g.stackPolicy, configFile.stackPolicy),
       stackPolicyDuringUpdate := OverrideIfTruthy(g.stackPolicyDuringUpdate, configFile.stackPolicyDuringUpdate),
       timeout := OverrideIfNotNull(g.timeout, configFile.timeout))
  }

  /** The group's properties after the configuration file is overlaid on `g`. */
  function Overlay(g: StackGroup, configFile: StackGroupConfigFile): StackGroup {
    OverlayProperties(g, configFile).(
      tags := OverlayTags(g.tags, configFile),
      data := Merge(g.data, configFile.data),
      hooks := MergeHooks(g.hooks, configFile.hooks))
  }

  /**
   * With `inheritTags`, a configured tag wins on a clash and every other inherited tag stays;
   * without it, the group has exactly the configured tags.
   */
  lemma OverlayTagsInheritOrReplace(g: StackGroup, configFile: StackGroupConfigFile, k: TagKey)
    ensures var tags := Overlay(g, configFile).tags;
            var configured := TagMap(configFile.tags);
            (k in configured ==> k in tags && tags[k] == configured[k]) &&
            (configFile.inheritTags && k !in configured && k in g.tags ==> k in tags && tags[k] == g.tags[k]) &&
            (configFile.inheritTags ==> (k in tags <==> k in g.tags || k in configured)) &&
            (!configFile.inheritTags ==> (k in tags <==> k in configured))
  {
  }

  /**
   * A file that sets nothing (no truthy strings, no objects, no flags, no regions, null
   * timeout, inherited tags, an empty data object and no hooks) leaves the group as it was,
   * provided the group's data is an object.
   */
  lemma EmptyConfigFileChangesNothing(g: StackGroup)
    requires g.data.Obj?
    ensures Overlay(g, StackGroupConfigFile(None, None, [], None, None, None, None, None, None, None, None,
                                            IsNull, true, [], Obj(map[]), [])) == g
  {
    assert Merge(g.data, Obj(map[])).fields == g.data.fields;
    assert g.tags + map[] == g.tags;
  }

  /** Setting a key after an override is overriding with the updated map. */
  lemma UpdateAfterOverride(a: map<TagKey, TagValue>, m: map<TagKey, TagValue>, k: TagKey, v: TagValue)
    ensures (a + m)[k := v] == a + m[k := v]
  {
  }

  // ---------------------------------------------------------------------------------------
  // The properties record, updated in place
  // ---------------------------------------------------------------------------------------

  /** `stackGroup.toProps()`: a mutable record of the group's properties. */
  class StackGroupProps {
    var project: Option<string>
    var templateBucket: Option<TemplateBucketConfig>
    var regions: seq<Region>
    var commandRole: Option<CommandRole>
    var capabilities: Option<seq<Capability>>
    var accountIds: Option<seq<AccountId>>
    var ignore: bool
    var obsolete: bool
    var terminationProtection: bool
    var stackPolicy: Option<string>
    var stackPolicyDuringUpdate: Option<string>
    var timeout: Option<TimeoutConfig>
    var tags: map<TagKey, TagValue>
    var data: Value
    var hooks: seq<HookConfig>

    /** `createStackGroup(props)`: the group the record describes. */
    function Snapshot(): StackGroup
      reads this
    {
      StackGroup(project, templateBucket, regions, commandRole, capabilities, accountIds, ignore, obsolete,
                 terminationProtection, stackPolicy, stackPolicyDuringUpdate, timeout, tags, data, hooks)
    }

    constructor (g: StackGroup)
      ensures Snapshot() == g
    {
      project, templateBucket, regions, commandRole := g.project, g.templateBucket, g.regions, g.commandRole;
      capabilities, accountIds := g.capabilities, g.accountIds;
      ignore, obsolete, terminationProtection := g.ignore, g.obsolete, g.terminationProtection;
      stackPolicy, stackPolicyDuringUpdate, timeout := g.stackPolicy, g.stackPolicyDuringUpdate, g.timeout;
      tags, data, hooks := g.tags, g.data, g.hooks;
    }

    /** `configFile.tags.forEach((value, key) => props.tags.set(key, value))`. */
    method SetTags(pairs: seq<(TagKey, TagValue)>)
      modifies this`tags
      ensures tags == old(tags) + TagMap(pairs)
    {
      var i := 0;
      while i < |pairs|
        invariant 0 <= i <= |pairs|
        invariant tags == old(tags) + TagMap(pairs[..i])
      {
        assert pairs[..i + 1][..i] == pairs[..i];
        ghost var m := TagMap(pairs[..i]);
        assert TagMap(pairs[..i + 1]) == m[pairs[i].0 := pairs[i].1];
        UpdateAfterOverride(old(tags), m, pairs[i].0, pairs[i].1);
        tags := tags[pairs[i].0 := pairs[i].1];
        i := i + 1;
      }
      assert pairs[..i] == pairs;
    }

    /*
     * The property assignments before the tags, each under its own condition, in three
     * groups of four.
     */

    method OverrideNaming(configFile: StackGroupConfigFile)
      modifies this`project, this`templateBucket, this`regions, this`commandRole
      ensures project == OverrideIfTruthy(old(project), configFile.project)
      ensures templateBucket == OverrideIfSet(old(templateBucket), configFile.templateBucket)
      ensures regions == if |configFile.regions| > 0 then configFile.regions else old(regions)
      ensures commandRole == OverrideIfSet(old(commandRole), configFile.commandRole)
    {
      if TruthyString(configFile.project) {
        project := configFile.project;
      }
      if configFile.templateBucket.Some? {
        templateBucket := configFile.templateBucket;
      }
      if |configFile.regions| > 0 {
        regions := configFile.regions;
      }
      if configFile.commandRole.Some? {
        commandRole := configFile.commandRole;
      }
    }

    method OverrideTargeting(configFile: StackGroupConfigFile)
      modifies this`capabilities, this`accountIds, this`ignore, this`obsolete
      ensures capabilities == OverrideIfSet(old(capabilities), configFile.capabilities)
      ensures accountIds == OverrideIfSet(old(accountIds), configFile.accountIds)
      ensures ignore == OverrideIfDefined(old(ignore), configFile.ignore)
      ensures obsolete == OverrideIfDefined(old(obsolete), configFile.obsolete)
    {
      if configFile.capabilities.Some? {
        capabilities := configFile.capabilities;
      }
      if configFile.accountIds.Some? {
        accountIds := configFile.accountIds;
      }
      if configFile.ignore.Some? {
        ignore := configFile.ignore.value;
      }
      if configFile.obsolete.Some? {
        obsolete := configFile.obsolete.value;
      }
    }

    method OverrideProtection(configFile: StackGroupConfigFile)
      modifies this`terminationProtection, this`stackPolicy, this`stackPolicyDuringUpdate, this`timeout
      ensures terminationProtection == OverrideIfDefined(old(terminationProtection), configFile.terminationProtection)
      ensures stackPolicy == OverrideIfTruthy(old(stackPolicy), configFile.stackPolicy)
      ensures stackPolicyDuringUpdate == OverrideIfTruthy(old(stackPolicyDuringUpdate), configFile.stackPolicyDuringUpdate)
      ensures timeout == OverrideIfNotNull(old(timeout), configFile.timeout)
    {
      if configFile.terminationProtection.Some? {
        terminationProtection := configFile.terminationProtection.value;
      }
      if TruthyString(configFile.stackPolicy) {
        stackPolicy := configFile.stackPolicy;
      }
      if TruthyString(configFile.stackPolicyDuringUpdate) {
        stackPolicyDuringUpdate := configFile.stackPolicyDuringUpdate;
      }
      if !configFile.timeout.IsNull? {
        timeout := if configFile.timeout.Defined? then Some(configFile.timeout.value) else None;
      }
    }

    /** The property assignments before the tags. */
    method OverrideProperties(configFile: StackGroupConfigFile)
      modifies this`project, this`templateBucket, this`regions, this`commandRole, this`capabilities,
               this`accountIds, this`ignore, this`obsolete, this`terminationProtection, this`stackPolicy,
               this`stackPolicyDuringUpdate, this`timeout
      ensures project == OverrideIfTruthy(old(project), configFile.project)
      ensures templateBucket == OverrideIfSet(old(templateBucket), configFile.templateBucket)
      ensures regions == if |configFile.regions| > 0 then configFile.regions else old(regions)
      ensures commandRole == OverrideIfSet(old(commandRole), configFile.commandRole)
      ensures capabilities == OverrideIfSet(old(capabilities), configFile.capabilities)
      ensures accountIds == OverrideIfSet(old(accountIds), configFile.accountIds)
      ensures ignore == OverrideIfDefined(old(ignore), configFile.ignore)
      ensures obsolete == OverrideIfDefined(old(obsolete), configFile.obsolete)
      ensures terminationProtection == OverrideIfDefined(old(terminationProtection), configFile.terminationProtection)
      ensures stackPolicy == OverrideIfTruthy(old(stackPolicy), configFile.stackPolicy)
      ensures stackPolicyDuringUpdate == OverrideIfTruthy(old(stackPolicyDuringUpdate), configFile.stackPolicyDuringUpdate)
      ensures timeout == OverrideIfNotNull(old(timeout), configFile.timeout)
    {
      OverrideNaming(configFile);
      OverrideTargeting(configFile);
      OverrideProtection(configFile);
    }

    /** The tags: written over the inherited map in place, or replaced by the configured map. */
    method OverlayTagsInPlace(configFile: StackGroupConfigFile)
      modifies this`tags
      ensures tags == OverlayTags(old(tags), configFile)
    {
      if configFile.inheritTags {
        SetTags(configFile.tags);
      } else {
        tags := TagMap(configFile.tags);
      }
    }

    /** The whole overlay: the properties, then the tags, the data and the hooks. */
    method Populate(configFile: StackGroupConfigFile)
      modifies this
      ensures Snapshot() == Overlay(old(Snapshot()), configFile)
    {
      hide TagMap, Merge, MergeHooks, OverlayTags;
      OverrideProperties(configFile);
      OverlayTagsInPlace(configFile);
      data := Merge(data, configFile.data);
      hooks := MergeHooks(hooks, configFile.hooks);
    }
  }

  /**
   * `populatePropertiesFromConfigFile`: without a configuration file the group is returned as
   * it is; otherwise its properties with the file overlaid.
   */
  method PopulatePropertiesFromConfigFile(stackGroup: StackGroup, configFile: Option<StackGroupConfigFile>)
    returns (r: StackGroup)
    ensures configFile.None? ==> r == stackGroup
    ensures configFile.Some? ==> r == Overlay(stackGroup, configFile.value)
  {
    if configFile.None? {
      return stackGroup;
    }
    var props := new StackGroupProps(stackGroup);
    props.Populate(configFile.value);
    r := props.Snapshot();
  }
}
