/**
 * Deriving a stack's remote name from its path in the stack hierarchy: the project prefix,
 * the path without its leading character, every "/" turned into "-", and a trailing ".yml"
 * removed.
 */
module StackName {
  import opened Wrappers

  const TemplateSuffix: string := ".yml"

  /** `project ? project + "-" : ""`. */
  function Prefix(project: Option<string>): (r: string)
    ensures TruthyString(project) ==> r == project.value + "-"
    ensures !TruthyString(project) ==> r == ""
  {
    if TruthyString(project) then project.value + "-" else ""
  }

  /** `s.substr(1)`: everything after the first character, or nothing. */
  function DropFirst(s: string): (r: string)
    ensures s == [] ==> r == []
    ensures s != [] ==> [s[0]] + r == s
  {
    if s == [] then [] else s[1..]
  }

  /** `s.replace(/\//g, "-")`. */
  function ReplaceSlashes(s: string): (r: string)
    ensures |r| == |s|
    ensures forall i :: 0 <= i < |s| ==> r[i] == (if s[i] == '/' then '-' else s[i])
  {
    if s == [] then [] else [if s[0] == '/' then '-' else s[0]] + ReplaceSlashes(s[1..])
  }

  predicate EndsWith(s: string, suffix: string) {
    |suffix| <= |s| && s[|s| - |suffix|..] == suffix
  }

  /** `s.replace(/\.yml$/, "")`: one ".yml" at the very end is removed. */
  function StripTemplateSuffix(s: string): (r: string)
    ensures EndsWith(s, TemplateSuffix) ==> r + TemplateSuffix == s
    ensures !EndsWith(s, TemplateSuffix) ==> r == s
  {
    if EndsWith(s, TemplateSuffix) then s[..|s| - |TemplateSuffix|] else s
  }

  /** `makeStackName(stackPath, project)`. */
  function MakeStackName(stackPath: string, project: Option<string>): (r: string)
    ensures forall i :: 0 <= i < |r| ==> r[i] != '/'
    ensures var s := Prefix(project) + DropFirst(stackPath);
            (|r| == |s| || |r| + |TemplateSuffix| == |s|) &&
            forall i :: 0 <= i < |r| ==> r[i] == (if s[i] == '/' then '-' else s[i])
    ensures var s := Prefix(project) + DropFirst(stackPath);
            |r| + |TemplateSuffix| == |s| <==> EndsWith(s, TemplateSuffix)
  {
    var s := Prefix(project) + DropFirst(stackPath);
    ReplaceSlashesEndsWith(s, TemplateSuffix);
    StripTemplateSuffix(ReplaceSlashes(s))
  }

  /** A suffix without "/" or "-" is neither created nor removed by replacing slashes. */
  lemma ReplaceSlashesEndsWith(s: string, suffix: string)
    requires '/' !in suffix && '-' !in suffix
    ensures EndsWith(ReplaceSlashes(s), suffix) <==> EndsWith(s, suffix)
  {
    var t := ReplaceSlashes(s);
    if |suffix| <= |s| {
      var n := |s| - |suffix|;
      if EndsWith(s, suffix) || EndsWith(t, suffix) {
        forall k | n <= k < |s| ensures t[k] == s[k] {
          assert s[k] == s[n..][k - n] && t[k] == t[n..][k - n];
        }
        assert t[n..] == s[n..];
      }
    }
  }

  /** ".yml" goes only once, even when what precedes it ends in ".yml" too. */
  lemma StripTemplateSuffixOnce(s: string)
    ensures StripTemplateSuffix(s + TemplateSuffix) == s
    ensures StripTemplateSuffix(s + TemplateSuffix + TemplateSuffix) == s + TemplateSuffix
  {
    assert (s + TemplateSuffix)[|s|..] == TemplateSuffix;
    assert (s + TemplateSuffix)[..|s|] == s;
    assert (s + TemplateSuffix + TemplateSuffix)[|s + TemplateSuffix|..] == TemplateSuffix;
    assert (s + TemplateSuffix + TemplateSuffix)[..|s + TemplateSuffix|] == s + TemplateSuffix;
  }

  /**
   * A stack path that does not end in ".yml" keeps every character after the first: the
   * name is the prefix and the rest of the path, with slashes replaced.
   */
  lemma MakeStackNameKeepsLength(stackPath: string, project: Option<string>)
    requires stackPath != [] && !EndsWith(stackPath, TemplateSuffix)
    ensures |MakeStackName(stackPath, project)| == |Prefix(project)| + |stackPath| - 1
  {
    var p := Prefix(project);
    var rest := DropFirst(stackPath);
    var t := p + rest;
    if |rest| >= |TemplateSuffix| {
      assert stackPath == [stackPath[0]] + rest;
      assert t[|t| - 4..] == rest[|rest| - 4..] == stackPath[|stackPath| - 4..];
    } else if p != [] && |t| >= |TemplateSuffix| {
      assert p[|p| - 1] == '-';
      assert t[|t| - 4..][|p| - 1 - (|t| - 4)] == t[|p| - 1] == '-';
    }
    assert !EndsWith(t, TemplateSuffix);
  }

  /** "/dev/vpc.yml" in project "example" is the stack "example-dev-vpc". */
  lemma ExampleStackName()
    ensures MakeStackName("/dev/vpc.yml", Some("example")) == "example-dev-vpc"
  {
    var t := Prefix(Some("example")) + DropFirst("/dev/vpc.yml");
    assert t == "example-dev/vpc.yml";
    var s := ReplaceSlashes(t);
    var expected := "example-dev-vpc.yml";
    assert |s| == |expected|;
    forall i | 0 <= i < |s| ensures s[i] == expected[i] {
    }
    assert s == expected;
    assert expected[|expected| - 4..] == TemplateSuffix;
    assert expected[..|expected| - 4] == "example-dev-vpc";
  }
}
