/** How the operator combines a profile, files, flags and compiled defaults into one configuration. */
module Render {
  import opened Options
  import opened Values
  import opened Writes

  /**
   * files are decoded, None for one that cannot be read; profiles gives the built-in profiles;
   * overlay is the compiled repo and tag. printed is the text of a value, split the splitting of
   * path text, and parsed the value of a setting, which may depend on its path text.
   */
  datatype Inputs = Inputs(
    files: seq<Option<Tree>>,
    flags: seq<Assignment>,
    profiles: string -> Option<Tree>,
    overlay: seq<Assignment>,
    printed: Value -> string,
    split: string -> Path,
    parsed: (string, string) -> Value)

  datatype Outcome = Panics | Fails | Merged(config: Tree)

  /** Decoding yields no named nodes, and a setting parses to a number, a truth value or a text. */
  ghost predicate Decoded(i: Inputs) {
    && (forall n :: 0 <= n < |i.files| && i.files[n].Some? ==> Plain(i.files[n].value))
    && AllPlain(i.flags)
    && (forall name :: i.profiles(name).Some? ==> Plain(i.profiles(name).value))
    && AllPlain(i.overlay)
    && ParsesToScalars(i)
    && (forall name :: name in TOP_LEVEL ==> i.split(GlobalText(name)) == GlobalPath(name))
  }

  ghost predicate ParsesToScalars(i: Inputs) {
    forall path, text :: Scalar(i.parsed(path, text))
  }

  ghost predicate AllPlain(flags: seq<Assignment>) {
    forall n :: 0 <= n < |flags| ==> Plain(flags[n].value)
  }

  const TOP_LEVEL := ["repo", "tag"]

  /** Where a top-level value is carried to, as text and as a path. */
  function GlobalText(name: string): string {
    "spec.values.global." + name
  }

  function GlobalPath(name: string): Path {
    ["spec", "values", "global", name]
  }

  predicate IsSpace(c: char) {
    c == ' ' || c == '\t' || c == '\n' || c == '\r'
  }

  function Trim(s: string): string {
    if s == [] then []
    else if IsSpace(s[0]) then Trim(s[1..])
    else if IsSpace(s[|s| - 1]) then Trim(s[..|s| - 1])
    else s
  }

  function Equals(s: string): nat {
    if s == [] then 0 else Equals(s[1..]) + if s[0] == '=' then 1 else 0
  }

  function BeforeEquals(s: string): string {
    if s == [] || s[0] == '=' then [] else [s[0]] + BeforeEquals(s[1..])
  }

  /** Path and value of a setting; a text without exactly one equals sign is all path. */
  function GetPV(s: string): (string, string) {
    if Equals(s) != 1 || |BeforeEquals(s)| >= |s| then (s, "")
    else (Trim(BeforeEquals(s)), Trim(s[|BeforeEquals(s)| + 1..]))
  }

  const SPEC_VALUES: Path := ["spec", "values"]
  const EMPTY: Tree := Node(false, map[])
  const CONFIG_BASE: Tree := Node(false, map[
    "apiVersion" := Text("install.dubbo.apache.org/v1alpha1"),
    "kind" := Text("DubboOperator"),
    "metadata" := EMPTY,
    "spec" := EMPTY])

  /** A missing or null spec in a file counts as none. */
  function DropNullSpec(m: Tree): Tree {
    if Field(m, "spec").Null? then Without(m, {"spec"}) else m
  }

  function Layered(files: seq<Option<Tree>>): Option<Tree> {
    if files == [] then Some(CONFIG_BASE)
    else if files[|files| - 1].None? then None
    else
      match Layered(files[..|files| - 1])
      case None => None
      case Some(below) => Some(Merge(below, DropNullSpec(files[|files| - 1].value)))
  }

  function SetSpecPaths(base: Tree, flags: seq<Assignment>): SetResult {
    if flags == [] then Done(base)
    else
      match SetSpecPaths(base, flags[..|flags| - 1])
      case Panicked => Panicked
      case Done(t) => Set(t, flags[|flags| - 1].path, flags[|flags| - 1].value)
  }

  function ProfileName(config: Tree): string {
    match At(config, ["spec", "profile"])
    case Some(Text(t)) => if t == "" then "default" else t
    case _ => "default"
  }

  /** Another profile is laid over the default one. */
  function ReadProfile(profiles: string -> Option<Tree>, name: string): Option<Tree> {
    if name == "default" || profiles("default").None? then profiles("default")
    else if profiles(name).None? then None
    else Some(Merge(profiles("default").value, profiles(name).value))
  }

  /** The setting that carries a top-level value down is made and read as text. */
  function Carried(i: Inputs, name: string, v: Value): Assignment {
    var (path, text) := GetPV(GlobalText(name) + "=" + i.printed(v));
    Assignment(i.split(path), i.parsed(path, text))
  }

  /** Carry spec.repo or spec.tag down to the Helm values. */
  function TranslateOne(i: Inputs, base: Tree, name: string): SetResult {
    match At(base, ["spec", name])
    case None => Done(base)
    case Some(v) => Set(base, Carried(i, name, v).path, Carried(i, name, v).value)
  }

  function Translate(i: Inputs, base: Tree, names: seq<string>): SetResult {
    if names == [] then Done(base)
    else
      match Translate(i, base, names[..|names| - 1])
      case Panicked => Panicked
      case Done(t) => TranslateOne(i, t, names[|names| - 1])
  }

  function UserValues(config: Tree): Option<Tree> {
    match At(config, SPEC_VALUES)
    case Some(v) => if v.Node? then Some(v) else None
    case None => None
  }

  function Wrapped(v: Tree): Tree {
    Node(false, map["spec" := Node(true, map["values" := Node(true, v.fields)])])
  }

  function WithUserValues(t: Tree, config: Tree): Tree {
    match UserValues(config)
    case None => t
    case Some(v) => Merge(t, Wrapped(v))
  }

  /** Files in order, then flags in order. */
  function UserConfig(i: Inputs): SetResult {
    match Layered(i.files)
    case None => Panicked
    case Some(m) => SetSpecPaths(m, i.flags)
  }

  /** The profile, then the compiled repo and tag. */
  function Defaults(i: Inputs, config: Tree): SetResult {
    match ReadProfile(i.profiles, ProfileName(config))
    case None => Panicked
    case Some(p) => SetSpecPaths(p, i.overlay)
  }

  /** names is the order in which the two top-level values are carried down. */
  function Combined(i: Inputs, names: seq<string>): Outcome {
    if Layered(i.files).None? then Fails
    else
      match UserConfig(i)
      case Panicked => Panics
      case Done(config) =>
        if ReadProfile(i.profiles, ProfileName(config)).None? then Fails
        else
          match Defaults(i, config)
          case Panicked => Panics
          case Done(base) =>
            match Translate(i, Merge(base, config), names)
            case Panicked => Panics
            case Done(t) => Merged(WithUserValues(t, config))
  }

  // ---------------------------------------------------------------------------------------------
  // The steps as the operator takes them

  lemma DropNullSpecIsPlain(m: Tree)
    requires Plain(m)
    ensures Plain(DropNullSpec(m))
  {
  }

  lemma {:induction false} OneUnreadable(files: seq<Option<Tree>>, n: nat)
    requires n < |files| && files[n].None?
    ensures Layered(files).None?
    decreases |files|
  {
    if n < |files| - 1 {
      OneUnreadable(files[..|files| - 1], n);
    }
  }

  method LayerFiles(files: seq<Option<Tree>>) returns (r: Option<Tree>)
    requires forall n :: 0 <= n < |files| && files[n].Some? ==> Plain(files[n].value)
    ensures r == Layered(files) && (r.Some? ==> Plain(r.value))
  {
    var config := CONFIG_BASE;
    for n := 0 to |files|
      invariant config.Node? && Plain(config) && Layered(files[..n]) == Some(config)
    {
      if files[n].None? {
        OneUnreadable(files, n);
        return None;
      }
      assert files[..n + 1][..n] == files[..n];
      DropNullSpecIsPlain(files[n].value);
      MergeIsPlain(config, DropNullSpec(files[n].value));
      config := MergeFrom(config, DropNullSpec(files[n].value));
    }
    assert files[..|files|] == files;
    return Some(config);
  }

  lemma {:induction false} OnePanics(base: Tree, flags: seq<Assignment>, n: nat)
    requires n <= |flags| && SetSpecPaths(base, flags[..n]).Panicked?
    ensures SetSpecPaths(base, flags).Panicked?
    decreases |flags|
  {
    if n == |flags| {
      assert flags[..n] == flags;
    } else {
      assert flags[..|flags| - 1][..n] == flags[..n];
      OnePanics(base, flags[..|flags| - 1], n);
    }
  }

  method SetAll(base: Tree, flags: seq<Assignment>) returns (r: SetResult)
    requires Plain(base) && AllPlain(flags)
    ensures r == SetSpecPaths(base, flags) && (r.Done? ==> Plain(r.tree))
  {
    r := Done(base);
    for n := 0 to |flags|
      invariant r.Done? && Plain(r.tree) && SetSpecPaths(base, flags[..n]) == r
    {
      assert flags[..n + 1][..n] == flags[..n];
      var s := Set(r.tree, flags[n].path, flags[n].value);
      if s.Panicked? {
        OnePanics(base, flags, n + 1);
        return Panicked;
      }
      SetIsPlain(r.tree, flags[n].path, flags[n].value);
      r := s;
    }
    assert flags[..|flags|] == flags;
  }

  lemma TranslateOneIsPlain(i: Inputs, base: Tree, name: string)
    requires Decoded(i) && Plain(base) && TranslateOne(i, base, name).Done?
    ensures Plain(TranslateOne(i, base, name).tree)
  {
    match At(base, ["spec", name])
    case None =>
    case Some(v) => SetIsPlain(base, Carried(i, name, v).path, Carried(i, name, v).value);
  }

  lemma {:induction false} TranslateIsPlain(i: Inputs, base: Tree, names: seq<string>)
    requires Decoded(i) && Plain(base) && Translate(i, base, names).Done?
    ensures Plain(Translate(i, base, names).tree)
  {
    if names != [] {
      TranslateIsPlain(i, base, names[..|names| - 1]);
      TranslateOneIsPlain(i, Translate(i, base, names[..|names| - 1]).tree, names[|names| - 1]);
    }
  }

  method TranslateToHelm(i: Inputs, base: Tree) returns (r: SetResult, names: seq<string>)
    ensures names == ["repo", "tag"] || names == ["tag", "repo"]
    ensures r == Translate(i, base, names)
  {
    names := ["repo", "tag"];
    if * {
      names := ["tag", "repo"];
    }
    r := TranslateOne(i, base, names[0]);
    assert names[..1][..0] == [] && names[..2] == names;
    assert Translate(i, base, names[..1]) == r;
    if r.Done? {
      r := TranslateOne(i, r.tree, names[1]);
    }
  }

  /** The result, for one of the two orders in which the top-level values may be carried down. */
  method MergeInputs(i: Inputs) returns (r: Outcome)
    requires Decoded(i)
    ensures r == Combined(i, ["repo", "tag"]) || r == Combined(i, ["tag", "repo"])
  {
    var files := LayerFiles(i.files);
    if files.None? {
      return Fails;
    }
    var user := SetAll(files.value, i.flags);
    if user.Panicked? {
      return Panics;
    }
    var config := user.tree;
    var profile := ReadProfile(i.profiles, ProfileName(config));
    if profile.None? {
      return Fails;
    }
    ReadProfileIsPlain(i, ProfileName(config));
    var base := SetAll(profile.value, i.overlay);
    if base.Panicked? {
      return Panics;
    }
    var merged := MergeFrom(base.tree, config);
    MergeIsPlain(base.tree, config);
    var translated, names := TranslateToHelm(i, merged);
    if translated.Panicked? {
      return Panics;
    }
    TranslateIsPlain(i, merged, names);
    var userValues := UserValues(config);
    if userValues.None? {
      return Merged(translated.tree);
    }
    var all := MergeFrom(translated.tree, Wrapped(userValues.value));
    return Merged(all);
  }

  lemma ReadProfileIsPlain(i: Inputs, name: string)
    requires Decoded(i) && ReadProfile(i.profiles, name).Some?
    ensures Plain(ReadProfile(i.profiles, name).value)
  {
    if name != "default" {
      MergeIsPlain(i.profiles("default").value, i.profiles(name).value);
    }
  }

  // ---------------------------------------------------------------------------------------------
  // Precedence

  lemma {:induction false} LayeredIsPlain(files: seq<Option<Tree>>)
    requires forall n :: 0 <= n < |files| && files[n].Some? ==> Plain(files[n].value)
    requires Layered(files).Some?
    ensures Plain(Layered(files).value)
  {
    if files != [] {
      LayeredIsPlain(files[..|files| - 1]);
      DropNullSpecIsPlain(files[|files| - 1].value);
      MergeIsPlain(Layered(files[..|files| - 1]).value, DropNullSpec(files[|files| - 1].value));
    }
  }

  lemma {:induction false} SetSpecPathsIsPlain(base: Tree, flags: seq<Assignment>)
    requires Plain(base) && AllPlain(flags) && SetSpecPaths(base, flags).Done?
    ensures Plain(SetSpecPaths(base, flags).tree)
  {
    if flags != [] {
      SetSpecPathsIsPlain(base, flags[..|flags| - 1]);
      SetIsPlain(SetSpecPaths(base, flags[..|flags| - 1]).tree, flags[|flags| - 1].path, flags[|flags| - 1].value);
    }
  }

  /** Setting by setting, a later one leaves alone what lies apart from its path. */
  lemma {:induction false} LaterFlagsLeave(base: Tree, flags: seq<Assignment>, n: nat, q: Path)
    requires n <= |flags| && SetSpecPaths(base, flags).Done?
    requires forall m :: n <= m < |flags| ==> Apart(flags[m].path, q)
    ensures SetSpecPaths(base, flags[..n]).Done?
    ensures At(SetSpecPaths(base, flags).tree, q) == At(SetSpecPaths(base, flags[..n]).tree, q)
    decreases |flags|
  {
    if n == |flags| {
      assert flags[..n] == flags;
    } else {
      var init := flags[..|flags| - 1];
      assert init[..n] == flags[..n];
      LaterFlagsLeave(base, init, n, q);
      SetLeavesOthers(SetSpecPaths(base, init).tree, flags[|flags| - 1].path, flags[|flags| - 1].value, q);
    }
  }

  /** A flag holds unless a later one speaks of the same place, or a value other than a node was in its way. */
  lemma LastFlagWins(base: Tree, flags: seq<Assignment>, n: nat)
    requires n < |flags| && SetSpecPaths(base, flags).Done? && flags[n].path != []
    requires forall m :: n < m < |flags| ==> Apart(flags[m].path, flags[n].path)
    ensures SetSpecPaths(base, flags[..n]).Done?
    ensures
      Obstacle(SetSpecPaths(base, flags[..n]).tree, flags[n].path).None? ==>
        At(SetSpecPaths(base, flags).tree, flags[n].path) == Some(flags[n].value)
  {
    LaterFlagsLeave(base, flags, n + 1, flags[n].path);
    assert flags[..n + 1][..n] == flags[..n];
    SetOutcome(SetSpecPaths(base, flags[..n]).tree, flags[n].path, flags[n].value);
  }

  /** A leaf of a file holds unless a later file says something on its path. */
  lemma {:induction false} LastFileWins(files: seq<Option<Tree>>, n: nat, q: Path)
    requires forall m :: 0 <= m < |files| && files[m].Some? ==> Plain(files[m].value)
    requires n < |files| && Layered(files).Some? && files[n].Some?
    requires IsLeaf(At(DropNullSpec(files[n].value), q))
    requires forall m :: n < m < |files| && files[m].Some? ==> Silent(DropNullSpec(files[m].value), q)
    ensures At(Layered(files).value, q) == At(DropNullSpec(files[n].value), q)
    decreases |files|
  {
    var init, last := files[..|files| - 1], files[|files| - 1];
    LayeredIsPlain(init);
    MergeAt(Layered(init).value, DropNullSpec(last.value), q);
    if n < |files| - 1 {
      LastFileWins(init, n, q);
    }
  }

  /** v has nothing at q, and nothing that would cut q off. */
  predicate Silent(v: Tree, q: Path) {
    At(v, q).None? && !Blocked(v, q)
  }

  lemma WrappedIsElsewhere(v: Tree, q: Path)
    requires Apart(q, SPEC_VALUES)
    ensures Silent(Wrapped(v), q)
  {
    if q[0] == "spec" {
      ApartBelow(q, SPEC_VALUES);
      assert SPEC_VALUES[1..] == ["values"];
      assert q[1..][0] != "values";
    }
  }

  lemma WrappedAt(v: Tree, p: Path)
    requires p != []
    ensures At(Wrapped(v), SPEC_VALUES + p) == At(v, p)
    ensures Blocked(Wrapped(v), SPEC_VALUES + p) <==> Blocked(v, p)
  {
    var values := Node(true, v.fields);
    var spec := Node(true, map["values" := values]);
    assert (SPEC_VALUES + p)[1..] == ["values"] + p && (["values"] + p)[1..] == p;
    assert At(Wrapped(v), SPEC_VALUES + p) == At(spec, ["values"] + p) == At(values, p) == At(v, p);
    assert Blocked(Wrapped(v), SPEC_VALUES + p) == Blocked(spec, ["values"] + p) == Blocked(values, p) == Blocked(v, p);
  }

  lemma {:induction false} BelowIsBelow(v: Value, p: Path, q: Path)
    requires At(v, p).Some?
    ensures At(v, p + q) == At(At(v, p).value, q)
    ensures At(v, p).value.Node? ==> (Blocked(v, p + q) <==> Blocked(At(v, p).value, q))
    decreases |p|
  {
    if p == [] {
      assert p + q == q;
    } else {
      assert (p + q)[1..] == p[1..] + q;
      BelowIsBelow(v.fields[p[0]], p[1..], q);
    }
  }

  lemma {:induction false} NothingBelowNothing(v: Value, p: Path, q: Path)
    requires At(v, p + q).Some?
    ensures At(v, p).Some? && (q != [] ==> At(v, p).value.Node?)
    decreases |p|
  {
    if p == [] {
      assert p + q == q;
    } else {
      assert (p + q)[1..] == p[1..] + q;
      NothingBelowNothing(v.fields[p[0]], p[1..], q);
    }
  }

  /** The parts of a successful combination. */
  ghost predicate Stages(i: Inputs, names: seq<string>, config: Tree, base: Tree, merged: Tree, t: Tree, r: Tree) {
    && UserConfig(i) == Done(config)
    && Defaults(i, config) == Done(base)
    && merged == Merge(base, config)
    && Translate(i, merged, names) == Done(t)
    && r == WithUserValues(t, config)
  }

  lemma HasStages(i: Inputs, names: seq<string>) returns (config: Tree, base: Tree, merged: Tree, t: Tree, r: Tree)
    requires Decoded(i) && Combined(i, names).Merged?
    ensures Stages(i, names, config, base, merged, t, r) && r == Combined(i, names).config
    ensures Plain(config) && Plain(base) && Plain(merged) && Plain(t)
  {
    config := UserConfig(i).tree;
    base := Defaults(i, config).tree;
    merged := Merge(base, config);
    t := Translate(i, merged, names).tree;
    r := WithUserValues(t, config);
    LayeredIsPlain(i.files);
    SetSpecPathsIsPlain(Layered(i.files).value, i.flags);
    ReadProfileIsPlain(i, ProfileName(config));
    SetSpecPathsIsPlain(ReadProfile(i.profiles, ProfileName(config)).value, i.overlay);
    MergeIsPlain(base, config);
    TranslateIsPlain(i, merged, names);
  }

  /** A Helm value the user gives is in the result, whatever profile, compiled defaults and translation say. */
  lemma UserValueSurvives(i: Inputs, names: seq<string>, p: Path)
    requires Decoded(i) && Combined(i, names).Merged? && p != []
    requires IsLeaf(At(UserConfig(i).tree, SPEC_VALUES + p))
    ensures At(Combined(i, names).config, SPEC_VALUES + p) == At(UserConfig(i).tree, SPEC_VALUES + p)
  {
    var config, base, merged, t, r := HasStages(i, names);
    NothingBelowNothing(config, SPEC_VALUES, p);
    BelowIsBelow(config, SPEC_VALUES, p);
    var v := UserValues(config).value;
    WrappedAt(v, p);
    MergeAt(t, Wrapped(v), SPEC_VALUES + p);
  }

  /** No value present when its turn comes is carried to a path that overlaps q. */
  ghost predicate Uncarried(i: Inputs, base: Tree, names: seq<string>, q: Path) {
    forall n :: 0 <= n < |names| && Translate(i, base, names[..n]).Done? ==>
      ApartWhenPresent(i, Translate(i, base, names[..n]).tree, names[n], q)
  }

  predicate ApartWhenPresent(i: Inputs, t: Tree, name: string, q: Path) {
    match At(t, ["spec", name])
    case None => true
    case Some(v) => Apart(Carried(i, name, v).path, q)
  }

  lemma {:induction false} TranslateLeaves(i: Inputs, base: Tree, names: seq<string>, q: Path)
    requires Translate(i, base, names).Done? && Uncarried(i, base, names, q)
    ensures At(Translate(i, base, names).tree, q) == At(base, q)
  {
    if names != [] {
      var n := |names| - 1;
      UncarriedBefore(i, base, names, q);
      TranslateLeaves(i, base, names[..n], q);
      var t := Translate(i, base, names[..n]).tree;
      assert ApartWhenPresent(i, t, names[n], q);
      match At(t, ["spec", names[n]])
      case None =>
      case Some(v) => SetLeavesOthers(t, Carried(i, names[n], v).path, Carried(i, names[n], v).value, q);
    }
  }

  lemma UncarriedBefore(i: Inputs, base: Tree, names: seq<string>, q: Path)
    requires names != [] && Uncarried(i, base, names, q)
    ensures Uncarried(i, base, names[..|names| - 1], q)
  {
    var init := names[..|names| - 1];
    forall n | 0 <= n < |init| && Translate(i, base, init[..n]).Done?
      ensures ApartWhenPresent(i, Translate(i, base, init[..n]).tree, init[n], q)
    {
      assert init[..n] == names[..n];
    }
  }

  /**
   * Outside the Helm values: a leaf the user gives is in the result, and where the user is silent
   * the profile with the compiled defaults shows through.
   */
  lemma UserOverDefaults(i: Inputs, names: seq<string>, q: Path)
    requires Decoded(i) && Combined(i, names).Merged? && Apart(q, SPEC_VALUES)
    ensures UserConfig(i).Done? && Defaults(i, UserConfig(i).tree).Done?
    ensures
      var config, r := UserConfig(i).tree, Combined(i, names).config;
      Uncarried(i, Merge(Defaults(i, config).tree, config), names, q) ==>
        && (IsLeaf(At(config, q)) ==> At(r, q) == At(config, q))
        && (Silent(config, q) ==> At(r, q) == At(Defaults(i, config).tree, q))
  {
    var config, base, merged, t, r := HasStages(i, names);
    MergeAt(base, config, q);
    if Uncarried(i, merged, names, q) {
      TranslateLeaves(i, merged, names, q);
    }
    if UserValues(config).Some? {
      WrappedIsElsewhere(UserValues(config).value, q);
      MergeAt(t, Wrapped(UserValues(config).value), q);
    }
  }

  /** Within the Helm values: where the user is silent, what the translation left is in the result. */
  lemma TranslationOverDefaults(i: Inputs, names: seq<string>, p: Path)
    requires Decoded(i) && Combined(i, names).Merged? && p != []
    ensures UserConfig(i).Done? && Defaults(i, UserConfig(i).tree).Done?
    ensures
      var config, r := UserConfig(i).tree, Combined(i, names).config;
      var merged := Merge(Defaults(i, config).tree, config);
      Silent(config, SPEC_VALUES + p) ==>
        At(r, SPEC_VALUES + p) == At(Translate(i, merged, names).tree, SPEC_VALUES + p)
  {
    var config, base, merged, t, r := HasStages(i, names);
    if Silent(config, SPEC_VALUES + p) && UserValues(config).Some? {
      BelowIsBelow(config, SPEC_VALUES, p);
      WrappedAt(UserValues(config).value, p);
      MergeAt(t, Wrapped(UserValues(config).value), SPEC_VALUES + p);
    }
  }

  /** A file whose spec is null counts as silent about it; otherwise a file counts as it is. */
  lemma NullSpecIsSilent(m: Tree, q: Path)
    requires q != []
    ensures At(m, ["spec"]) == Some(Null) && q[0] == "spec" ==> Silent(DropNullSpec(m), q)
    ensures At(m, ["spec"]) != Some(Null) || q[0] != "spec" ==> At(DropNullSpec(m), q) == At(m, q)
  {
    assert ["spec"][1..] == [];
  }

  // ---------------------------------------------------------------------------------------------
  // Profiles

  /** The profile the user names, by a text at spec.profile that is not empty; otherwise the default one. */
  lemma ProfileIsNamed(config: Tree, name: string)
    ensures name != "" && At(config, ["spec", "profile"]) == Some(Text(name)) ==> ProfileName(config) == name
    ensures (forall t :: t != "" ==> At(config, ["spec", "profile"]) != Some(Text(t))) ==>
              ProfileName(config) == "default"
  {
  }

  /** A leaf of the named profile is in the base; where it is silent, the default profile shows. */
  lemma NamedProfileWins(i: Inputs, name: string, q: Path)
    requires Decoded(i) && ReadProfile(i.profiles, name).Some?
    ensures i.profiles("default").Some? && i.profiles(name).Some?
    ensures
      var base, named := ReadProfile(i.profiles, name).value, i.profiles(name).value;
      && (IsLeaf(At(named, q)) ==> At(base, q) == At(named, q))
      && (name != "default" && Silent(named, q) ==> At(base, q) == At(i.profiles("default").value, q))
  {
    if name != "default" {
      MergeAt(i.profiles("default").value, i.profiles(name).value, q);
    }
  }

  /** A profile can be read exactly when it is there and the default one is. */
  lemma ProfileIsThereIff(profiles: string -> Option<Tree>, name: string)
    ensures ReadProfile(profiles, name).Some? <==> profiles("default").Some? && profiles(name).Some?
  {
  }

  /**
   * Outside the Helm values, where neither the user nor the compiled settings speak: the result has
   * the leaf of the profile that the user's configuration names, and where that is silent what the
   * default profile has.
   */
  lemma ProfileUnderUser(i: Inputs, names: seq<string>, q: Path)
    requires Decoded(i) && Combined(i, names).Merged? && Apart(q, SPEC_VALUES)
    requires Silent(UserConfig(i).tree, q) && forall n :: 0 <= n < |i.overlay| ==> Apart(i.overlay[n].path, q)
    requires Uncarried(i, Merge(Defaults(i, UserConfig(i).tree).tree, UserConfig(i).tree), names, q)
    ensures
      var name, r := ProfileName(UserConfig(i).tree), Combined(i, names).config;
      && i.profiles(name).Some? && i.profiles("default").Some?
      && (IsLeaf(At(i.profiles(name).value, q)) ==> At(r, q) == At(i.profiles(name).value, q))
      && (Silent(i.profiles(name).value, q) ==> At(r, q) == At(i.profiles("default").value, q))
  {
    var config := UserConfig(i).tree;
    UserOverDefaults(i, names, q);
    NamedProfileWins(i, ProfileName(config), q);
    LaterFlagsLeave(ReadProfile(i.profiles, ProfileName(config)).value, i.overlay, 0, q);
    assert i.overlay[..0] == [];
  }

  /** A compiled setting is over the profile: where the user is silent, it is in the result. */
  lemma OverlayOverProfile(i: Inputs, names: seq<string>, n: nat)
    requires Decoded(i) && Combined(i, names).Merged? && n < |i.overlay|
    requires Apart(i.overlay[n].path, SPEC_VALUES) && Silent(UserConfig(i).tree, i.overlay[n].path)
    requires forall m :: n < m < |i.overlay| ==> Apart(i.overlay[m].path, i.overlay[n].path)
    requires
      Uncarried(i, Merge(Defaults(i, UserConfig(i).tree).tree, UserConfig(i).tree), names, i.overlay[n].path)
    ensures
      var profile := ReadProfile(i.profiles, ProfileName(UserConfig(i).tree));
      && profile.Some? && SetSpecPaths(profile.value, i.overlay[..n]).Done?
      && (Obstacle(SetSpecPaths(profile.value, i.overlay[..n]).tree, i.overlay[n].path).None? ==>
            At(Combined(i, names).config, i.overlay[n].path) == Some(i.overlay[n].value))
  {
    UserOverDefaults(i, names, i.overlay[n].path);
    LastFlagWins(ReadProfile(i.profiles, ProfileName(UserConfig(i).tree)).value, i.overlay, n);
  }

  /** An error is returned exactly for a file that cannot be read, or a profile that is not there. */
  lemma FailsIff(i: Inputs, names: seq<string>)
    ensures
      Combined(i, names).Fails? <==>
        || (exists n :: 0 <= n < |i.files| && i.files[n].None?)
        || (UserConfig(i).Done? && i.profiles("default").None?)
        || (UserConfig(i).Done? && i.profiles(ProfileName(UserConfig(i).tree)).None?)
  {
    LayeredIff(i.files);
    if UserConfig(i).Done? {
      ProfileIsThereIff(i.profiles, ProfileName(UserConfig(i).tree));
    }
  }

  lemma {:induction false} LayeredIff(files: seq<Option<Tree>>)
    ensures Layered(files).None? <==> exists n :: 0 <= n < |files| && files[n].None?
  {
    if files != [] {
      var init := files[..|files| - 1];
      LayeredIff(init);
      assert forall n :: 0 <= n < |init| ==> init[n] == files[n];
      if n :| 0 <= n < |files| && files[n].None? && n < |init| {
        assert init[n].None?;
      }
    }
  }

  // ---------------------------------------------------------------------------------------------
  // Where top-level values go

  lemma {:induction false} EqualsConcat(a: string, b: string)
    ensures Equals(a + b) == Equals(a) + Equals(b)
    ensures Equals(a) == 0 && b != [] && b[0] == '=' ==> BeforeEquals(a + b) == a
  {
    if a == [] {
      assert a + b == b;
    } else {
      EqualsConcat(a[1..], b);
      assert (a + b)[1..] == a[1..] + b;
      assert a == [a[0]] + a[1..];
    }
  }

  lemma {:induction false} NoEquals(s: string)
    ensures Equals(s) == 0 <==> '=' !in s
  {
    if s != [] {
      NoEquals(s[1..]);
      assert s == [s[0]] + s[1..];
    }
  }

  lemma GlobalTextIsPlain(name: string)
    requires name in TOP_LEVEL
    ensures Equals(GlobalText(name)) == 0 && Trim(GlobalText(name)) == GlobalText(name)
  {
    NoEquals(GlobalText(name));
  }

  /**
   * A value whose text has no equals sign is carried to where it is meant to go. With one, the whole
   * text becomes the path, and the value there that of an empty text.
   */
  lemma CarriedIff(i: Inputs, name: string, v: Value)
    requires Decoded(i) && name in TOP_LEVEL
    ensures '=' !in i.printed(v) ==>
              Carried(i, name, v) == Assignment(GlobalPath(name), i.parsed(GlobalText(name), Trim(i.printed(v))))
    ensures '=' in i.printed(v) ==>
              var text := GlobalText(name) + "=" + i.printed(v);
              Carried(i, name, v) == Assignment(i.split(text), i.parsed(text, ""))
  {
    var path, value := GlobalText(name), i.printed(v);
    var text := path + "=" + value;
    assert text == path + ("=" + value) && ("=" + value)[1..] == value;
    GlobalTextIsPlain(name);
    EqualsConcat(path, "=" + value);
    NoEquals(value);
    assert text[|path| + 1..] == value;
  }

  /** No top-level value present has an equals sign in its text. */
  predicate Meant(i: Inputs, base: Tree) {
    forall name <- TOP_LEVEL ::
      match At(base, ["spec", name])
      case None => true
      case Some(v) => '=' !in i.printed(v)
  }

  lemma TranslateOneLeaves(i: Inputs, base: Tree, name: string, q: Path)
    requires Decoded(i) && name in TOP_LEVEL && Meant(i, base) && TranslateOne(i, base, name).Done?
    requires Apart(GlobalPath(name), q)
    ensures At(TranslateOne(i, base, name).tree, q) == At(base, q)
  {
    match At(base, ["spec", name])
    case None =>
    case Some(v) =>
      CarriedIff(i, name, v);
      SetLeavesOthers(base, Carried(i, name, v).path, Carried(i, name, v).value, q);
  }

  lemma MeantStays(i: Inputs, base: Tree, name: string)
    requires Decoded(i) && name in TOP_LEVEL && Meant(i, base) && TranslateOne(i, base, name).Done?
    ensures Meant(i, TranslateOne(i, base, name).tree)
  {
    forall other | other in TOP_LEVEL
      ensures At(TranslateOne(i, base, name).tree, ["spec", other]) == At(base, ["spec", other])
    {
      assert GlobalPath(name)[1] != ["spec", other][1];
      TranslateOneLeaves(i, base, name, ["spec", other]);
    }
  }

  lemma {:induction false} MeantAlong(i: Inputs, base: Tree, names: seq<string>)
    requires Decoded(i) && Meant(i, base) && (forall n :: 0 <= n < |names| ==> names[n] in TOP_LEVEL)
    requires Translate(i, base, names).Done?
    ensures Meant(i, Translate(i, base, names).tree)
  {
    if names != [] {
      MeantAlong(i, base, names[..|names| - 1]);
      MeantStays(i, Translate(i, base, names[..|names| - 1]).tree, names[|names| - 1]);
    }
  }

  /** If all is meant, a path apart from where the two values go is left alone by the translation. */
  lemma MeantIsUncarried(i: Inputs, base: Tree, names: seq<string>, q: Path)
    requires Decoded(i) && Meant(i, base) && (forall n :: 0 <= n < |names| ==> names[n] in TOP_LEVEL)
    requires forall name :: name in TOP_LEVEL ==> Apart(GlobalPath(name), q)
    ensures Uncarried(i, base, names, q)
  {
    forall n | 0 <= n < |names| && Translate(i, base, names[..n]).Done?
      ensures ApartWhenPresent(i, Translate(i, base, names[..n]).tree, names[n], q)
    {
      MeantAlong(i, base, names[..n]);
      match At(Translate(i, base, names[..n]).tree, ["spec", names[n]])
      case None =>
      case Some(v) => CarriedIff(i, names[n], v);
    }
  }
}
