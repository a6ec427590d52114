/** The order in which the operator carries the two top-level values down, which Go leaves open. */
module RenderOrder {
  import opened Options
  import opened Values
  import opened Writes
  import opened Render

  function InTurn(i: Inputs, base: Tree, first: string, second: string): SetResult {
    match TranslateOne(i, base, first)
    case Panicked => Panicked
    case Done(t) => TranslateOne(i, t, second)
  }

  lemma TranslateInTurn(i: Inputs, base: Tree, first: string, second: string)
    ensures Translate(i, base, [first, second]) == InTurn(i, base, first, second)
  {
    assert [first, second][..1] == [first];
    assert Translate(i, base, [first]) == TranslateOne(i, base, first);
  }

  // ---------------------------------------------------------------------------------------------
  // What each order changes

  function Source(name: string): Path {
    ["spec", name]
  }

  function CarriedFrom(i: Inputs, name: string, v: Option<Value>): Option<Assignment> {
    match v
    case None => None
    case Some(v) => Some(Carried(i, name, v))
  }

  /** What carrying a top-level value down writes when it comes first. */
  function First(i: Inputs, base: Tree, name: string): Option<Assignment> {
    CarriedFrom(i, name, At(base, Source(name)))
  }

  /** What a path reads after a write, in terms of the tree before it. */
  function ReadAfter(base: Tree, a: Option<Assignment>, q: Path): Option<Value> {
    if a.None? || Lost(base, a.value.path) || Apart(a.value.path, q) then At(base, q)
    else if a.value.path <= q then At(a.value.value, q[|a.value.path|..])
    else SetField(At(base, q), a.value.path[|q|..], a.value.value)
  }

  lemma ReadAfterIsRead(base: Tree, a: Option<Assignment>, q: Path)
    requires !Refused(base, a)
    ensures Write(base, a).Done? && At(Write(base, a).tree, q) == ReadAfter(base, a, q)
  {
    OneWrite(base, a);
    if a.Some? && !Lost(base, a.value.path) {
      SetReads(base, a.value.path, a.value.value, q);
      if Apart(a.value.path, q) {
        SetLeavesOthers(base, a.value.path, a.value.value, q);
      }
    } else if a.Some? {
      SetOutcome(base, a.value.path, a.value.value);
    }
  }

  /** What the other one then writes: it reads what the first has left at its source. */
  function Second(i: Inputs, base: Tree, first: string, second: string): Option<Assignment> {
    CarriedFrom(i, second, ReadAfter(base, First(i, base, first), Source(second)))
  }

  function Changes(i: Inputs, base: Tree, first: string, second: string): Option<set<Assignment>> {
    Net(base, First(i, base, first), Second(i, base, first, second))
  }

  lemma InTurnWritesBoth(i: Inputs, base: Tree, first: string, second: string)
    ensures InTurn(i, base, first, second) == WriteBoth(base, First(i, base, first), Second(i, base, first, second))
  {
    var a := First(i, base, first);
    OneWrite(base, a);
    if !Refused(base, a) {
      ReadAfterIsRead(base, a, Source(second));
    }
  }

  /** The two orders agree if and only if what they change, read off the tree before, is the same. */
  lemma OrdersAgreeIff(i: Inputs, base: Tree, x: string, y: string)
    requires ParsesToScalars(i)
    ensures InTurn(i, base, x, y) == InTurn(i, base, y, x) <==> Changes(i, base, x, y) == Changes(i, base, y, x)
  {
    InTurnWritesBoth(i, base, x, y);
    InTurnWritesBoth(i, base, y, x);
    SameNetIff(base, First(i, base, x), Second(i, base, x, y), First(i, base, y), Second(i, base, y, x));
  }

  /** No present value is carried to a path that overlaps the source of the other. */
  predicate SourcesKept(i: Inputs, base: Tree, x: string, y: string) {
    && (First(i, base, x).Some? ==> Apart(First(i, base, x).value.path, Source(y)))
    && (First(i, base, y).Some? ==> Apart(First(i, base, y).value.path, Source(x)))
  }

  /**
   * If the sources are left alone, the orders agree if and only if a value is absent, one of the
   * writes panics in any case, the paths do not overlap, both writes are the same, or both are lost.
   */
  lemma KeptSourcesAgreeIff(i: Inputs, base: Tree, x: string, y: string)
    requires ParsesToScalars(i) && SourcesKept(i, base, x, y)
    ensures
      var a, b := First(i, base, x), First(i, base, y);
      InTurn(i, base, x, y) == InTurn(i, base, y, x) <==>
        || a.None? || b.None? || Refused(base, a) || Refused(base, b)
        || Apart(a.value.path, b.value.path) || a == b || (Lost(base, a.value.path) && Lost(base, b.value.path))
  {
    OrdersAgreeIff(i, base, x, y);
    var a, b := First(i, base, x), First(i, base, y);
    assert Second(i, base, x, y) == b && Second(i, base, y, x) == a;
    SwappedNetIff(base, a, b);
  }

  lemma {:induction false} ObstacleStays(base: Value, p: Path, q: Path)
    requires p <= q && Obstacle(base, p).Some?
    ensures Obstacle(base, q) == Obstacle(base, p)
    decreases |p|
  {
    if base.Node? {
      BelowHead(p, q);
      ObstacleStays(base.fields[p[0]], p[1..], q[1..]);
    }
  }

  lemma SwappedNetIff(base: Tree, a: Option<Assignment>, b: Option<Assignment>)
    ensures Net(base, a, b) == Net(base, b, a) <==>
              || a.None? || b.None? || Refused(base, a) || Refused(base, b)
              || Apart(a.value.path, b.value.path) || a == b || (Lost(base, a.value.path) && Lost(base, b.value.path))
  {
    assert Change(base, a) + Change(base, b) == Change(base, b) + Change(base, a);
    if a.Some? && b.Some? && !Refused(base, a) && !Refused(base, b) {
      var p, q := a.value.path, b.value.path;
      assert p <= q && q <= p ==> p == q;
      if p <= q && Lost(base, p) {
        ObstacleStays(base, p, q);
      } else if q <= p && Lost(base, q) {
        ObstacleStays(base, q, p);
      } else if p == q && a != b {
        assert Change(base, a) != Change(base, b);
      }
    }
  }

  // ---------------------------------------------------------------------------------------------
  // The whole configuration

  /** The inputs get as far as the translation. */
  predicate Reaches(i: Inputs) {
    UserConfig(i).Done? && Defaults(i, UserConfig(i).tree).Done?
  }

  /** What is translated: the user's configuration over the defaults. */
  function Untranslated(i: Inputs): Tree
    requires Reaches(i)
  {
    Merge(Defaults(i, UserConfig(i).tree).tree, UserConfig(i).tree)
  }

  /** Laid over both at the end, the user's own values cover whatever differs. */
  predicate UserHides(config: Tree, r: SetResult, r': SetResult) {
    r.Done? && r'.Done? && UserValues(config).Some? && Hides(Wrapped(UserValues(config).value), r.tree, r'.tree)
  }

  lemma CombinedAfter(i: Inputs, first: string, second: string)
    ensures
      Combined(i, [first, second]) ==
      if Layered(i.files).None? then Outcome.Fails
      else if UserConfig(i).Panicked? then Outcome.Panics
      else if ReadProfile(i.profiles, ProfileName(UserConfig(i).tree)).None? then Outcome.Fails
      else if !Reaches(i) || InTurn(i, Untranslated(i), first, second).Panicked? then Outcome.Panics
      else Merged(WithUserValues(InTurn(i, Untranslated(i), first, second).tree, UserConfig(i).tree))
  {
    if Reaches(i) {
      TranslateInTurn(i, Untranslated(i), first, second);
    }
  }

  /**
   * Go visits the two top-level values in any order. The outcome is the same if and only if both
   * orders change the same, or neither panics and the user's own values cover the difference.
   */
  lemma TranslationOrderIff(i: Inputs)
    requires ParsesToScalars(i)
    ensures
      Combined(i, ["repo", "tag"]) == Combined(i, ["tag", "repo"]) <==>
        (Reaches(i) ==>
           var base := Untranslated(i);
           || Changes(i, base, "repo", "tag") == Changes(i, base, "tag", "repo")
           || UserHides(UserConfig(i).tree, InTurn(i, base, "repo", "tag"), InTurn(i, base, "tag", "repo")))
  {
    CombinedAfter(i, "repo", "tag");
    CombinedAfter(i, "tag", "repo");
    if Reaches(i) {
      var base := Untranslated(i);
      OrdersAgreeIff(i, base, "repo", "tag");
      var r, r' := InTurn(i, base, "repo", "tag"), InTurn(i, base, "tag", "repo");
      if r.Done? && r'.Done? && UserValues(UserConfig(i).tree).Some? {
        HidesIff(r.tree, r'.tree, Wrapped(UserValues(UserConfig(i).tree).value));
      }
    }
  }

  lemma MeantChangesSame(i: Inputs, base: Tree)
    requires Decoded(i) && Meant(i, base)
    ensures Changes(i, base, "repo", "tag") == Changes(i, base, "tag", "repo")
  {
    var x, y := At(base, Source("repo")), At(base, Source("tag"));
    if x.Some? {
      CarriedIff(i, "repo", x.value);
    }
    if y.Some? {
      CarriedIff(i, "tag", y.value);
    }
    assert GlobalPath("repo")[3] != GlobalPath("tag")[3];
    assert GlobalPath("repo")[1] != Source("tag")[1] && GlobalPath("tag")[1] != Source("repo")[1];
    KeptSourcesAgreeIff(i, base, "repo", "tag");
    OrdersAgreeIff(i, base, "repo", "tag");
  }

  /** In particular, values without an equals sign may be visited in either order. */
  lemma TranslationOrderIsIrrelevant(i: Inputs)
    requires Decoded(i) && (Reaches(i) ==> Meant(i, Untranslated(i)))
    ensures Combined(i, ["repo", "tag"]) == Combined(i, ["tag", "repo"])
  {
    TranslationOrderIff(i);
    if Reaches(i) {
      MeantChangesSame(i, Untranslated(i));
    }
  }

  lemma CarriedStays(i: Inputs, base: Tree, first: string, second: string)
    requires Decoded(i) && Meant(i, base) && first in TOP_LEVEL && second in TOP_LEVEL && first != second
    requires At(base, Source(first)).Some? && Obstacle(base, GlobalPath(first)).None?
    requires InTurn(i, base, first, second).Done?
    ensures At(InTurn(i, base, first, second).tree, GlobalPath(first)) ==
            Some(Carried(i, first, At(base, Source(first)).value).value)
  {
    var v := At(base, Source(first)).value;
    CarriedIff(i, first, v);
    SetOutcome(base, GlobalPath(first), Carried(i, first, v).value);
    MeantStays(i, base, first);
    assert GlobalPath(first)[3] != GlobalPath(second)[3];
    TranslateOneLeaves(i, TranslateOne(i, base, first).tree, second, GlobalPath(first));
  }

  lemma CarriedSecond(i: Inputs, base: Tree, first: string, second: string)
    requires Decoded(i) && Meant(i, base) && first in TOP_LEVEL && second in TOP_LEVEL && first != second
    requires At(base, Source(second)).Some? && Obstacle(base, GlobalPath(second)).None?
    requires InTurn(i, base, first, second).Done?
    ensures At(InTurn(i, base, first, second).tree, GlobalPath(second)) ==
            Some(Carried(i, second, At(base, Source(second)).value).value)
  {
    var v := At(base, Source(second)).value;
    var t := TranslateOne(i, base, first).tree;
    assert GlobalPath(first)[1] != Source(second)[1] && GlobalPath(first)[3] != GlobalPath(second)[3];
    TranslateOneLeaves(i, base, first, Source(second));
    ClearStays(i, base, first, GlobalPath(second));
    CarriedIff(i, second, v);
    SetOutcome(t, GlobalPath(second), Carried(i, second, v).value);
  }

  lemma ClearStays(i: Inputs, base: Tree, name: string, q: Path)
    requires Decoded(i) && Meant(i, base) && name in TOP_LEVEL && TranslateOne(i, base, name).Done?
    requires Obstacle(base, q).None? && Apart(GlobalPath(name), q)
    ensures Obstacle(TranslateOne(i, base, name).tree, q).None?
  {
    if At(base, Source(name)).Some? {
      var v := At(base, Source(name)).value;
      CarriedIff(i, name, v);
      SetOutcome(base, GlobalPath(name), Carried(i, name, v).value);
      if Obstacle(base, GlobalPath(name)).None? {
        SetObstacle(base, GlobalPath(name), Carried(i, name, v).value, q);
      }
    }
  }

  /**
   * A top-level repo or tag reaches the Helm values: unless the user sets the Helm value themselves
   * or a value other than a map is in the way, its text, trimmed and parsed, is in the result.
   */
  lemma TopLevelReachesHelm(i: Inputs, first: string, second: string, name: string)
    requires Decoded(i) && Combined(i, [first, second]).Merged?
    requires first in TOP_LEVEL && second in TOP_LEVEL && first != second && name in TOP_LEVEL
    requires Reaches(i) && Meant(i, Untranslated(i))
    requires At(Untranslated(i), Source(name)).Some? && Obstacle(Untranslated(i), GlobalPath(name)).None?
    requires Silent(UserConfig(i).tree, GlobalPath(name))
    ensures
      At(Combined(i, [first, second]).config, GlobalPath(name)) ==
      Some(i.parsed(GlobalText(name), Trim(i.printed(At(Untranslated(i), Source(name)).value))))
  {
    var base := Untranslated(i);
    assert GlobalPath(name) == SPEC_VALUES + ["global", name];
    TranslationOverDefaults(i, [first, second], ["global", name]);
    TranslateInTurn(i, base, first, second);
    CombinedAfter(i, first, second);
    CarriedIff(i, name, At(base, Source(name)).value);
    if name == first {
      CarriedStays(i, base, first, second);
    } else {
      CarriedSecond(i, base, first, second);
    }
  }

  // ---------------------------------------------------------------------------------------------
  // An input on which the order matters

  /** A repository whose text, cleaned as a file path, leads to spec.tag. */
  const STRAY := "a=/../spec.tag"
  const STRAY_SPEC: Tree := Node(false, map["repo" := Text(STRAY), "tag" := Text("t")])
  const STRAY_TREE: Tree := Node(false, map["spec" := STRAY_SPEC])

  /** What printing, splitting and parsing do with the texts that occur. */
  predicate Strays(i: Inputs) {
    && i.printed(Text(STRAY)) == STRAY && i.printed(Text("")) == "" && i.printed(Text("t")) == "t"
    && i.split(GlobalText("repo") + "=" + STRAY) == ["spec", "tag"]
    && i.parsed(GlobalText("repo") + "=" + STRAY, "") == Text("")
    && i.parsed(GlobalText("tag"), "") == Text("") && i.parsed(GlobalText("tag"), "t") == Text("t")
  }

  /** The user gives one file, and profile and compiled defaults say nothing. */
  predicate OneStrayFile(i: Inputs) {
    i.files == [Some(STRAY_TREE)] && i.flags == [] && i.overlay == [] && i.profiles("default") == Some(EMPTY)
  }

  lemma StrayIsCarried(i: Inputs)
    requires Decoded(i) && Strays(i)
    ensures Carried(i, "repo", Text(STRAY)) == Assignment(Source("tag"), Text(""))
  {
    assert STRAY[1] == '=';
    CarriedIff(i, "repo", Text(STRAY));
  }

  lemma TagIsCarried(i: Inputs, tag: string)
    requires Decoded(i) && Strays(i) && (tag == "" || tag == "t")
    ensures Carried(i, "tag", Text(tag)) == Assignment(GlobalPath("tag"), Text(tag))
  {
    CarriedIff(i, "tag", Text(tag));
  }

  lemma WayIsClear(t: Tree, tag: Value)
    requires Field(t, "spec").Node? && "values" !in Field(t, "spec").fields
    ensures Set(t, GlobalPath("tag"), tag).Done?
            && At(Set(t, GlobalPath("tag"), tag).tree, GlobalPath("tag")) == Some(tag)
  {
    assert GlobalPath("tag")[1..] == ["values", "global", "tag"];
    SetOutcome(t, GlobalPath("tag"), tag);
  }

  lemma StraySources(base: Tree)
    requires Field(base, "spec") == STRAY_SPEC
    ensures At(base, Source("repo")) == Some(Text(STRAY)) && At(base, Source("tag")) == Some(Text("t"))
    ensures Obstacle(base, Source("tag")).None?
  {
    assert Source("repo")[1..] == ["repo"] && Source("tag")[1..] == ["tag"];
  }

  lemma GlobalIsApart(name: string)
    requires name in TOP_LEVEL
    ensures Apart(GlobalPath("tag"), Source(name)) && Apart(Source(name), GlobalPath("tag"))
  {
    assert GlobalPath("tag")[1] != Source(name)[1];
  }

  /** The repository, carried first, empties the tag. */
  lemma RepoFirst(i: Inputs, base: Tree)
    requires Decoded(i) && Strays(i) && Field(base, "spec") == STRAY_SPEC
    ensures
      var r := InTurn(i, base, "repo", "tag");
      r.Done? && At(r.tree, GlobalPath("tag")) == Some(Text(""))
  {
    StraySources(base);
    StrayIsCarried(i);
    TagIsCarried(i, "");
    var t := EmptyTag(base);
    WayIsClear(t, Text(""));
  }

  lemma EmptyTag(base: Tree) returns (t: Tree)
    requires Field(base, "spec") == STRAY_SPEC
    ensures Set(base, Source("tag"), Text("")) == Done(t) && At(t, Source("tag")) == Some(Text(""))
    ensures Field(t, "spec").Node? && "values" !in Field(t, "spec").fields
  {
    StraySources(base);
    SetOutcome(base, Source("tag"), Text(""));
    t := Set(base, Source("tag"), Text("")).tree;
    assert Source("tag")[1..] == ["tag"];
    assert t.fields["spec"].fields.Keys == {"repo", "tag"};
  }

  /** The tag, carried first, is carried whole. */
  lemma TagFirst(i: Inputs, base: Tree)
    requires Decoded(i) && Strays(i) && Field(base, "spec") == STRAY_SPEC
    ensures
      var r := InTurn(i, base, "tag", "repo");
      r.Done? ==> At(r.tree, GlobalPath("tag")) == Some(Text("t"))
  {
    StraySources(base);
    StrayIsCarried(i);
    TagIsCarried(i, "t");
    WayIsClear(base, Text("t"));
    var t := Set(base, GlobalPath("tag"), Text("t")).tree;
    GlobalIsApart("repo");
    GlobalIsApart("tag");
    SetLeavesOthers(base, GlobalPath("tag"), Text("t"), Source("repo"));
    if Set(t, Source("tag"), Text("")).Done? {
      SetLeavesOthers(t, Source("tag"), Text(""), GlobalPath("tag"));
    }
  }

  lemma StrayIsTranslated(i: Inputs)
    requires OneStrayFile(i)
    ensures Reaches(i) && UserValues(UserConfig(i).tree).None? && Field(Untranslated(i), "spec") == STRAY_SPEC
  {
    assert i.files[..|i.files| - 1] == [];
    assert Layered(i.files) == Some(Merge(CONFIG_BASE, DropNullSpec(STRAY_TREE)));
    assert DropNullSpec(STRAY_TREE) == STRAY_TREE && SetSpecPaths(Layered(i.files).value, i.flags).Done?;
    var config := UserConfig(i).tree;
    assert Field(config, "spec") == Merge(EMPTY, STRAY_SPEC);
    assert Merge(EMPTY, STRAY_SPEC).fields == STRAY_SPEC.fields;
    assert At(config, ["spec", "profile"]) == At(STRAY_SPEC, ["profile"]);
    assert At(config, SPEC_VALUES) == At(STRAY_SPEC, ["values"]);
    assert Merge(Null, STRAY_SPEC) == STRAY_SPEC;
  }

  /** A value with an equals sign can make the order matter: here it changes the other one. */
  lemma StrayValueMakesOrderMatter(i: Inputs)
    requires Decoded(i) && Strays(i) && OneStrayFile(i)
    ensures Combined(i, ["repo", "tag"]) != Combined(i, ["tag", "repo"])
  {
    StrayIsTranslated(i);
    CombinedAfter(i, "repo", "tag");
    CombinedAfter(i, "tag", "repo");
    RepoFirst(i, Untranslated(i));
    TagFirst(i, Untranslated(i));
  }
}
