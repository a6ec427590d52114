/** What two settings, one after the other, change in a configuration tree. */
module Writes {
  import opened Options
  import opened Values

  /** One path=value setting, already split. */
  datatype Assignment = Assignment(path: Path, value: Value)

  /** Neither a map nor null. */
  predicate Scalar(v: Value) {
    !v.Node? && !v.Null?
  }

  predicate AllScalar(a: Option<Assignment>) {
    a.Some? ==> Scalar(a.value.value)
  }

  function Write(base: Tree, a: Option<Assignment>): SetResult {
    match a
    case None => Done(base)
    case Some(a) => Set(base, a.path, a.value)
  }

  function WriteBoth(base: Tree, a: Option<Assignment>, b: Option<Assignment>): SetResult {
    match Write(base, a)
    case Panicked => Panicked
    case Done(t) => Write(t, b)
  }

  /** A write to this path panics. */
  predicate Stops(base: Tree, path: Path) {
    path == [] || (Obstacle(base, path).Some? && !Obstacle(base, path).value.Null?)
  }

  /** A write to this path goes to a map nothing refers to. */
  predicate Lost(base: Tree, path: Path) {
    path != [] && Obstacle(base, path) == Some(Null)
  }

  predicate Refused(base: Tree, a: Option<Assignment>) {
    a.Some? && Stops(base, a.value.path)
  }

  /** The assignment if it makes a difference. */
  function Change(base: Tree, a: Option<Assignment>): set<Assignment> {
    if a.Some? && Obstacle(base, a.value.path).None? && At(base, a.value.path) != Some(a.value.value) then {a.value}
    else {}
  }

  /** Both are made, neither is lost, and the paths overlap. */
  predicate Meet(base: Tree, a: Option<Assignment>, b: Option<Assignment>) {
    a.Some? && b.Some? && !Lost(base, a.value.path) && !Apart(a.value.path, b.value.path)
  }

  /**
   * What two scalar settings in turn change, read off the tree before them; None if one panics. A
   * second one at or above the first hides it, and one below it finds a scalar in its way.
   */
  function Net(base: Tree, a: Option<Assignment>, b: Option<Assignment>): Option<set<Assignment>> {
    if Refused(base, a) || Refused(base, b) then None
    else if !Meet(base, a, b) then Some(Change(base, a) + Change(base, b))
    else if b.value.path <= a.value.path then Some(Change(base, b))
    else None
  }

  // ---------------------------------------------------------------------------------------------
  // What one write leaves behind

  lemma BelowHead(p: Path, q: Path)
    requires p != [] && q != [] && p[0] == q[0]
    ensures p <= q <==> p[1..] <= q[1..]
    ensures p <= q ==> q[|p|..] == q[1..][|p[1..]|..]
  {
    assert p == [p[0]] + p[1..] && q == [q[0]] + q[1..];
    if p[1..] <= q[1..] {
      assert q == [p[0]] + (p[1..] + q[1..][|p[1..]|..]);
      assert q == p + q[1..][|p[1..]|..];
    }
  }

  /** What every path reads after a write that found its way; apart from it, see SetLeavesOthers. */
  lemma {:induction false} SetReads(base: Tree, p: Path, v: Value, q: Path)
    requires p != [] && Obstacle(base, p).None?
    ensures Set(base, p, v).Done?
    ensures p <= q ==> At(Set(base, p, v).tree, q) == At(v, q[|p|..])
    ensures q <= p ==> At(Set(base, p, v).tree, q) == SetField(At(base, q), p[|q|..], v)
    decreases |p|
  {
    SetOutcome(base, p, v);
    if q != [] && q[0] == p[0] {
      BelowHead(p, q);
      BelowHead(q, p);
      if |p| > 1 {
        var next := if p[0] in base.fields then base.fields[p[0]] else Node(false, map[]);
        SetReads(next, p[1..], v, q[1..]);
      }
    }
  }

  /** What stands in the way of a path after such a write. */
  lemma {:induction false} SetObstacle(base: Tree, p: Path, v: Value, q: Path)
    requires p != [] && Obstacle(base, p).None?
    ensures Set(base, p, v).Done?
    ensures p <= q ==> Obstacle(Set(base, p, v).tree, q) == Obstacle(v, q[|p|..])
    ensures q <= p ==> Obstacle(Set(base, p, v).tree, q).None? && Obstacle(base, q).None?
    ensures Apart(p, q) ==> Obstacle(Set(base, p, v).tree, q) == Obstacle(base, q)
    decreases |p|
  {
    SetOutcome(base, p, v);
    if q != [] && q[0] == p[0] {
      BelowHead(p, q);
      BelowHead(q, p);
      if |p| > 1 {
        var next := if p[0] in base.fields then base.fields[p[0]] else Node(false, map[]);
        SetObstacle(next, p[1..], v, q[1..]);
      }
    }
  }

  /** Writing what is there changes nothing. */
  lemma {:induction false} SetSame(base: Tree, p: Path, v: Value)
    requires p != [] && At(base, p) == Some(v)
    ensures Obstacle(base, p).None? && Set(base, p, v) == Done(base)
    decreases |p|
  {
    if |p| > 1 {
      SetSame(base.fields[p[0]], p[1..], v);
    }
    assert base.fields[p[0] := base.fields[p[0]]] == base.fields;
  }

  /** A write at or above an earlier one hides it. */
  lemma {:induction false} SetOver(base: Tree, p: Path, v: Value, q: Path, w: Value)
    requires p != [] && Obstacle(base, p).None? && q != [] && q <= p
    ensures Set(base, p, v).Done? && Set(Set(base, p, v).tree, q, w) == Set(base, q, w)
    decreases |p|
  {
    SetOutcome(base, p, v);
    BelowHead(q, p);
    var t := Set(base, p, v).tree;
    if |q| > 1 {
      var next := if p[0] in base.fields then base.fields[p[0]] else Node(false, map[]);
      SetOver(next, p[1..], v, q[1..], w);
    }
    match SetField(Get(base.fields, q[0]), q[1..], w)
    case None =>
    case Some(x) => assert t.fields[q[0] := x] == base.fields[q[0] := x];
  }

  // ---------------------------------------------------------------------------------------------
  // What two writes leave behind

  lemma OneWrite(base: Tree, a: Option<Assignment>)
    ensures Write(base, a).Panicked? <==> Refused(base, a)
    ensures !Refused(base, a) && Change(base, a) == {} ==> Write(base, a) == Done(base)
    ensures !Refused(base, a) && Change(base, a) != {} ==> Change(base, a) == {a.value} && !Lost(base, a.value.path)
  {
    if a.Some? {
      SetOutcome(base, a.value.path, a.value.value);
      if a.value.path != [] && At(base, a.value.path) == Some(a.value.value) {
        SetSame(base, a.value.path, a.value.value);
      }
    }
  }

  /** After a write that changes something, another one apart from it does what it would have done before. */
  lemma ApartWrite(base: Tree, a: Assignment, b: Option<Assignment>)
    requires a.path != [] && Obstacle(base, a.path).None? && (b.Some? ==> Apart(a.path, b.value.path))
    ensures Write(base, Some(a)).Done?
    ensures
      var t := Write(base, Some(a)).tree;
      (Refused(t, b) <==> Refused(base, b)) && Change(t, b) == Change(base, b)
  {
    SetOutcome(base, a.path, a.value);
    if b.Some? {
      SetObstacle(base, a.path, a.value, b.value.path);
      SetLeavesOthers(base, a.path, a.value, b.value.path);
    }
  }

  lemma NetPanics(base: Tree, a: Option<Assignment>, b: Option<Assignment>)
    requires AllScalar(a) && AllScalar(b)
    ensures WriteBoth(base, a, b).Panicked? <==> Net(base, a, b).None?
  {
    OneWrite(base, a);
    if a.None? || Refused(base, a) || Lost(base, a.value.path) {
      OneWrite(base, b);
    } else {
      OneWrite(Write(base, a).tree, b);
      if Meet(base, a, b) {
        SetObstacle(base, a.value.path, a.value.value, b.value.path);
      } else {
        ApartWrite(base, a.value, b);
      }
    }
  }

  /** The tree r is what the changes make of base. */
  ghost predicate Made(base: Tree, changes: set<Assignment>, r: SetResult) {
    && (changes == {} ==> r == Done(base))
    && (forall e :: changes == {e} ==> r == Write(base, Some(e)))
    && (forall e, f :: changes == {e, f} && e != f ==> r == WriteBoth(base, Some(e), Some(f)))
  }

  lemma NetIsMade(base: Tree, a: Option<Assignment>, b: Option<Assignment>)
    requires AllScalar(a) && AllScalar(b) && Net(base, a, b).Some?
    ensures Made(base, Net(base, a, b).value, WriteBoth(base, a, b))
  {
    OneWrite(base, a);
    OneWrite(base, b);
    if Meet(base, a, b) {
      SetOver(base, a.value.path, a.value.value, b.value.path, b.value.value);
    } else if Change(base, a) != {} {
      ApartWrite(base, a.value, b);
      OneWrite(Write(base, a).tree, b);
      if Change(base, b) != {} {
        SetsCommute(base, a.value.path, a.value.value, b.value.path, b.value.value);
      }
    }
  }

  /** A scalar that was not there is read after a write if and only if it was written there. */
  lemma OneRead(base: Tree, a: Option<Assignment>, e: Assignment)
    requires !Refused(base, a) && Scalar(e.value) && At(base, e.path) != Some(e.value) && AllScalar(a)
    ensures Write(base, a).Done?
    ensures At(Write(base, a).tree, e.path) == Some(e.value) <==> a == Some(e) && Obstacle(base, e.path).None?
  {
    OneWrite(base, a);
    if Change(base, a) != {} {
      SetReads(base, a.value.path, a.value.value, e.path);
      assert a.value.path <= e.path && |a.value.path| == |e.path| ==> a.value.path == e.path;
      if Apart(a.value.path, e.path) {
        SetLeavesOthers(base, a.value.path, a.value.value, e.path);
      }
    }
  }

  lemma ApartRead(base: Tree, a: Assignment, b: Assignment, e: Assignment)
    requires a.path != [] && b.path != [] && Apart(a.path, b.path)
    requires Change(base, Some(a)) != {} && Change(base, Some(b)) != {}
    requires Scalar(a.value) && Scalar(b.value) && Scalar(e.value) && At(base, e.path) != Some(e.value)
    ensures WriteBoth(base, Some(a), Some(b)).Done?
    ensures At(WriteBoth(base, Some(a), Some(b)).tree, e.path) == Some(e.value) <==> e == a || e == b
  {
    ApartWrite(base, a, Some(b));
    OneRead(base, Some(a), e);
    var t := Write(base, Some(a)).tree;
    if e == a {
      OneWrite(t, Some(b));
      SetLeavesOthers(t, b.path, b.value, a.path);
    } else {
      OneRead(t, Some(b), e);
    }
  }

  /** An assignment that would change base is among the changes exactly when it is read afterwards. */
  lemma NetIsRead(base: Tree, a: Option<Assignment>, b: Option<Assignment>, e: Assignment)
    requires AllScalar(a) && AllScalar(b) && Net(base, a, b).Some? && WriteBoth(base, a, b).Done?
    requires Scalar(e.value) && Change(base, Some(e)) != {}
    ensures e in Net(base, a, b).value <==> At(WriteBoth(base, a, b).tree, e.path) == Some(e.value)
  {
    NetIsMade(base, a, b);
    OneWrite(base, a);
    OneWrite(base, b);
    if Meet(base, a, b) || Change(base, a) == {} {
      OneRead(base, b, e);
    } else if Change(base, b) == {} {
      OneRead(base, a, e);
    } else {
      ApartRead(base, a.value, b.value, e);
    }
  }

  lemma NetHasChanges(base: Tree, a: Option<Assignment>, b: Option<Assignment>, e: Assignment)
    requires AllScalar(a) && AllScalar(b) && Net(base, a, b).Some? && e in Net(base, a, b).value
    ensures Scalar(e.value) && Change(base, Some(e)) != {}
  {
  }

  lemma SameTreeSameNet(
      base: Tree, a: Option<Assignment>, b: Option<Assignment>, c: Option<Assignment>, d: Option<Assignment>)
    requires AllScalar(a) && AllScalar(b) && AllScalar(c) && AllScalar(d)
    requires Net(base, a, b).Some? && Net(base, c, d).Some?
    requires WriteBoth(base, a, b).Done? && WriteBoth(base, a, b) == WriteBoth(base, c, d)
    ensures Net(base, a, b).value <= Net(base, c, d).value
  {
    forall e | e in Net(base, a, b).value ensures e in Net(base, c, d).value {
      NetHasChanges(base, a, b, e);
      NetIsRead(base, a, b, e);
      NetIsRead(base, c, d, e);
    }
  }

  lemma AtMostTwo(base: Tree, a: Option<Assignment>, b: Option<Assignment>) returns (e: Assignment, f: Assignment)
    requires Net(base, a, b).Some? && Net(base, a, b).value != {}
    ensures Net(base, a, b).value == {e, f}
  {
    e := if Change(base, a) != {} && (!Meet(base, a, b)) then a.value else b.value;
    f := if Change(base, b) != {} then b.value else e;
  }

  /**
   * Two pairs of scalar settings leave the same tree, or both panic, if and only if what they change
   * is the same.
   */
  lemma SameNetIff(
      base: Tree, a: Option<Assignment>, b: Option<Assignment>, c: Option<Assignment>, d: Option<Assignment>)
    requires AllScalar(a) && AllScalar(b) && AllScalar(c) && AllScalar(d)
    ensures WriteBoth(base, a, b) == WriteBoth(base, c, d) <==> Net(base, a, b) == Net(base, c, d)
  {
    NetPanics(base, a, b);
    NetPanics(base, c, d);
    if Net(base, a, b).Some? && Net(base, c, d).Some? {
      NetIsMade(base, a, b);
      NetIsMade(base, c, d);
      if WriteBoth(base, a, b) == WriteBoth(base, c, d) {
        SameTreeSameNet(base, a, b, c, d);
        SameTreeSameNet(base, c, d, a, b);
        assert Net(base, a, b).value == Net(base, c, d).value;
      } else if Net(base, a, b).value != {} {
        var e, f := AtMostTwo(base, a, b);
        assert e == f ==> {e, f} == {e};
      }
    }
  }
}
