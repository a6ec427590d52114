/** The operator's untyped configuration trees: deep merge, and reading and writing by path. */
module Values {
  import opened Options

  /**
   * A decoded value. A node is named when its Go type is Map and not map[string]any; decoding
   * yields unnamed nodes only. Lists, numbers and booleans are atoms.
   */
  datatype Value =
    | Null
    | Text(text: string)
    | Atom(id: nat)
    | Node(named: bool, fields: map<string, Value>)

  type Tree = v: Value | v.Node? witness Node(false, map[])

  type Path = seq<string>

  function Field(v: Value, k: string): Value {
    if v.Node? && k in v.fields then v.fields[k] else Null
  }

  predicate Plain(v: Value) {
    v.Node? ==> !v.named && forall k <- v.fields :: Plain(v.fields[k])
  }

  // ---------------------------------------------------------------------------------------------
  // Merge

  /** b laid over a. A missing base counts as null: either way b replaces it. */
  function Merge(a: Value, b: Value): Value
    decreases b
  {
    if !b.Node? then b
    else if !a.Node? || a.named then Node(false, b.fields)
    else
      Node(false, map k | k in a.fields.Keys + b.fields.Keys ::
                    if k in b.fields then Merge(Field(a, k), b.fields[k]) else a.fields[k])
  }

  /** The loop takes the keys of the overlay in any order. */
  method MergeFrom(m: Value, other: Value) returns (r: Value)
    requires m.Node? && !m.named && other.Node?
    ensures r == Merge(m, other)
    decreases other, 0
  {
    r := m;
    var todo := other.fields.Keys;
    MergeNone(m, other);
    while todo != {}
      invariant todo <= other.fields.Keys
      invariant r == Merge(m, Without(other, todo))
      decreases |todo|
    {
      var k :| k in todo;
      MergeOneMore(m, other, todo, k);
      r := MergeKey(r, k, other.fields[k]);
      todo := todo - {k};
    }
    assert Without(other, todo).fields == other.fields;
  }

  lemma MergeNone(m: Value, other: Value)
    requires m.Node? && !m.named && other.Node?
    ensures Merge(m, Without(other, other.fields.Keys)) == m
  {
    assert Merge(m, Without(other, other.fields.Keys)).fields == m.fields;
  }

  method MergeKey(m: Value, k: string, v: Value) returns (r: Value)
    requires m.Node? && !m.named
    ensures r == Node(false, m.fields[k := Merge(Field(m, k), v)])
    decreases v, 1
  {
    var merged := v;
    if v.Node? {
      if k in m.fields && m.fields[k].Node? && !m.fields[k].named {
        merged := MergeFrom(m.fields[k], v);
      } else {
        merged := Node(false, v.fields);
      }
    }
    r := Node(false, m.fields[k := merged]);
  }

  function Without(v: Value, keys: set<string>): Value
    requires v.Node?
  {
    Node(v.named, map k | k in v.fields && k !in keys :: v.fields[k])
  }

  lemma MergeOneMore(m: Value, other: Value, todo: set<string>, k: string)
    requires m.Node? && !m.named && other.Node? && todo <= other.fields.Keys && k in todo
    ensures
      var r := Merge(m, Without(other, todo));
      Merge(m, Without(other, todo - {k})) == Node(false, r.fields[k := Merge(Field(r, k), other.fields[k])])
  {
    var some, more := Without(other, todo), Without(other, todo - {k});
    assert more.fields == some.fields[k := other.fields[k]] && k !in some.fields;
    MergeOneKey(m, some, more, k);
  }

  lemma MergeOneKey(m: Value, some: Value, more: Value, k: string)
    requires m.Node? && !m.named && some.Node? && more.Node? && k !in some.fields && k in more.fields
    requires more.fields == some.fields[k := more.fields[k]]
    ensures
      var r := Merge(m, some);
      Merge(m, more) == Node(false, r.fields[k := Merge(Field(r, k), more.fields[k])])
  {
    var r, r' := Merge(m, some), Merge(m, more);
    assert Field(r, k) == Field(m, k);
    assert r'.fields == r.fields[k := Merge(Field(m, k), more.fields[k])];
  }

  lemma {:induction false} MergeIsPlain(a: Value, b: Value)
    requires Plain(a) && Plain(b)
    ensures Plain(Merge(a, b))
    decreases b
  {
    if a.Node? && b.Node? {
      forall k | k in b.fields ensures Plain(Merge(Field(a, k), b.fields[k])) {
        MergeIsPlain(Field(a, k), b.fields[k]);
      }
    }
  }

  /** Equal but for the names of nodes. */
  predicate Same(a: Value, b: Value) {
    if a.Node? then
      b.Node? && a.fields.Keys == b.fields.Keys && forall k <- a.fields :: Same(a.fields[k], b.fields[k])
    else a == b
  }

  lemma {:induction false} SameAsItself(a: Value)
    ensures Same(a, a)
  {
    if a.Node? {
      forall k | k in a.fields ensures Same(a.fields[k], a.fields[k]) {
        SameAsItself(a.fields[k]);
      }
    }
  }

  lemma {:induction false} SameBothWays(a: Value, b: Value)
    ensures Same(a, b) <==> Same(b, a)
  {
    if a.Node? && b.Node? && a.fields.Keys == b.fields.Keys {
      forall k | k in a.fields ensures Same(a.fields[k], b.fields[k]) <==> Same(b.fields[k], a.fields[k]) {
        SameBothWays(a.fields[k], b.fields[k]);
      }
    }
  }

  /** Without named nodes it is equality. */
  lemma {:induction false} PlainSameIsEqual(a: Value, b: Value)
    requires Plain(a) && Plain(b)
    ensures Same(a, b) <==> a == b
  {
    SameAsItself(a);
    if Same(a, b) && a.Node? {
      forall k | k in a.fields ensures a.fields[k] == b.fields[k] {
        PlainSameIsEqual(a.fields[k], b.fields[k]);
      }
      assert a.fields == b.fields;
    }
  }

  /** The fields of two nodes compared: what Same says one level down. */
  lemma SameByFields(a: Value, b: Value)
    requires a.Node? && b.Node?
    ensures Same(a, b) <==>
              a.fields.Keys == b.fields.Keys && forall k :: k in a.fields ==> Same(a.fields[k], b.fields[k])
  {
  }

  /** A base that takes an overlay in, rather than be replaced by it. */
  predicate TakesIn(a: Value) {
    a.Node? && !a.named
  }

  /** c already says everything a says: merging c over a gives c. */
  predicate Covers(c: Value, a: Value)
    decreases c
  {
    c.Node? && TakesIn(a) ==>
      forall k <- a.fields :: k in c.fields && Covers(c.fields[k], a.fields[k])
  }

  lemma {:induction false} AbsorbedIff(a: Value, c: Value)
    ensures Same(Merge(a, c), c) <==> Covers(c, a)
    decreases c
  {
    SameAsItself(c);
    if c.Node? && TakesIn(a) {
      var m := Merge(a, c);
      forall k | k in c.fields
        ensures Same(m.fields[k], c.fields[k]) <==> (k in a.fields ==> Covers(c.fields[k], a.fields[k]))
      {
        AbsorbedIff(Field(a, k), c.fields[k]);
      }
      SameByFields(m, c);
      assert m.fields.Keys == a.fields.Keys + c.fields.Keys;
    }
  }

  lemma {:induction false} MergeSelf(b: Value)
    ensures Same(Merge(b, b), b)
  {
    SameAsItself(b);
    if TakesIn(b) {
      forall k | k in b.fields ensures Same(Merge(b.fields[k], b.fields[k]), b.fields[k]) {
        MergeSelf(b.fields[k]);
      }
    }
  }

  /** Applying the same overlay again changes nothing but names. */
  lemma {:induction false} MergeIsIdempotent(a: Value, b: Value)
    ensures Same(Merge(Merge(a, b), b), Merge(a, b))
    decreases b
  {
    var m := Merge(a, b);
    SameAsItself(m);
    if b.Node? {
      forall k | k in m.fields ensures Same(Merge(m, b).fields[k], m.fields[k]) {
        if k !in b.fields {
          SameAsItself(m.fields[k]);
        } else if TakesIn(a) {
          MergeIsIdempotent(Field(a, k), b.fields[k]);
        } else {
          MergeSelf(b.fields[k]);
        }
      }
      SameByFields(Merge(m, b), m);
    }
  }

  /** y says nothing that f does not say: merging y over f gives f. */
  predicate Repeats(f: Value, y: Value)
    decreases y
  {
    if !y.Node? then f == y
    else if TakesIn(f) then forall j <- y.fields :: j in f.fields && Repeats(f.fields[j], y.fields[j])
    else Same(y, f)
  }

  lemma {:induction false} RepeatsIff(f: Value, y: Value)
    ensures Same(Merge(f, y), f) <==> Repeats(f, y)
    decreases y
  {
    SameBothWays(y, f);
    if y.Node? && TakesIn(f) {
      var m := Merge(f, y);
      forall j | j in f.fields
        ensures Same(m.fields[j], f.fields[j]) <==> (j in y.fields ==> Repeats(f.fields[j], y.fields[j]))
      {
        if j in y.fields {
          RepeatsIff(f.fields[j], y.fields[j]);
        } else {
          SameAsItself(f.fields[j]);
        }
      }
      SameByFields(m, f);
    }
  }

  /** What y adds to f is gone once z is laid over it: with or without y, the result is the same. */
  predicate Vanishes(f: Value, y: Value, z: Value)
    decreases y
  {
    z.Node? ==>
      if !y.Node? then Covers(z, f)
      else if !TakesIn(f) then Covers(z, Node(false, y.fields))
      else
        forall j <- y.fields ::
          if j in z.fields then Vanishes(Field(f, j), y.fields[j], z.fields[j])
          else j in f.fields && Repeats(f.fields[j], y.fields[j])
  }

  lemma {:induction false} VanishesIff(f: Value, y: Value, z: Value)
    ensures Same(Merge(Merge(f, y), z), Merge(f, z)) <==> Vanishes(f, y, z)
    decreases y
  {
    var left, right := Merge(Merge(f, y), z), Merge(f, z);
    SameAsItself(z);
    if z.Node? {
      if !y.Node? {
        AbsorbedIff(f, z);
        SameBothWays(right, left);
      } else if !TakesIn(f) {
        AbsorbedIff(Node(false, y.fields), z);
      } else {
        forall j | j in right.fields ensures Same(left.fields[j], right.fields[j]) <==> VanishesAt(f, y, z, j) {
          VanishesField(f, y, z, j);
        }
        SameByFields(left, right);
        assert left.fields.Keys == right.fields.Keys + y.fields.Keys;
      }
    }
  }

  predicate VanishesAt(f: Value, y: Value, z: Value, j: string)
    requires f.Node? && y.Node? && z.Node?
  {
    j in y.fields ==>
      if j in z.fields then Vanishes(Field(f, j), y.fields[j], z.fields[j])
      else j in f.fields && Repeats(f.fields[j], y.fields[j])
  }

  lemma {:induction false} VanishesField(f: Value, y: Value, z: Value, j: string)
    requires TakesIn(f) && y.Node? && z.Node? && (j in f.fields || j in z.fields)
    ensures Same(Merge(Merge(f, y), z).fields[j], Merge(f, z).fields[j]) <==> VanishesAt(f, y, z, j)
    decreases y, 0
  {
    SameAsItself(Merge(f, z).fields[j]);
    if j in y.fields {
      if j in z.fields {
        VanishesIff(Field(f, j), y.fields[j], z.fields[j]);
      } else {
        RepeatsIff(f.fields[j], y.fields[j]);
      }
    }
  }

  /**
   * Where c has a node: a scalar of b must not cut off a node of a, unless c says all of it again; and
   * a named node of b, which c replaces, must not have added anything.
   */
  predicate Groups(a: Value, b: Value, c: Value)
    requires a.Node? && b.Node? && c.Node?
    decreases c
  {
    forall k <- c.fields :: k in b.fields && c.fields[k].Node? ==>
      if !b.fields[k].Node? then Covers(c.fields[k], Field(a, k))
      else if b.fields[k].named then Vanishes(Field(a, k), b.fields[k], c.fields[k])
      else TakesIn(Field(a, k)) ==> Groups(Field(a, k), b.fields[k], c.fields[k])
  }

  /** Merging is associative, but for names, exactly on such triples. */
  lemma {:induction false} MergeIsAssociativeIff(a: Value, b: Value, c: Value)
    requires TakesIn(a) && TakesIn(b) && c.Node?
    ensures Same(Merge(Merge(a, b), c), Merge(a, Merge(b, c))) <==> Groups(a, b, c)
    decreases c
  {
    var left, right := Merge(Merge(a, b), c), Merge(a, Merge(b, c));
    assert left.fields.Keys == right.fields.Keys;
    forall k | k in left.fields ensures Same(left.fields[k], right.fields[k]) <==> GroupsAt(a, b, c, k) {
      if k in c.fields && k in b.fields && c.fields[k].Node? && TakesIn(b.fields[k]) && TakesIn(Field(a, k)) {
        MergeIsAssociativeIff(Field(a, k), b.fields[k], c.fields[k]);
      }
      AssociativeAt(a, b, c, k);
    }
    SameByFields(left, right);
    if Groups(a, b, c) {
      assert forall k <- c.fields :: GroupsAt(a, b, c, k);
    } else {
      var k :| k in c.fields && !GroupsAt(a, b, c, k);
      assert k in left.fields;
    }
  }

  predicate GroupsAt(a: Value, b: Value, c: Value, k: string)
    requires a.Node? && b.Node? && c.Node?
  {
    k in c.fields && k in b.fields && c.fields[k].Node? ==>
      if !b.fields[k].Node? then Covers(c.fields[k], Field(a, k))
      else if b.fields[k].named then Vanishes(Field(a, k), b.fields[k], c.fields[k])
      else TakesIn(Field(a, k)) ==> Groups(Field(a, k), b.fields[k], c.fields[k])
  }

  lemma AssociativeAt(a: Value, b: Value, c: Value, k: string)
    requires TakesIn(a) && TakesIn(b) && c.Node? && (k in a.fields || k in b.fields || k in c.fields)
    requires
      k in c.fields && k in b.fields && c.fields[k].Node? && TakesIn(b.fields[k]) && TakesIn(Field(a, k)) ==>
        (Same(Merge(Merge(Field(a, k), b.fields[k]), c.fields[k]), Merge(Field(a, k), Merge(b.fields[k], c.fields[k])))
         <==> Groups(Field(a, k), b.fields[k], c.fields[k]))
    ensures
      Same(Merge(Merge(a, b), c).fields[k], Merge(a, Merge(b, c)).fields[k]) <==> GroupsAt(a, b, c, k)
  {
    SameAsItself(Merge(Merge(a, b), c).fields[k]);
    if k in c.fields && k in b.fields && c.fields[k].Node? {
      var fa, y, z := Field(a, k), b.fields[k], c.fields[k];
      assert Merge(Merge(a, b), c).fields[k] == Merge(Merge(fa, y), z);
      assert Merge(a, Merge(b, c)).fields[k] == Merge(fa, Merge(y, z));
      if !y.Node? {
        AbsorbedIff(fa, z);
        SameBothWays(Merge(fa, z), Node(false, z.fields));
      } else if y.named {
        VanishesIff(fa, y, z);
      }
    }
  }

  /**
   * A base node of the named type is replaced, not merged into. That differs from a merge exactly
   * when the overlay leaves out something the base says.
   */
  lemma NamedBaseMergesIff(f: map<string, Value>, b: Value)
    requires b.Node?
    ensures Same(Merge(Node(true, f), b), Merge(Node(false, f), b)) <==> Covers(b, Node(false, f))
  {
    AbsorbedIff(Node(false, f), b);
    SameBothWays(Merge(Node(false, f), b), b);
  }

  // ---------------------------------------------------------------------------------------------
  // The smallest trees on which these laws fail

  function One(k: string, v: Value): Value {
    Node(false, map[k := v])
  }

  const NONE := Node(false, map[])

  lemma GroupingMatters()
    ensures
      var a, b, c := One("k", One("x", Atom(1))), One("k", Atom(2)), One("k", NONE);
      !Same(Merge(Merge(a, b), c), Merge(a, Merge(b, c)))
  {
    var a, b, c := One("k", One("x", Atom(1))), One("k", Atom(2)), One("k", NONE);
    assert "x" in a.fields["k"].fields && !Covers(c.fields["k"], a.fields["k"]);
    assert "k" in c.fields && !Groups(a, b, c);
    MergeIsAssociativeIff(a, b, c);
  }

  lemma NamedBaseLosesKey()
    ensures Merge(Node(true, map["x" := Atom(1)]), NONE) == NONE
    ensures !Same(Merge(Node(true, map["x" := Atom(1)]), NONE), Merge(One("x", Atom(1)), NONE))
  {
    var f := map["x" := Atom(1)];
    assert "x" in f && !Covers(NONE, Node(false, f));
    NamedBaseMergesIff(f, NONE);
  }

  /** Laid over a, o is left exactly as it is, names of nodes included. */
  predicate Exactly(o: Value, a: Value)
    decreases o, 1
  {
    o.Node? ==> !o.named && (TakesIn(a) ==> Swallows(o, a))
  }

  /** o has all the keys of a, and each of its fields is left exactly as it is. */
  predicate Swallows(o: Value, a: Value)
    requires o.Node? && a.Node?
    decreases o, 0
  {
    a.fields.Keys <= o.fields.Keys && forall k <- o.fields :: Exactly(o.fields[k], Field(a, k))
  }

  lemma {:induction false} ExactlyIff(a: Value, o: Value)
    ensures Merge(a, o) == o <==> Exactly(o, a)
    decreases o, 1
  {
    if o.Node? && TakesIn(a) {
      SwallowsIff(a, o);
    }
  }

  lemma {:induction false} SwallowsIff(a: Value, o: Value)
    requires o.Node? && TakesIn(a)
    ensures Merge(a, o) == Node(false, o.fields) <==> Swallows(o, a)
    decreases o, 0
  {
    var m := Merge(a, o);
    forall k | k in o.fields ensures m.fields[k] == o.fields[k] <==> Exactly(o.fields[k], Field(a, k)) {
      ExactlyIff(Field(a, k), o.fields[k]);
    }
    if Swallows(o, a) {
      assert m.fields == o.fields;
    }
  }

  /** Wherever a and b differ, o has a leaf, or covers what the one of them has and the other cannot take in. */
  predicate Hides(o: Value, a: Value, b: Value)
    decreases o
  {
    o.Node? ==>
      if TakesIn(a) && TakesIn(b) then
        && (forall k <- a.fields.Keys + b.fields.Keys ::
              k !in o.fields ==> k in a.fields && k in b.fields && a.fields[k] == b.fields[k])
        && (forall k <- o.fields :: Hides(o.fields[k], Field(a, k), Field(b, k)))
      else (TakesIn(a) ==> Swallows(o, a)) && (TakesIn(b) ==> Swallows(o, b))
  }

  /** Laying one tree over two others gives the same if and only if it hides what they differ in. */
  lemma {:induction false} HidesIff(a: Value, b: Value, o: Value)
    ensures Merge(a, o) == Merge(b, o) <==> Hides(o, a, b)
    decreases o, 1
  {
    if o.Node? {
      if TakesIn(a) && TakesIn(b) {
        HidesBelow(a, b, o);
      } else if TakesIn(a) {
        SwallowsIff(a, o);
      } else if TakesIn(b) {
        SwallowsIff(b, o);
      }
    }
  }

  lemma {:induction false} HidesBelow(a: Value, b: Value, o: Value)
    requires o.Node? && TakesIn(a) && TakesIn(b)
    ensures Merge(a, o) == Merge(b, o) <==> Hides(o, a, b)
    decreases o, 0
  {
    var m, n := Merge(a, o), Merge(b, o);
    forall k | k in o.fields
      ensures m.fields[k] == n.fields[k] <==> Hides(o.fields[k], Field(a, k), Field(b, k))
    {
      HidesIff(Field(a, k), Field(b, k), o.fields[k]);
    }
    if Hides(o, a, b) {
      assert m.fields == n.fields;
    } else if m == n {
      forall k | k in a.fields.Keys + b.fields.Keys && k !in o.fields
        ensures k in a.fields && k in b.fields && a.fields[k] == b.fields[k]
      {
        assert k in m.fields && k in n.fields;
      }
    }
  }

  // ---------------------------------------------------------------------------------------------
  // Reading by path

  /** The value a path of keys leads to. */
  function At(v: Value, path: Path): Option<Value>
    decreases |path|
  {
    if path == [] then Some(v)
    else if v.Node? && path[0] in v.fields then At(v.fields[path[0]], path[1..])
    else None
  }

  method GetPath(m: Value, path: Path) returns (r: Option<Value>)
    ensures r == At(m, path)
  {
    var current := m;
    var n := 0;
    while n < |path|
      invariant 0 <= n <= |path|
      invariant At(m, path) == At(current, path[n..])
    {
      if !current.Node? || path[n] !in current.fields {
        return None;
      }
      assert path[n..][1..] == path[n + 1..];
      current := current.fields[path[n]];
      n := n + 1;
    }
    return Some(current);
  }

  ghost predicate IsLeaf(v: Option<Value>) {
    v.Some? && !v.value.Node?
  }

  /** A value that is not a node stands on the way. */
  predicate Blocked(v: Value, path: Path)
    decreases |path|
  {
    path != [] && (!v.Node? || (path[0] in v.fields && Blocked(v.fields[path[0]], path[1..])))
  }

  /** That is: at some proper prefix of the path there is a value that is not a node. */
  lemma {:induction false} BlockedMeansLeafOnTheWay(v: Value, path: Path)
    ensures Blocked(v, path) <==> exists n :: 0 <= n < |path| && IsLeaf(At(v, path[..n]))
    decreases |path|
  {
    if path != [] {
      assert At(v, path[..0]) == Some(v);
      if v.Node? && path[0] in v.fields {
        var w := v.fields[path[0]];
        BlockedMeansLeafOnTheWay(w, path[1..]);
        forall n | 0 <= n < |path| - 1 ensures At(v, path[..n + 1]) == At(w, path[1..][..n]) {
          assert path[..n + 1][1..] == path[1..][..n];
        }
        if Blocked(w, path[1..]) {
          var n :| 0 <= n < |path[1..]| && IsLeaf(At(w, path[1..][..n]));
          assert IsLeaf(At(v, path[..n + 1]));
        }
        if n :| 0 <= n < |path| && IsLeaf(At(v, path[..n])) {
          assert n > 0 && IsLeaf(At(w, path[1..][..n - 1]));
        }
      }
    }
  }

  /**
   * What a merge holds at every path: the overlay's leaf where it has one; where it has a node, that
   * node merged over what the base has there; where it has nothing, the base's value, unless a leaf
   * of the overlay stands on the way.
   */
  lemma {:induction false} MergeAt(a: Tree, b: Tree, path: Path)
    requires Plain(a)
    ensures
      var r, x, y := At(Merge(a, b), path), At(a, path), At(b, path);
      if y.Some? then
        && r.Some?
        && if y.value.Node?
           then r.value.Node? && r.value.fields == Merge(if x.Some? then x.value else Null, y.value).fields
           else r == y
      else r == if Blocked(b, path) then None else x
    decreases |path|
  {
    if path != [] {
      var k := path[0];
      if k in b.fields && b.fields[k].Node? {
        if k in a.fields && a.fields[k].Node? {
          MergeAt(a.fields[k], b.fields[k], path[1..]);
        } else {
          BelowNothing(Field(a, k), path[1..]);
        }
      } else if k in b.fields {
        BelowNothing(b.fields[k], path[1..]);
      }
    }
  }

  lemma BelowNothing(v: Value, path: Path)
    requires !v.Node?
    ensures At(v, path).Some? <==> path == []
    ensures Blocked(v, path) <==> path != []
  {
  }

  // ---------------------------------------------------------------------------------------------
  // Writing by path

  datatype SetResult = Panicked | Done(tree: Tree)

  /** Writing value at a path of keys. */
  function Set(base: Tree, path: Path, value: Value): SetResult
    decreases |path|, 0
  {
    if path == [] then Panicked
    else
      match SetField(Get(base.fields, path[0]), path[1..], value)
      case None => Panicked
      case Some(v) => Done(Node(base.named, base.fields[path[0] := v]))
  }

  /**
   * The new value of a field the path goes through. A missing one becomes a node; null yields a
   * fresh map that nothing refers to, so what is written there is lost; anything else panics.
   */
  function SetField(field: Option<Value>, rest: Path, value: Value): Option<Value>
    decreases |rest|, 1
  {
    if rest == [] then Some(value)
    else
      var next := if field.Some? then field.value else Node(false, map[]);
      if next.Node? then
        match Set(next, rest, value)
        case Panicked => None
        case Done(t) => Some(t)
      else if next.Null? then Some(Null)
      else None
  }

  /** The first value on the way that is not a node. */
  function Obstacle(base: Value, path: Path): Option<Value>
    decreases |path|
  {
    if path == [] then None
    else if !base.Node? then Some(base)
    else if path[0] in base.fields then Obstacle(base.fields[path[0]], path[1..])
    else None
  }

  lemma {:induction false} ObstacleIffBlocked(base: Value, path: Path)
    ensures Obstacle(base, path).Some? <==> Blocked(base, path)
    decreases |path|
  {
    if path != [] && base.Node? && path[0] in base.fields {
      ObstacleIffBlocked(base.fields[path[0]], path[1..]);
    }
  }

  /**
   * A write panics exactly when the path is empty or leads through a scalar, changes nothing when
   * it leads through null, and otherwise is read back.
   */
  lemma {:induction false} SetOutcome(base: Tree, path: Path, value: Value)
    ensures
      var r, o := Set(base, path, value), Obstacle(base, path);
      && (r.Panicked? <==> path == [] || (o.Some? && !o.value.Null?))
      && (path != [] && o == Some(Null) ==> r == Done(base) && At(base, path).None?)
      && (path != [] && o.None? ==> r.Done? && At(r.tree, path) == Some(value))
    decreases |path|
  {
    if |path| > 1 {
      var k := path[0];
      var next := if k in base.fields then base.fields[k] else Node(false, map[]);
      if next.Node? {
        SetOutcome(next, path[1..], value);
        assert k !in base.fields ==> Obstacle(next, path[1..]).None?;
      }
      if k in base.fields {
        assert base.fields[k := base.fields[k]] == base.fields;
      }
    }
  }

  /** A write past null reports success and changes nothing. */
  lemma WritePastNullIsLost(value: Value)
    ensures Set(One("k", Null), ["k", "x"], value) == Done(One("k", Null))
  {
    assert One("k", Null).fields["k" := Null] == One("k", Null).fields;
  }

  /** What is set is what is read, if and only if no value on the way is other than a node. */
  lemma SetThenGetIff(base: Tree, path: Path, value: Value)
    requires path != []
    ensures
      (Set(base, path, value).Done? && At(Set(base, path, value).tree, path) == Some(value))
      <==> (forall n :: 0 <= n < |path| ==> !IsLeaf(At(base, path[..n])))
  {
    SetOutcome(base, path, value);
    ObstacleIffBlocked(base, path);
    BlockedMeansLeafOnTheWay(base, path);
  }

  /** Neither is a prefix of the other. */
  predicate Apart(p: Path, q: Path) {
    !(p <= q) && !(q <= p)
  }

  /** Every path apart from the one written reads as before. */
  lemma {:induction false} SetLeavesOthers(base: Tree, path: Path, value: Value, q: Path)
    requires Set(base, path, value).Done? && Apart(path, q)
    ensures At(Set(base, path, value).tree, q) == At(base, q)
    decreases |path|
  {
    var k := path[0];
    if q[0] == k {
      ApartBelow(path, q);
      var next := if k in base.fields then base.fields[k] else Node(false, map[]);
      if next.Node? {
        SetLeavesOthers(next, path[1..], value, q[1..]);
      }
    }
  }

  lemma ApartBelow(p: Path, q: Path)
    requires Apart(p, q) && p[0] == q[0]
    ensures Apart(p[1..], q[1..])
  {
    assert p == [p[0]] + p[1..] && q == [q[0]] + q[1..];
  }

  function SetBoth(base: Tree, p: Path, v: Value, q: Path, w: Value): SetResult {
    match Set(base, p, v)
    case Panicked => Panicked
    case Done(t) => Set(t, q, w)
  }

  /** The same for a field, then for the fields of a node. */
  function SetFieldBoth(f: Option<Value>, p: Path, v: Value, q: Path, w: Value): Option<Value> {
    match SetField(f, p, v)
    case None => None
    case Some(x) => SetField(Some(x), q, w)
  }

  lemma SetBothBelow(base: Tree, p: Path, v: Value, q: Path, w: Value)
    requires p != [] && q != [] && p[0] == q[0]
    ensures
      SetBoth(base, p, v, q, w) ==
      match SetFieldBoth(Get(base.fields, p[0]), p[1..], v, q[1..], w)
      case None => Panicked
      case Some(x) => Done(Node(base.named, base.fields[p[0] := x]))
  {
    match SetField(Get(base.fields, p[0]), p[1..], v)
    case None =>
    case Some(x) =>
      match SetField(Some(x), q[1..], w)
      case None =>
      case Some(y) => assert base.fields[p[0] := x][p[0] := y] == base.fields[p[0] := y];
  }

  lemma {:induction false} SetFieldsCommute(f: Option<Value>, p: Path, v: Value, q: Path, w: Value)
    requires Apart(p, q)
    ensures SetFieldBoth(f, p, v, q, w) == SetFieldBoth(f, q, w, p, v)
    decreases |p|, 1
  {
    var next := if f.Some? then f.value else Node(false, map[]);
    if next.Node? {
      SetsCommute(next, p, v, q, w);
    }
  }

  lemma SetsElsewhere(base: Tree, p: Path, v: Value, q: Path, w: Value)
    requires p != [] && q != [] && p[0] != q[0]
    ensures SetBoth(base, p, v, q, w) == SetBoth(base, q, w, p, v)
  {
    var x, y := SetField(Get(base.fields, p[0]), p[1..], v), SetField(Get(base.fields, q[0]), q[1..], w);
    if x.Some? && y.Some? {
      assert base.fields[p[0] := x.value][q[0] := y.value] == base.fields[q[0] := y.value][p[0] := x.value];
    }
  }

  /** Writes to paths apart can be made in either order. */
  lemma {:induction false} SetsCommute(base: Tree, p: Path, v: Value, q: Path, w: Value)
    requires Apart(p, q)
    ensures SetBoth(base, p, v, q, w) == SetBoth(base, q, w, p, v)
    decreases |p|, 0
  {
    if p[0] == q[0] {
      ApartBelow(p, q);
      SetFieldsCommute(Get(base.fields, p[0]), p[1..], v, q[1..], w);
      SetBothBelow(base, p, v, q, w);
      SetBothBelow(base, q, w, p, v);
    } else {
      SetsElsewhere(base, p, v, q, w);
    }
  }

  lemma {:induction false} SetIsPlain(base: Tree, path: Path, value: Value)
    requires Plain(base) && Plain(value) && Set(base, path, value).Done?
    ensures Plain(Set(base, path, value).tree)
    decreases |path|
  {
    if |path| > 1 {
      var next := if path[0] in base.fields then base.fields[path[0]] else Node(false, map[]);
      if next.Node? {
        SetIsPlain(next, path[1..], value);
      }
    }
  }
}
