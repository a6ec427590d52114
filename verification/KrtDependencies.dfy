/**
 * The dependency table of a collection: for each input the Fetches its last transformation made,
 * and a reverse index from what was fetched to the inputs that fetched it.
 */
module KrtDependencies {
  import opened Options
  import opened KrtTypes
  import opened KrtFilter
  import opened KrtSets

  datatype IndexedDependency = IndexedDependency(id: Uid, key: string, typ: IndexedType)

  datatype ExtractorKey = ExtractorKey(uid: Uid, filterUid: Uid, typ: IndexedType)

  /**
   * The table as a value. The extractor stored under an ExtractorKey is always
   * Extract(x, typ, filterUid, _), so only the keys are kept.
   */
  datatype DepState = DepState(
    deps: map<Key, seq<Dependency>>,
    reverse: map<IndexedDependency, set<Key>>,
    extractors: set<ExtractorKey>)

  const EMPTY_DEPS := DepState(map[], map[], {})

  function EntriesOf(d: Dependency): set<IndexedDependency> {
    set k | k in ReverseKeys(d.filter) :: IndexedDependency(d.id, k, ReverseType(d.filter))
  }

  function ExtractorOf(d: Dependency): ExtractorKey {
    ExtractorKey(d.id, ReverseUid(d.filter), ReverseType(d.filter))
  }

  function Entries(deps: seq<Dependency>): set<IndexedDependency> {
    set j, e | 0 <= j < |deps| && e in EntriesOf(deps[j]) :: e
  }

  function ExtractorKeys(deps: seq<Dependency>): set<ExtractorKey> {
    set j | 0 <= j < |deps| && Indexed(deps[j].filter) :: ExtractorOf(deps[j])
  }

  function Updated(s: DepState, key: Key, deps: seq<Dependency>): DepState {
    DepState(s.deps[key := deps], InsertAt(s.reverse, Entries(deps), key), s.extractors + ExtractorKeys(deps))
  }

  function Deleted(s: DepState, key: Key): DepState {
    if key !in s.deps then s
    else DepState(s.deps - {key}, RemoveAt(s.reverse, Entries(s.deps[key]), key), s.extractors)
  }

  ghost predicate LegalDeps(deps: seq<Dependency>) {
    forall j :: 0 <= j < |deps| ==> Legal(deps[j].filter)
  }

  /** One of the dependencies on the source collection matches the old or the new side of the event. */
  ghost predicate ObjectChanged(x: Extractors, deps: seq<Dependency>, src: Uid, ev: Event, preFiltered: bool) {
    exists j, o :: 0 <= j < |deps| && deps[j].id == src && o in ev.Items() &&
                   Matches(x, deps[j].filter, o, preFiltered)
  }

  predicate IsExtractorFor(ek: ExtractorKey, src: Uid) {
    ek.uid == src && ek.typ != UnknownIndex
  }

  ghost predicate HasExtractor(s: DepState, src: Uid) {
    exists ek :: ek in s.extractors && IsExtractorFor(ek, src)
  }

  /** The reverse index, asked through extractor ek about object o, names input i. */
  ghost predicate Reaches(s: DepState, x: Extractors, ek: ExtractorKey, src: Uid, o: Obj, i: Key) {
    exists k :: k in Extract(x, ek.typ, ek.filterUid, o) &&
                i in Members(s.reverse, IndexedDependency(src, k, ek.typ))
  }

  ghost predicate Reachable(s: DepState, x: Extractors, src: Uid, o: Obj, i: Key) {
    exists ek :: ek in s.extractors && IsExtractorFor(ek, src) && Reaches(s, x, ek, src, o, i)
  }

  ghost predicate ReachableBy(s: DepState, x: Extractors, src: Uid, ev: Event, i: Key) {
    exists o :: o in ev.Items() && Reachable(s, x, src, o, i)
  }

  /** The simple answer: ask every dependency of every input. */
  ghost function Naive(s: DepState, x: Extractors, src: Uid, events: seq<Event>): set<Key> {
    set i | i in s.deps && exists ev :: ev in events && ObjectChanged(x, s.deps[i], src, ev, false)
  }

  /** The answer of the engine to one event. */
  ghost predicate ChangedBy(s: DepState, x: Extractors, src: Uid, ev: Event, i: Key) {
    i in s.deps &&
    if HasExtractor(s, src)
    then ReachableBy(s, x, src, ev, i) && ObjectChanged(x, s.deps[i], src, ev, true)
    else ObjectChanged(x, s.deps[i], src, ev, false)
  }

  ghost function Changed(s: DepState, x: Extractors, src: Uid, events: seq<Event>): set<Key> {
    set i | i in s.deps && exists ev :: ev in events && ChangedBy(s, x, src, ev, i)
  }

  /** Every recorded dependency that can be indexed is indexed, and its extractor is known. */
  ghost predicate Complete(s: DepState) {
    && (forall i :: i in s.deps ==> LegalDeps(s.deps[i]))
    && forall i, j :: i in s.deps && 0 <= j < |s.deps[i]| ==> EntryPresent(s, i, s.deps[i][j])
  }

  ghost predicate EntryPresent(s: DepState, i: Key, d: Dependency) {
    && (forall e :: e in EntriesOf(d) ==> i in Members(s.reverse, e))
    && (Indexed(d.filter) ==> ExtractorOf(d) in s.extractors)
  }

  /** Every dependency on src is by key or by index (or matches nothing anyway). */
  ghost predicate AllIndexedOn(s: DepState, src: Uid) {
    forall i, j :: i in s.deps && 0 <= j < |s.deps[i]| && s.deps[i][j].id == src ==>
      Indexed(s.deps[i][j].filter) || MatchesNothing(s.deps[i][j].filter)
  }

  // ---------------------------------------------------------------------------------------------
  // Runs of the table

  datatype Op = OpUpdate(key: Key, deps: seq<Dependency>) | OpDelete(key: Key)

  function Run(ops: seq<Op>): DepState {
    if ops == [] then EMPTY_DEPS
    else
      var s := Run(ops[..|ops| - 1]);
      match ops[|ops| - 1]
      case OpUpdate(key, deps) => Updated(s, key, deps)
      case OpDelete(key) => Deleted(s, key)
  }

  ghost predicate LegalOps(ops: seq<Op>) {
    forall n :: 0 <= n < |ops| && ops[n].OpUpdate? ==> LegalDeps(ops[n].deps)
  }

  lemma UpdatedIsComplete(s: DepState, key: Key, deps: seq<Dependency>)
    requires Complete(s) && LegalDeps(deps)
    ensures Complete(Updated(s, key, deps))
  {
    var s' := Updated(s, key, deps);
    forall i, j | i in s'.deps && 0 <= j < |s'.deps[i]|
      ensures EntryPresent(s', i, s'.deps[i][j])
    {
      if i == key {
        assert EntriesOf(deps[j]) <= Entries(deps);
      } else {
        assert EntryPresent(s, i, s.deps[i][j]);
      }
    }
  }

  lemma DeletedIsComplete(s: DepState, key: Key)
    requires Complete(s)
    ensures Complete(Deleted(s, key))
  {
    var s' := Deleted(s, key);
    forall i, j | i in s'.deps && 0 <= j < |s'.deps[i]|
      ensures EntryPresent(s', i, s'.deps[i][j])
    {
      assert EntryPresent(s, i, s.deps[i][j]);
      if key in s.deps {
        forall e | e in EntriesOf(s.deps[i][j])
          ensures i in Members(s'.reverse, e)
        {
          assert i in s.reverse[e] && i != key;
        }
      }
    }
  }

  lemma {:induction false} RunIsComplete(ops: seq<Op>)
    requires LegalOps(ops)
    ensures Complete(Run(ops))
  {
    if ops != [] {
      var prefix := ops[..|ops| - 1];
      assert LegalOps(prefix);
      RunIsComplete(prefix);
      match ops[|ops| - 1]
      case OpUpdate(key, deps) => UpdatedIsComplete(Run(prefix), key, deps);
      case OpDelete(key) => DeletedIsComplete(Run(prefix), key);
    }
  }

  /** An input whose indexed dependency matches an object is reached from that object. */
  lemma MatchIsReachable(s: DepState, x: Extractors, src: Uid, i: Key, j: nat, o: Obj)
    requires Complete(s)
    requires i in s.deps && j < |s.deps[i]| && s.deps[i][j].id == src
    requires Indexed(s.deps[i][j].filter) && Matches(x, s.deps[i][j].filter, o, false)
    ensures HasExtractor(s, src) && Reachable(s, x, src, o, i)
  {
    var d := s.deps[i][j];
    assert EntryPresent(s, i, d);
    var k := MatchSharesReverseKey(x, d.filter, o);
    var ek := ExtractorOf(d);
    assert IndexedDependency(src, k, ek.typ) in EntriesOf(d);
    assert Reaches(s, x, ek, src, o, i);
    assert IsExtractorFor(ek, src);
  }

  /** A dependency is not overlooked: it is scanned, or indexed, or whatever it matches is reached anyway. */
  ghost predicate NoBlindSpot(s: DepState, x: Extractors, src: Uid) {
    HasExtractor(s, src) ==>
      forall i, j, o :: i in s.deps && 0 <= j < |s.deps[i]| && s.deps[i][j].id == src &&
                        !Indexed(s.deps[i][j].filter) && Matches(x, s.deps[i][j].filter, o, false) ==>
                        Reachable(s, x, src, o, i)
  }

  lemma ChangedCoversOne(s: DepState, x: Extractors, src: Uid, ev: Event, i: Key)
    requires Complete(s) && NoBlindSpot(s, x, src)
    requires i in s.deps && ObjectChanged(x, s.deps[i], src, ev, false)
    ensures ChangedBy(s, x, src, ev, i)
  {
    if HasExtractor(s, src) {
      var j, o :| 0 <= j < |s.deps[i]| && s.deps[i][j].id == src && o in ev.Items() &&
                  Matches(x, s.deps[i][j].filter, o, false);
      if Indexed(s.deps[i][j].filter) {
        MatchIsReachable(s, x, src, i, j, o);
      }
      assert Reachable(s, x, src, o, i);
      assert Matches(x, s.deps[i][j].filter, o, true);
    }
  }

  /**
   * The engine finds everything the simple scan finds, on every list of events, exactly when no
   * dependency sits in the blind spot of a registered extractor.
   */
  lemma ChangedCoversNaiveIff(s: DepState, x: Extractors, src: Uid)
    requires Complete(s)
    ensures (forall events :: Naive(s, x, src, events) <= Changed(s, x, src, events))
            <==> NoBlindSpot(s, x, src)
  {
    if NoBlindSpot(s, x, src) {
      forall events ensures Naive(s, x, src, events) <= Changed(s, x, src, events) {
        forall i | i in Naive(s, x, src, events) ensures i in Changed(s, x, src, events) {
          var ev :| ev in events && ObjectChanged(x, s.deps[i], src, ev, false);
          ChangedCoversOne(s, x, src, ev, i);
        }
      }
    }
    if forall events :: Naive(s, x, src, events) <= Changed(s, x, src, events) {
      forall i, j, o | HasExtractor(s, src) && i in s.deps && 0 <= j < |s.deps[i]| && s.deps[i][j].id == src &&
                       Matches(x, s.deps[i][j].filter, o, false)
        ensures Reachable(s, x, src, o, i)
      {
        var ev := AddEvent(o);
        assert ev.Items() == [o] && o in ev.Items();
        assert ObjectChanged(x, s.deps[i], src, ev, false);
        assert i in Naive(s, x, src, [ev]);
        assert i in Changed(s, x, src, [ev]);
        assert ReachableBy(s, x, src, ev, i);
      }
    }
  }

  lemma AllIndexedHasNoBlindSpot(s: DepState, x: Extractors, src: Uid)
    requires AllIndexedOn(s, src)
    ensures NoBlindSpot(s, x, src)
  {
  }

  /**
   * After any run of updates and deletes: if every dependency on src is by key or index, the reverse
   * index misses no input the simple scan would find; stale entries can only add inputs that still
   * depend on src and whose remaining filter parts match.
   */
  lemma ReverseIndexIsSound(ops: seq<Op>, x: Extractors, src: Uid, events: seq<Event>)
    requires LegalOps(ops) && AllIndexedOn(Run(ops), src)
    ensures Naive(Run(ops), x, src, events) <= Changed(Run(ops), x, src, events)
    ensures forall i :: i in Changed(Run(ops), x, src, events) ==>
              i in Run(ops).deps && exists ev :: ev in events && ObjectChanged(x, Run(ops).deps[i], src, ev, true)
  {
    var s := Run(ops);
    RunIsComplete(ops);
    AllIndexedHasNoBlindSpot(s, x, src);
    ChangedCoversNaiveIff(s, x, src);
    forall i | i in Changed(s, x, src, events)
      ensures exists ev :: ev in events && ObjectChanged(x, s.deps[i], src, ev, true)
    {
      var ev :| ev in events && ChangedBy(s, x, src, ev, i);
      if !HasExtractor(s, src) {
        var j, o :| 0 <= j < |s.deps[i]| && s.deps[i][j].id == src && o in ev.Items() &&
                    Matches(x, s.deps[i][j].filter, o, false);
        assert Matches(x, s.deps[i][j].filter, o, true);
      }
    }
  }

  ghost predicate NeverIndexed(ops: seq<Op>, src: Uid) {
    forall n, j :: 0 <= n < |ops| && ops[n].OpUpdate? && 0 <= j < |ops[n].deps| && ops[n].deps[j].id == src ==>
      !Indexed(ops[n].deps[j].filter)
  }

  /** A run that never indexed a dependency on src never loses the full scan. */
  lemma {:induction false} NeverIndexedKeepsScan(ops: seq<Op>, src: Uid)
    requires NeverIndexed(ops, src)
    ensures !HasExtractor(Run(ops), src)
  {
    if ops != [] {
      NeverIndexedKeepsScan(ops[..|ops| - 1], src);
    }
  }

  lemma UnindexedIsExact(ops: seq<Op>, x: Extractors, src: Uid, events: seq<Event>)
    requires NeverIndexed(ops, src)
    ensures Changed(Run(ops), x, src, events) == Naive(Run(ops), x, src, events)
  {
    NeverIndexedKeepsScan(ops, src);
  }

  // ---------------------------------------------------------------------------------------------
  // The blind spot, for filters that can be read

  /** Labels that both parts of the filter allow an object to select. */
  predicate CanSelect(f: Filter) {
    f.selectsNonEmpty.Some? ==>
      exists l <- f.selectsNonEmpty.value ::
        f.selects.Some? ==> l in f.selects.value && f.selects.value[l] == f.selectsNonEmpty.value[l]
  }

  /** A filter without a generic part that is not entered in the reverse index, yet matches something. */
  predicate CanMatch(f: Filter) {
    f.keys.None? && f.index.None? && CanSelect(f)
  }

  /** On src only keys are extracted, and no filter has a generic part. */
  ghost predicate Readable(s: DepState, src: Uid) {
    && (forall ek :: ek in s.extractors && IsExtractorFor(ek, src) ==> ek.typ == GetKeyType)
    && (forall i, j :: i in s.deps && 0 <= j < |s.deps[i]| && s.deps[i][j].id == src ==>
          s.deps[i][j].filter.generic.None?)
  }

  /** An object under the given key that the filter matches. */
  lemma MatchUnder(x: Extractors, f: Filter, k: Key, payload: Payload) returns (o: Obj)
    requires f.generic.None? && CanMatch(f)
    ensures o.key == k && Matches(x, f, o, false)
  {
    var namespace := if f.namespace.Some? then f.namespace.value else "";
    var labels := if f.labels.Some? then f.labels.value else map[];
    var selector: map<string, string> := map[];
    if f.selectsNonEmpty.Some? {
      var l :| l in f.selectsNonEmpty.value &&
               (f.selects.Some? ==> l in f.selects.value && f.selects.value[l] == f.selectsNonEmpty.value[l]);
      selector := map[l := f.selectsNonEmpty.value[l]];
      assert l in selector;
    }
    o := Obj(k, namespace, labels, selector, payload);
  }

  /** A filter that matches something can match. */
  lemma MatchingCanMatch(x: Extractors, f: Filter, o: Obj)
    requires !Indexed(f) && Matches(x, f, o, false)
    ensures CanMatch(f)
  {
    if f.selectsNonEmpty.Some? {
      var l :| l in o.selector;
      assert l in f.selectsNonEmpty.value;
    }
  }

  /** A string longer than all of a set is not among them. */
  lemma {:induction false} FreshKey(keys: set<string>) returns (k: string)
    ensures forall s :: s in keys ==> |s| < |k|
    decreases keys
  {
    k := "k";
    if keys != {} {
      var s :| s in keys;
      var rest := FreshKey(keys - {s});
      k := rest + s + "k";
    }
  }

  /** Every dependency on src is in the reverse index, or can match nothing. */
  ghost predicate AllIndexedOrIdle(s: DepState, src: Uid) {
    forall i, j :: i in s.deps && 0 <= j < |s.deps[i]| && s.deps[i][j].id == src ==>
      Indexed(s.deps[i][j].filter) || !CanMatch(s.deps[i][j].filter)
  }

  lemma FreshIsUnreachable(s: DepState, x: Extractors, src: Uid, o: Obj, i: Key)
    requires Readable(s, src) && forall e :: e in s.reverse ==> e.key != o.key
    ensures !Reachable(s, x, src, o, i)
  {
    forall ek | ek in s.extractors && IsExtractorFor(ek, src) ensures !Reaches(s, x, ek, src, o, i) {
      assert Extract(x, ek.typ, ek.filterUid, o) == [o.key];
    }
  }

  /**
   * Where only keys are extracted and filters have no generic part, the engine finds everything the
   * simple scan finds, on every list of events, if and only if there is no extractor on the source,
   * or every dependency on it is by key or can match nothing.
   */
  lemma KeyedCoversNaiveIff(s: DepState, x: Extractors, src: Uid, payload: Payload)
    requires Complete(s) && Readable(s, src)
    ensures (forall events :: Naive(s, x, src, events) <= Changed(s, x, src, events))
            <==> !HasExtractor(s, src) || AllIndexedOrIdle(s, src)
  {
    ChangedCoversNaiveIff(s, x, src);
    if AllIndexedOrIdle(s, src) {
      forall i, j, o | i in s.deps && 0 <= j < |s.deps[i]| && !Indexed(s.deps[i][j].filter) &&
                       Matches(x, s.deps[i][j].filter, o, false)
        ensures CanMatch(s.deps[i][j].filter)
      {
        MatchingCanMatch(x, s.deps[i][j].filter, o);
      }
    } else if NoBlindSpot(s, x, src) && HasExtractor(s, src) {
      BlindSpotOfKeys(s, x, src, payload);
    }
  }

  lemma BlindSpotOfKeys(s: DepState, x: Extractors, src: Uid, payload: Payload)
    requires Readable(s, src) && HasExtractor(s, src) && !AllIndexedOrIdle(s, src)
    ensures !NoBlindSpot(s, x, src)
  {
    var i, j :| i in s.deps && 0 <= j < |s.deps[i]| && s.deps[i][j].id == src &&
                !Indexed(s.deps[i][j].filter) && CanMatch(s.deps[i][j].filter);
    var k := FreshKey(set e | e in s.reverse :: e.key);
    var o := MatchUnder(x, s.deps[i][j].filter, k, payload);
    forall e | e in s.reverse ensures e.key != k {
      assert e.key in (set d | d in s.reverse :: d.key);
    }
    FreshIsUnreachable(s, x, src, o, i);
  }

  const ALL := Filter(None, None, None, None, None, None, None)

  /** Input "b" fetches everything from src; input "a" fetched one key and was then deleted. */
  function MixedOps(src: Uid): seq<Op> {
    [OpUpdate("a", [Dependency(src, ALL.(keys := Some({"k"})))]), OpUpdate("b", [Dependency(src, ALL)]), OpDelete("a")]
  }

  lemma MixedState(src: Uid)
    ensures
      var s := Run(MixedOps(src));
      && s.deps == map["b" := [Dependency(src, ALL)]]
      && s.reverse == map[]
      && s.extractors == {ExtractorKey(src, 0, GetKeyType)}
  {
    var ops := MixedOps(src);
    var one := Dependency(src, ALL.(keys := Some({"k"})));
    assert ops[..2][..1][..0] == [];
    var s1 := Updated(EMPTY_DEPS, "a", [one]);
    assert Run(ops[..2][..1]) == s1;
    assert ReverseKeys(one.filter) == {"k"};
    assert EntriesOf(one) == {IndexedDependency(src, "k", GetKeyType)};
    assert [one][0] == one;
    assert Entries([one]) == {IndexedDependency(src, "k", GetKeyType)};
    assert ExtractorKeys([one]) == {ExtractorKey(src, 0, GetKeyType)};
    var s2 := Updated(s1, "b", [Dependency(src, ALL)]);
    assert Run(ops[..2]) == s2;
    assert Entries([Dependency(src, ALL)]) == {};
  }

  /**
   * Mixing both kinds of dependency on one collection loses changes: a new object under another key
   * is seen by the scan and not by the engine, even after the input that was indexed is gone.
   */
  lemma MixedDependenciesMissChanges(x: Extractors, src: Uid, o: Obj)
    ensures LegalOps(MixedOps(src))
    ensures "b" in Naive(Run(MixedOps(src)), x, src, [AddEvent(o)])
    ensures "b" !in Changed(Run(MixedOps(src)), x, src, [AddEvent(o)])
  {
    MixedState(src);
    var s := Run(MixedOps(src));
    assert IsExtractorFor(ExtractorKey(src, 0, GetKeyType), src);
    assert o in AddEvent(o).Items();
    assert s.deps["b"][0] == Dependency(src, ALL) && Matches(x, s.deps["b"][0].filter, o, false);
    assert ObjectChanged(x, s.deps["b"], src, AddEvent(o), false);
    assert AddEvent(o) in [AddEvent(o)];
  }

  // ---------------------------------------------------------------------------------------------
  // The table as the engine updates it

  lemma EntriesSnoc(deps: seq<Dependency>, j: nat)
    requires j < |deps|
    ensures Entries(deps[..j + 1]) == Entries(deps[..j]) + EntriesOf(deps[j])
    ensures ExtractorKeys(deps[..j + 1]) ==
            ExtractorKeys(deps[..j]) + if Indexed(deps[j].filter) then {ExtractorOf(deps[j])} else {}
  {
    assert deps[..j + 1][j] == deps[j];
    assert forall n :: 0 <= n < j ==> deps[..j + 1][n] == deps[..j][n];
  }

  class DependencyState {
    var deps: map<Key, seq<Dependency>>
    var reverse: map<IndexedDependency, set<Key>>
    var extractors: set<ExtractorKey>

    ghost function Value(): DepState
      reads this
    {
      DepState(deps, reverse, extractors)
    }

    constructor ()
      ensures Value() == EMPTY_DEPS
    {
      deps, reverse, extractors := map[], map[], {};
    }

    /** Enter one dependency of an input in the reverse index. */
    method Enter(key: Key, d: Dependency)
      modifies this`reverse, this`extractors
      ensures reverse == InsertAt(old(reverse), EntriesOf(d), key)
      ensures extractors == old(extractors) + if Indexed(d.filter) then {ExtractorOf(d)} else {}
    {
      var typ := ReverseType(d.filter);
      var todo := ReverseKeys(d.filter);
      ghost var done: set<IndexedDependency> := {};
      NothingToInsert(reverse, key);
      while todo != {}
        invariant todo <= ReverseKeys(d.filter)
        invariant done == set k | k in ReverseKeys(d.filter) - todo :: IndexedDependency(d.id, k, typ)
        invariant reverse == InsertAt(old(reverse), done, key)
        invariant extractors == old(extractors) + if todo == ReverseKeys(d.filter) then {} else {ExtractorOf(d)}
      {
        var depKey :| depKey in todo;
        todo := todo - {depKey};
        var k := IndexedDependency(d.id, depKey, typ);
        InsertAtOneMore(old(reverse), done, k, key);
        reverse := reverse[k := Members(reverse, k) + {key}];
        extractors := extractors + {ExtractorKey(d.id, ReverseUid(d.filter), typ)};
        done := done + {k};
      }
      assert done == EntriesOf(d);
    }

    /** Take one dependency of an input out of the reverse index. */
    method Leave(key: Key, d: Dependency)
      modifies this`reverse
      ensures reverse == RemoveAt(old(reverse), EntriesOf(d), key)
    {
      var typ := ReverseType(d.filter);
      var todo := ReverseKeys(d.filter);
      ghost var done: set<IndexedDependency> := {};
      NothingToInsert(reverse, key);
      while todo != {}
        invariant todo <= ReverseKeys(d.filter)
        invariant done == set k | k in ReverseKeys(d.filter) - todo :: IndexedDependency(d.id, k, typ)
        invariant reverse == RemoveAt(old(reverse), done, key)
      {
        var depKey :| depKey in todo;
        todo := todo - {depKey};
        var k := IndexedDependency(d.id, depKey, typ);
        RemoveAtOneMore(old(reverse), done, k, key);
        if Members(reverse, k) <= {key} {
          reverse := reverse - {k};
        } else {
          reverse := reverse[k := reverse[k] - {key}];
        }
        done := done + {k};
      }
      assert done == EntriesOf(d);
    }

    method Update(key: Key, newDeps: seq<Dependency>)
      requires LegalDeps(newDeps)
      modifies this
      ensures Value() == Updated(old(Value()), key, newDeps)
    {
      deps := deps[key := newDeps];
      NothingToInsert(reverse, key);
      assert Entries(newDeps[..0]) == {};
      for j := 0 to |newDeps|
        invariant deps == old(deps)[key := newDeps]
        invariant reverse == InsertAt(old(reverse), Entries(newDeps[..j]), key)
        invariant extractors == old(extractors) + ExtractorKeys(newDeps[..j])
      {
        EntriesSnoc(newDeps, j);
        InsertAtTwice(old(reverse), Entries(newDeps[..j]), EntriesOf(newDeps[j]), key);
        Enter(key, newDeps[j]);
      }
      assert newDeps[..|newDeps|] == newDeps;
    }

    method Delete(key: Key)
      modifies this
      ensures Value() == Deleted(old(Value()), key)
    {
      if key !in deps {
        return;
      }
      var was := deps[key];
      deps := deps - {key};
      NothingToInsert(reverse, key);
      assert Entries(was[..0]) == {};
      for j := 0 to |was|
        invariant deps == old(deps) - {key} && extractors == old(extractors)
        invariant reverse == RemoveAt(old(reverse), Entries(was[..j]), key)
      {
        EntriesSnoc(was, j);
        RemoveAtTwice(old(reverse), Entries(was[..j]), EntriesOf(was[j]), key);
        Leave(key, was[j]);
      }
      assert was[..|was|] == was;
    }

    static method IsObjectChanged(x: Extractors, deps: seq<Dependency>, src: Uid, ev: Event, preFiltered: bool)
      returns (r: bool)
      ensures r == ObjectChanged(x, deps, src, ev, preFiltered)
    {
      for j := 0 to |deps|
        invariant !ObjectChanged(x, deps[..j], src, ev, preFiltered)
      {
        assert forall n :: 0 <= n < j ==> deps[..j + 1][n] == deps[..j][n];
        assert deps[..j + 1][j] == deps[j];
        if deps[j].id == src {
          var items := ev.Items();
          for n := 0 to |items|
            invariant forall m :: 0 <= m < n ==> !Matches(x, deps[j].filter, items[m], preFiltered)
          {
            if Matches(x, deps[j].filter, items[n], preFiltered) {
              assert items[n] in ev.Items();
              return true;
            }
          }
        }
      }
      assert deps[..|deps|] == deps;
      return false;
    }

    /** The inputs named by the reverse index for one event through one extractor. */
    method NamedBy(x: Extractors, src: Uid, ev: Event, ek: ExtractorKey) returns (named: set<Key>)
      ensures forall i :: i in named <==> exists o :: o in ev.Items() && Reaches(Value(), x, ek, src, o, i)
    {
      named := {};
      var items := ev.Items();
      for n := 0 to |items|
        invariant forall i :: i in named <==> exists m :: 0 <= m < n && Reaches(Value(), x, ek, src, items[m], i)
      {
        var keys := Extract(x, ek.typ, ek.filterUid, items[n]);
        ghost var before := named;
        for j := 0 to |keys|
          invariant forall i :: i in named <==>
            i in before ||
            exists m :: 0 <= m < j && i in Members(reverse, IndexedDependency(src, keys[m], ek.typ))
        {
          named := named + Members(reverse, IndexedDependency(src, keys[j], ek.typ));
        }
        forall i
          ensures i in named <==> i in before || Reaches(Value(), x, ek, src, items[n], i)
        {
          if Reaches(Value(), x, ek, src, items[n], i) {
            var k :| k in keys && i in Members(reverse, IndexedDependency(src, k, ek.typ));
          }
        }
      }
    }

    /** The members of a set of inputs whose dependencies match the event. */
    method KeepChanged(x: Extractors, src: Uid, ev: Event, preFiltered: bool, candidates: set<Key>)
      returns (kept: set<Key>)
      ensures kept == set i | i in candidates && i in deps && ObjectChanged(x, deps[i], src, ev, preFiltered)
    {
      kept := {};
      var todo := candidates;
      while todo != {}
        invariant todo <= candidates
        invariant kept == set i | i in candidates - todo && i in deps &&
                                  ObjectChanged(x, deps[i], src, ev, preFiltered)
      {
        var i :| i in todo;
        todo := todo - {i};
        if i in deps {
          var changed := IsObjectChanged(x, deps[i], src, ev, preFiltered);
          if changed {
            kept := kept + {i};
          }
        }
      }
    }

    method ChangedInputKeys(x: Extractors, src: Uid, events: seq<Event>) returns (changed: set<Key>)
      ensures changed == Changed(Value(), x, src, events)
    {
      changed := {};
      var eks := set ek | ek in extractors && IsExtractorFor(ek, src);
      assert HasExtractor(Value(), src) <==> eks != {} by {
        if HasExtractor(Value(), src) {
          var ek :| ek in extractors && IsExtractorFor(ek, src);
          assert ek in eks;
        }
        if ek :| ek in eks {
          assert ek in extractors && IsExtractorFor(ek, src);
        }
      }
      for n := 0 to |events|
        invariant forall i :: i in changed <==> exists m :: 0 <= m < n && ChangedBy(Value(), x, src, events[m], i)
      {
        var ev := events[n];
        var now: set<Key>;
        if eks != {} {
          var named: set<Key> := {};
          var todo := eks;
          while todo != {}
            invariant todo <= eks
            invariant forall i :: i in named <==>
              exists ek, o :: ek in eks - todo && o in ev.Items() && Reaches(Value(), x, ek, src, o, i)
          {
            var ek :| ek in todo;
            var more := NamedBy(x, src, ev, ek);
            assert eks - (todo - {ek}) == (eks - todo) + {ek};
            todo := todo - {ek};
            named := named + more;
          }
          forall i ensures i in named <==> ReachableBy(Value(), x, src, ev, i) {
            assert ReachableBy(Value(), x, src, ev, i) <==>
                   exists o, ek :: o in ev.Items() && ek in eks && Reaches(Value(), x, ek, src, o, i);
          }
          now := KeepChanged(x, src, ev, true, named);
        } else {
          now := KeepChanged(x, src, ev, false, deps.Keys);
        }
        assert forall i :: i in now <==> ChangedBy(Value(), x, src, ev, i);
        changed := changed + now;
      }
    }
  }
}
