/** A secondary index of a collection and its agreement with the objects it indexes. */
module KrtIndex {
  import opened KrtTypes
  import opened KrtSets

  datatype IndexState = IndexState(extract: Obj -> seq<string>, index: map<string, set<Key>>)

  /** What Lookup(s) should find: the keys of all objects whose extracted keys contain s. */
  ghost function Scan(extract: Obj -> seq<string>, objects: map<Key, Obj>, s: string): set<Key> {
    set k | k in objects && s in extract(objects[k])
  }

  /** The index answers every question like a scan, and keeps no emptied set. */
  ghost predicate Agrees(ix: IndexState, objects: map<Key, Obj>) {
    && (forall s :: Members(ix.index, s) == Scan(ix.extract, objects, s))
    && forall s :: s in ix.index ==> ix.index[s] != {}
  }

  function KeySet(keys: seq<string>): set<string> {
    set s | s in keys
  }

  function IndexDelete(ix: IndexState, o: Obj, key: Key): IndexState {
    ix.(index := RemoveAt(ix.index, KeySet(ix.extract(o)), key))
  }

  function IndexInsert(ix: IndexState, o: Obj, key: Key): IndexState {
    ix.(index := InsertAt(ix.index, KeySet(ix.extract(o)), key))
  }

  function IndexUpdate(ix: IndexState, ev: Event, key: Key): IndexState {
    var ix1 := if ev.old_.Some? then IndexDelete(ix, ev.old_.value, key) else ix;
    if ev.new_.Some? then IndexInsert(ix1, ev.new_.value, key) else ix1
  }

  lemma InsertAgrees(ix: IndexState, objects: map<Key, Obj>, o: Obj, key: Key)
    requires Agrees(ix, objects) && key !in objects
    ensures Agrees(IndexInsert(ix, o, key), objects[key := o])
  {
    var ix' := IndexInsert(ix, o, key);
    forall s ensures Members(ix'.index, s) == Scan(ix.extract, objects[key := o], s) {
      assert Members(ix.index, s) == Scan(ix.extract, objects, s);
      assert Scan(ix.extract, objects[key := o], s) ==
             Scan(ix.extract, objects, s) + if s in ix.extract(o) then {key} else {};
    }
  }

  lemma DeleteAgrees(ix: IndexState, objects: map<Key, Obj>, key: Key)
    requires Agrees(ix, objects) && key in objects
    ensures Agrees(IndexDelete(ix, objects[key], key), objects - {key})
  {
    var ix' := IndexDelete(ix, objects[key], key);
    forall s ensures Members(ix'.index, s) == Scan(ix.extract, objects - {key}, s) {
      assert Members(ix.index, s) == Scan(ix.extract, objects, s);
      assert Scan(ix.extract, objects - {key}, s) == Scan(ix.extract, objects, s) - {key};
      if s in KeySet(ix.extract(objects[key])) {
        assert key in Scan(ix.extract, objects, s);
        assert s in ix.index;
      }
    }
    forall s | s in ix'.index ensures ix'.index[s] != {} {
      assert s in ix.index && ix.index[s] != {};
    }
  }

  /** An index follows its collection through every event the collection can replay. */
  lemma UpdateAgrees(ix: IndexState, objects: map<Key, Obj>, ev: Event)
    requires Agrees(ix, objects) && ReplayOne(objects, ev).Some?
    ensures Agrees(IndexUpdate(ix, ev, ev.Latest().key), ReplayOne(objects, ev).value)
  {
    var key := ev.Latest().key;
    match ev.kind
    case Add => InsertAgrees(ix, objects, ev.new_.value, key);
    case Delete => DeleteAgrees(ix, objects, key);
    case Update =>
      DeleteAgrees(ix, objects, key);
      InsertAgrees(IndexDelete(ix, objects[key], key), objects - {key}, ev.new_.value, key);
      assert (objects - {key})[key := ev.new_.value] == objects[key := ev.new_.value];
  }

  method Remove(ix: IndexState, o: Obj, key: Key) returns (ix': IndexState)
    ensures ix' == IndexDelete(ix, o, key)
  {
    ix' := ix;
    var keys := ix.extract(o);
    NothingToInsert(ix.index, key);
    for j := 0 to |keys|
      invariant ix'.extract == ix.extract
      invariant ix'.index == RemoveAt(ix.index, KeySet(keys[..j]), key)
    {
      assert KeySet(keys[..j + 1]) == KeySet(keys[..j]) + {keys[j]};
      RemoveAtOneMore(ix.index, KeySet(keys[..j]), keys[j], key);
      if Members(ix'.index, keys[j]) <= {key} {
        ix' := ix'.(index := ix'.index - {keys[j]});
      } else {
        ix' := ix'.(index := ix'.index[keys[j] := ix'.index[keys[j]] - {key}]);
      }
    }
    assert keys[..|keys|] == keys;
  }

  method Apply(ix: IndexState, ev: Event, key: Key) returns (ix': IndexState)
    ensures ix' == IndexUpdate(ix, ev, key)
  {
    ix' := ix;
    if ev.old_.Some? {
      ix' := Remove(ix, ev.old_.value, key);
    }
    if ev.new_.Some? {
      ghost var ix1 := ix';
      var keys := ix.extract(ev.new_.value);
      NothingToInsert(ix1.index, key);
      for j := 0 to |keys|
        invariant ix'.extract == ix.extract
        invariant ix'.index == InsertAt(ix1.index, KeySet(keys[..j]), key)
      {
        assert KeySet(keys[..j + 1]) == KeySet(keys[..j]) + {keys[j]};
        InsertAtOneMore(ix1.index, KeySet(keys[..j]), keys[j], key);
        ix' := ix'.(index := ix'.index[keys[j] := Members(ix'.index, keys[j]) + {key}]);
      }
      assert keys[..|keys|] == keys;
    }
  }

  /** The same event, applied to every index of a collection. */
  method ApplyToAll(indexes: map<string, IndexState>, ev: Event, key: Key) returns (r: map<string, IndexState>)
    ensures r.Keys == indexes.Keys
    ensures forall n :: n in indexes ==> r[n] == IndexUpdate(indexes[n], ev, key)
  {
    r := indexes;
    var todo := indexes.Keys;
    while todo != {}
      invariant todo <= indexes.Keys && r.Keys == indexes.Keys
      invariant forall n :: n in todo ==> r[n] == indexes[n]
      invariant forall n :: n in indexes && n !in todo ==> r[n] == IndexUpdate(indexes[n], ev, key)
    {
      var n :| n in todo;
      todo := todo - {n};
      var ix := Apply(r[n], ev, key);
      r := r[n := ix];
    }
  }

  ghost predicate AllAgree(indexes: map<string, IndexState>, objects: map<Key, Obj>) {
    forall n :: n in indexes ==> Agrees(indexes[n], objects)
  }

  lemma IndexesFollow(indexes: map<string, IndexState>, r: map<string, IndexState>, objects: map<Key, Obj>, ev: Event)
    requires AllAgree(indexes, objects) && ReplayOne(objects, ev).Some?
    requires r.Keys == indexes.Keys
    requires forall n :: n in indexes ==> r[n] == IndexUpdate(indexes[n], ev, ev.Latest().key)
    ensures AllAgree(r, ReplayOne(objects, ev).value)
  {
    forall n | n in r ensures Agrees(r[n], ReplayOne(objects, ev).value) {
      UpdateAgrees(indexes[n], objects, ev);
    }
  }

  /** An index created late is filled from the objects already there. */
  method Build(extract: Obj -> seq<string>, objects: map<Key, Obj>) returns (ix: IndexState)
    requires WellKeyed(objects)
    ensures ix.extract == extract && Agrees(ix, objects)
  {
    ix := IndexState(extract, map[]);
    var todo := objects.Keys;
    ghost var seen: map<Key, Obj> := map[];
    while todo != {}
      invariant todo <= objects.Keys
      invariant seen == objects - todo
      invariant ix.extract == extract && Agrees(ix, seen)
    {
      var k :| k in todo;
      todo := todo - {k};
      UpdateAgrees(ix, seen, AddEvent(objects[k]));
      ix := Apply(ix, AddEvent(objects[k]), k);
      seen := seen[k := objects[k]];
    }
    assert seen == objects;
  }

  /** Lookup lists exactly the objects of the scan. */
  method Lookup(ix: IndexState, objects: map<Key, Obj>, s: string) returns (res: seq<Obj>)
    requires WellKeyed(objects) && Agrees(ix, objects)
    ensures Lists(res, map k | k in objects && s in ix.extract(objects[k]) :: objects[k])
  {
    ScanIsRestricted(ix.extract, objects, s);
    res := ListKeys(objects, Members(ix.index, s));
  }

  lemma ScanIsRestricted(extract: Obj -> seq<string>, objects: map<Key, Obj>, s: string)
    ensures Restricted(objects, Scan(extract, objects, s)) ==
            map k | k in objects && s in extract(objects[k]) :: objects[k]
  {
  }
}
