/**
 * One derived collection: its outputs, the inputs they came from, the mapping between the two,
 * the secondary indexes, the dependency table, and what has been sent to each handler.
 */
module KrtCollection {
  import opened Options
  import opened KrtTypes
  import opened KrtFilter
  import opened KrtDependencies
  import opened KrtIndex
  import opened KrtHandlers

  datatype CState = CState(
    outputs: map<Key, Obj>,
    inputs: map<Key, Obj>,
    mappings: map<Key, set<Key>>)

  const EMPTY := CState(map[], map[], map[])

  /** What a recomputed item asks the engine to do once the lock is held. */
  datatype Work = Drop(key: Key) | Put(input: Obj, results: map<Key, Obj>, deps: seq<Dependency>) {
    function InputKey(): Key {
      if Drop? then key else input.key
    }
  }

  function Outs(s: CState, i: Key): set<Key> {
    if i in s.mappings then s.mappings[i] else {}
  }

  /** The state after one item: all former outputs of the input go, the new results come. */
  function Applied(s: CState, w: Work): CState {
    match w
    case Drop(i) => CState(s.outputs - Outs(s, i), s.inputs - {i}, s.mappings - {i})
    case Put(i, results, _) =>
      CState((s.outputs - Outs(s, i.key)) + results, s.inputs[i.key := i], s.mappings[i.key := results.Keys])
  }

  function DepsApplied(d: DepState, w: Work): DepState {
    match w
    case Drop(i) => Deleted(d, i)
    case Put(i, _, ds) => Updated(d, i.key, ds)
  }

  function AppliedAll(s: CState, ws: seq<Work>): CState {
    if ws == [] then s else Applied(AppliedAll(s, ws[..|ws| - 1]), ws[|ws| - 1])
  }

  function DepsAppliedAll(d: DepState, ws: seq<Work>): DepState {
    if ws == [] then d else DepsApplied(DepsAppliedAll(d, ws[..|ws| - 1]), ws[|ws| - 1])
  }

  /**
   * The state invariant. owner gives the input an output key belongs to; krt requires that an
   * output key determines its input.
   */
  ghost predicate Partition(owner: Key -> Key, s: CState) {
    && WellKeyed(s.outputs) && WellKeyed(s.inputs)
    && s.mappings.Keys == s.inputs.Keys
    && (forall i :: i in s.mappings ==> OwnedBy(owner, i, s.mappings[i]))
    && (forall k :: k in s.outputs <==> k in Outs(s, owner(k)))
  }

  ghost predicate OwnedBy(owner: Key -> Key, i: Key, ks: set<Key>) {
    forall k :: k in ks ==> owner(k) == i
  }

  /** What the invariant says without owner: disjoint mapping values whose union is the outputs. */
  lemma PartitionMeansDisjointUnion(owner: Key -> Key, s: CState)
    requires Partition(owner, s)
    ensures forall i, j :: i in s.mappings && j in s.mappings && i != j ==> s.mappings[i] !! s.mappings[j]
    ensures forall k :: k in s.outputs <==> exists i :: i in s.mappings && k in s.mappings[i]
  {
    forall i, j | i in s.mappings && j in s.mappings && i != j
      ensures s.mappings[i] !! s.mappings[j]
    {
      assert OwnedBy(owner, i, s.mappings[i]) && OwnedBy(owner, j, s.mappings[j]);
    }
    forall k ensures k in s.outputs <==> exists i :: i in s.mappings && k in s.mappings[i] {
      if i :| i in s.mappings && k in s.mappings[i] {
        assert OwnedBy(owner, i, s.mappings[i]);
      }
    }
  }

  lemma OutsArePresent(owner: Key -> Key, s: CState, i: Key)
    requires Partition(owner, s)
    ensures Outs(s, i) <= s.outputs.Keys
  {
    forall k | k in Outs(s, i) ensures k in s.outputs {
      assert OwnedBy(owner, i, s.mappings[i]);
    }
  }

  /** m with its values under the given keys taken from r instead, absent ones included. */
  function Mixed(m: map<Key, Obj>, r: map<Key, Obj>, keys: set<Key>): map<Key, Obj> {
    map k | k in m.Keys + r.Keys && (k in keys ==> k in r) && (k !in keys ==> k in m)
      :: if k in keys then r[k] else m[k]
  }

  lemma MixedOneMore(m: map<Key, Obj>, r: map<Key, Obj>, keys: set<Key>, key: Key)
    ensures Mixed(m, r, keys + {key}) ==
            if key in r then Mixed(m, r, keys)[key := r[key]] else Mixed(m, r, keys) - {key}
    ensures key in m && key !in keys ==> key in Mixed(m, r, keys)
    ensures WellKeyed(m) && WellKeyed(r) ==> WellKeyed(Mixed(m, r, keys))
  {
  }

  ghost predicate Owned(owner: Key -> Key, w: Work) {
    w.Put? ==> WellKeyed(w.results) && LegalDeps(w.deps) && OwnedBy(owner, w.input.key, w.results.Keys)
  }

  lemma AppliedKeepsOwners(owner: Key -> Key, s: CState, w: Work)
    requires Partition(owner, s) && Owned(owner, w)
    ensures forall j :: j in Applied(s, w).mappings ==> OwnedBy(owner, j, Applied(s, w).mappings[j])
  {
    var s' := Applied(s, w);
    forall j | j in s'.mappings ensures OwnedBy(owner, j, s'.mappings[j]) {
      if j != w.InputKey() {
        assert s'.mappings[j] == s.mappings[j];
      }
    }
  }

  lemma AppliedKeepsOutput(owner: Key -> Key, s: CState, w: Work, k: Key)
    requires Owned(owner, w) && OwnedBy(owner, w.InputKey(), Outs(s, w.InputKey()))
    requires k in s.outputs <==> k in Outs(s, owner(k))
    ensures k in Applied(s, w).outputs <==> k in Outs(Applied(s, w), owner(k))
  {
  }

  lemma AppliedKeepsPartition(owner: Key -> Key, s: CState, w: Work)
    requires Partition(owner, s) && Owned(owner, w)
    ensures Partition(owner, Applied(s, w))
  {
    var s' := Applied(s, w);
    AppliedKeepsOwners(owner, s, w);
    assert s'.mappings.Keys == s'.inputs.Keys && WellKeyed(s'.inputs);
    assert OwnedBy(owner, w.InputKey(), Outs(s, w.InputKey()));
    forall k ensures k in s'.outputs <==> k in Outs(s', owner(k)) {
      AppliedKeepsOutput(owner, s, w, k);
    }
  }

  /** An item changes nothing that belongs to another input. */
  lemma AppliedIsLocal(owner: Key -> Key, s: CState, w: Work, i: Key)
    requires Partition(owner, s) && Owned(owner, w) && i != w.InputKey()
    ensures Get(Applied(s, w).inputs, i) == Get(s.inputs, i)
    ensures Get(Applied(s, w).mappings, i) == Get(s.mappings, i)
    ensures forall k :: owner(k) == i ==> Get(Applied(s, w).outputs, k) == Get(s.outputs, k)
  {
  }

  lemma DepsAppliedIsComplete(d: DepState, w: Work)
    requires Complete(d) && (w.Put? ==> LegalDeps(w.deps))
    ensures Complete(DepsApplied(d, w))
    ensures DepsApplied(d, w).deps.Keys == if w.Put? then d.deps.Keys + {w.InputKey()} else d.deps.Keys - {w.InputKey()}
  {
    match w
    case Drop(i) => DeletedIsComplete(d, i);
    case Put(i, _, ds) => UpdatedIsComplete(d, i.key, ds);
  }

  lemma WorkKeepsSound(owner: Key -> Key, s: CState, d: DepState, w: Work)
    requires Partition(owner, s) && Owned(owner, w) && Complete(d) && d.deps.Keys == s.inputs.Keys
    ensures Partition(owner, Applied(s, w)) && Complete(DepsApplied(d, w))
    ensures DepsApplied(d, w).deps.Keys == Applied(s, w).inputs.Keys
  {
    AppliedKeepsPartition(owner, s, w);
    DepsAppliedIsComplete(d, w);
  }

  /** The works of a list of items, as the second loop of the engine reads them. */
  function WorkOf(item: Event, results: map<Key, Obj>, pending: map<Key, seq<Dependency>>): Work
    requires item.Valid() && (item.kind != Delete ==> item.Latest().key in pending)
  {
    if item.kind == Delete then Drop(item.Latest().key)
    else Put(item.Latest(), results, pending[item.Latest().key])
  }

  ghost predicate Ready(
      owner: Key -> Key, items: seq<Event>, recomputed: seq<map<Key, Obj>>, pending: map<Key, seq<Dependency>>)
  {
    && |recomputed| == |items|
    && (forall n :: 0 <= n < |items| ==>
          items[n].Valid() && (items[n].kind != Delete ==> items[n].Latest().key in pending))
    && (forall n :: 0 <= n < |items| ==> Owned(owner, WorkOf(items[n], recomputed[n], pending)))
  }

  ghost function Works(
      owner: Key -> Key, items: seq<Event>, recomputed: seq<map<Key, Obj>>, pending: map<Key, seq<Dependency>>
    ): (ws: seq<Work>)
    requires Ready(owner, items, recomputed, pending)
    ensures |ws| == |items|
    ensures forall n :: 0 <= n < |items| ==> ws[n] == WorkOf(items[n], recomputed[n], pending)
  {
    seq(|items|, n requires 0 <= n < |items| => WorkOf(items[n], recomputed[n], pending))
  }

  lemma IsReady(
      owner: Key -> Key, items: seq<Event>, recomputed: seq<map<Key, Obj>>, pending: map<Key, seq<Dependency>>, n: nat)
    requires Ready(owner, items, recomputed, pending) && n < |items|
    ensures items[n].Valid() && (items[n].kind != Delete ==> items[n].Latest().key in pending)
    ensures Owned(owner, WorkOf(items[n], recomputed[n], pending))
  {
  }

  lemma AppliedOneMore(s: CState, d: DepState, ws: seq<Work>, n: nat)
    requires n < |ws|
    ensures AppliedAll(s, ws[..n + 1]) == Applied(AppliedAll(s, ws[..n]), ws[n])
    ensures DepsAppliedAll(d, ws[..n + 1]) == DepsApplied(DepsAppliedAll(d, ws[..n]), ws[n])
  {
    assert ws[..n + 1][..n] == ws[..n];
  }

  class ManyCollection {
    ghost const owner: Key -> Key
    const deps: DependencyState
    var outputs: map<Key, Obj>
    var inputs: map<Key, Obj>
    var mappings: map<Key, set<Key>>
    var indexes: map<string, IndexState>
    const handlers: HandlerSet

    function State(): CState
      reads this`outputs, this`inputs, this`mappings
    {
      CState(outputs, inputs, mappings)
    }

    /** The stored state is consistent: outputs, inputs, mappings, indexes and dependencies. */
    ghost predicate Sound()
      reads this`outputs, this`inputs, this`mappings, this`indexes, deps
    {
      && Partition(owner, State())
      && AllAgree(indexes, outputs)
      && Complete(deps.Value()) && deps.deps.Keys == inputs.Keys
    }

    ghost predicate Valid()
      reads this, deps, handlers
    {
      Sound() && handlers.Follow(outputs)
    }

    constructor (ghost owner: Key -> Key)
      ensures Valid() && fresh(deps) && fresh(handlers)
      ensures State() == EMPTY && deps.Value() == EMPTY_DEPS && handlers.sent == map[]
      ensures this.owner == owner
    {
      this.owner := owner;
      deps := new DependencyState();
      handlers := new HandlerSet();
      outputs, inputs, mappings, indexes := map[], map[], map[], map[];
    }

    /** Apply one event to the outputs and to every index. */
    method Emit(ev: Event)
      requires AllAgree(indexes, outputs) && ReplayOne(outputs, ev).Some?
      modifies this`outputs, this`indexes
      ensures AllAgree(indexes, outputs) && indexes.Keys == old(indexes).Keys
      ensures ReplayOne(old(outputs), ev) == Some(outputs)
    {
      var key := ev.Latest().key;
      if ev.kind == Delete {
        outputs := outputs - {key};
      } else {
        outputs := outputs[key := ev.new_.value];
      }
      ghost var before := indexes;
      indexes := ApplyToAll(indexes, ev, key);
      IndexesFollow(before, indexes, old(outputs), ev);
    }

    /** Delete the outputs with these keys, in any order. */
    method RemoveOutputs(keys: set<Key>) returns (events: seq<Event>)
      requires WellKeyed(outputs) && AllAgree(indexes, outputs) && keys <= outputs.Keys
      modifies this`outputs, this`indexes
      ensures outputs == old(outputs) - keys
      ensures AllAgree(indexes, outputs) && indexes.Keys == old(indexes).Keys
      ensures Replay(old(outputs), events) == Some(outputs) && NoIdleUpdates(events)
    {
      events := [];
      var todo := keys;
      assert outputs - {} == outputs;
      while todo != {}
        invariant todo <= keys
        invariant outputs == old(outputs) - (keys - todo)
        invariant AllAgree(indexes, outputs) && indexes.Keys == old(indexes).Keys
        invariant Replay(old(outputs), events) == Some(outputs) && NoIdleUpdates(events)
      {
        var oKey :| oKey in todo;
        assert keys - (todo - {oKey}) == (keys - todo) + {oKey};
        todo := todo - {oKey};
        var ev := DeleteEvent(outputs[oKey]);
        ReplayAppend(old(outputs), events, ev);
        Emit(ev);
        events := events + [ev];
      }
    }

    /** Bring one output to its new value (absent included); no event if it has it already. */
    method SetOutput(key: Key, value: Option<Obj>) returns (events: seq<Event>)
      requires WellKeyed(outputs) && AllAgree(indexes, outputs)
      requires value.Some? ==> value.value.key == key
      requires key in outputs || value.Some?
      modifies this`outputs, this`indexes
      ensures outputs == if value.Some? then old(outputs)[key := value.value] else old(outputs) - {key}
      ensures AllAgree(indexes, outputs) && indexes.Keys == old(indexes).Keys
      ensures Replay(old(outputs), events) == Some(outputs) && NoIdleUpdates(events)
    {
      events := [];
      var ev: Event;
      if value.Some? && key in outputs {
        if value.value == outputs[key] {
          return;
        }
        ev := UpdateEvent(outputs[key], value.value);
      } else if value.Some? {
        ev := AddEvent(value.value);
      } else {
        ev := DeleteEvent(outputs[key]);
      }
      ReplayAppend(old(outputs), [], ev);
      Emit(ev);
      events := [] + [ev];
    }

    /** Replace the outputs under oldKeys by the given results, key by key in any order. */
    method ReplaceOutputs(oldKeys: set<Key>, results: map<Key, Obj>) returns (events: seq<Event>)
      requires WellKeyed(outputs) && WellKeyed(results) && AllAgree(indexes, outputs)
      requires oldKeys <= outputs.Keys
      modifies this`outputs, this`indexes
      ensures outputs == (old(outputs) - oldKeys) + results
      ensures AllAgree(indexes, outputs) && indexes.Keys == old(indexes).Keys
      ensures Replay(old(outputs), events) == Some(outputs) && NoIdleUpdates(events)
    {
      events := [];
      var all := results.Keys + oldKeys;
      var todo := all;
      ghost var done: set<Key> := {};
      assert Mixed(old(outputs), results, {}) == old(outputs);
      while todo != {}
        invariant done !! todo && done + todo == all
        invariant outputs == Mixed(old(outputs), results, done)
        invariant AllAgree(indexes, outputs) && indexes.Keys == old(indexes).Keys
        invariant Replay(old(outputs), events) == Some(outputs) && NoIdleUpdates(events)
      {
        var key :| key in todo;
        todo := todo - {key};
        MixedOneMore(old(outputs), results, done, key);
        var more := SetOutput(key, Get(results, key));
        ReplayConcat(old(outputs), events, more);
        events := events + more;
        done := done + {key};
      }
      assert outputs == (old(outputs) - oldKeys) + results;
    }

    method DropInput(i: Key) returns (events: seq<Event>)
      requires Partition(owner, State()) && AllAgree(indexes, outputs)
      modifies this`outputs, this`inputs, this`mappings, this`indexes, deps
      ensures State() == Applied(old(State()), Drop(i))
      ensures deps.Value() == DepsApplied(old(deps.Value()), Drop(i))
      ensures AllAgree(indexes, outputs) && indexes.Keys == old(indexes).Keys
      ensures Replay(old(outputs), events) == Some(outputs) && NoIdleUpdates(events)
    {
      OutsArePresent(owner, State(), i);
      events := RemoveOutputs(Outs(State(), i));
      mappings := mappings - {i};
      inputs := inputs - {i};
      deps.Delete(i);
    }

    method PutInput(i: Obj, results: map<Key, Obj>, ds: seq<Dependency>) returns (events: seq<Event>)
      requires Partition(owner, State()) && AllAgree(indexes, outputs)
      requires Owned(owner, Put(i, results, ds))
      modifies this`outputs, this`inputs, this`mappings, this`indexes, deps
      ensures State() == Applied(old(State()), Put(i, results, ds))
      ensures deps.Value() == DepsApplied(old(deps.Value()), Put(i, results, ds))
      ensures AllAgree(indexes, outputs) && indexes.Keys == old(indexes).Keys
      ensures Replay(old(outputs), events) == Some(outputs) && NoIdleUpdates(events)
    {
      OutsArePresent(owner, State(), i.key);
      var oldKeys := Outs(State(), i.key);
      deps.Update(i.key, ds);
      mappings := mappings[i.key := results.Keys];
      inputs := inputs[i.key := i];
      events := ReplaceOutputs(oldKeys, results);
    }

    /** The locked part of a recomputation, over all its items in order. */
    method HandleChangedPrimaryInputEvents(
        items: seq<Event>, recomputed: seq<map<Key, Obj>>, pending: map<Key, seq<Dependency>>)
      returns (events: seq<Event>)
      requires Valid() && Ready(owner, items, recomputed, pending)
      modifies this, deps, handlers
      ensures Valid() && indexes.Keys == old(indexes).Keys && handlers.known == old(handlers.known)
      ensures State() == AppliedAll(old(State()), Works(owner, items, recomputed, pending))
      ensures deps.Value() == DepsAppliedAll(old(deps.Value()), Works(owner, items, recomputed, pending))
      ensures Replay(old(outputs), events) == Some(outputs) && NoIdleUpdates(events)
      ensures if events == [] then handlers.sent == old(handlers.sent)
              else SentOnce(old(handlers.sent), handlers.sent, events)
    {
      ghost var ws := Works(owner, items, recomputed, pending);
      events := Commit(items, recomputed, pending, ws);
      if events != [] {
        handlers.Distribute(events, old(outputs), outputs);
      }
    }

    /** The loop over the items: everything but telling the handlers. */
    method Commit(
        items: seq<Event>, recomputed: seq<map<Key, Obj>>, pending: map<Key, seq<Dependency>>, ghost ws: seq<Work>)
      returns (events: seq<Event>)
      requires Ready(owner, items, recomputed, pending) && ws == Works(owner, items, recomputed, pending)
      requires Sound()
      modifies this`outputs, this`inputs, this`mappings, this`indexes, deps
      ensures State() == AppliedAll(old(State()), ws)
      ensures deps.Value() == DepsAppliedAll(old(deps.Value()), ws)
      ensures Sound() && indexes.Keys == old(indexes).Keys
      ensures Replay(old(outputs), events) == Some(outputs) && NoIdleUpdates(events)
    {
      events := [];
      ghost var s, d, was := State(), deps.Value(), outputs;
      for n := 0 to |items|
        invariant State() == AppliedAll(s, ws[..n]) && deps.Value() == DepsAppliedAll(d, ws[..n])
        invariant Sound() && indexes.Keys == old(indexes).Keys
        invariant Replay(was, events) == Some(outputs) && NoIdleUpdates(events)
      {
        AppliedOneMore(s, d, ws, n);
        IsReady(owner, items, recomputed, pending, n);
        var more := CommitOne(items[n], recomputed[n], pending, ws[n]);
        ReplayConcat(was, events, more);
        events := events + more;
      }
      assert ws[..|items|] == ws;
    }

    method CommitOne(item: Event, results: map<Key, Obj>, pending: map<Key, seq<Dependency>>, ghost w: Work)
      returns (events: seq<Event>)
      requires item.Valid() && (item.kind != Delete ==> item.Latest().key in pending)
      requires w == WorkOf(item, results, pending) && Owned(owner, w)
      requires Sound()
      modifies this`outputs, this`inputs, this`mappings, this`indexes, deps
      ensures State() == Applied(old(State()), w)
      ensures deps.Value() == DepsApplied(old(deps.Value()), w)
      ensures Sound() && indexes.Keys == old(indexes).Keys
      ensures Replay(old(outputs), events) == Some(outputs) && NoIdleUpdates(events)
    {
      WorkKeepsSound(owner, State(), deps.Value(), w);
      if item.kind == Delete {
        events := DropInput(item.Latest().key);
      } else {
        var i := item.Latest();
        events := PutInput(i, results, pending[i.key]);
      }
    }

    /** Create an index, or return without change when the name is taken. */
    method Index(name: string, extract: Obj -> seq<string>)
      requires Valid()
      modifies this`indexes
      ensures Valid() && indexes.Keys == old(indexes).Keys + {name}
      ensures forall n :: n in old(indexes) ==> indexes[n] == old(indexes)[n]
      ensures name !in old(indexes) ==> indexes[name].extract == extract
    {
      if name !in indexes {
        var ix := Build(extract, outputs);
        indexes := indexes[name := ix];
      }
    }

    method RegisterBatch(h: nat, runExistingState: bool)
      requires Valid() && h !in handlers.sent
      modifies handlers
      ensures Valid()
      ensures handlers.sent.Keys == old(handlers.sent).Keys + {h}
      ensures forall g :: g in old(handlers.sent) ==> handlers.sent[g] == old(handlers.sent)[g]
      ensures handlers.known == old(handlers.known)[h := if runExistingState then map[] else outputs]
    {
      handlers.Register(h, runExistingState, outputs);
    }
  }
}
