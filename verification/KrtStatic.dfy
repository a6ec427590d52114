/** A collection whose objects are set directly. */
module KrtStatic {
  import opened Options
  import opened KrtTypes
  import opened KrtIndex
  import opened KrtHandlers

  /** A map half way through a Reset: the old objects not yet met, and the new ones met so far. */
  function HalfReset(was: map<Key, Obj>, met: seq<Obj>): map<Key, Obj> {
    (was - KeysIn(met)) + ByKey(met)
  }

  lemma ResetOne(was: map<Key, Obj>, objects: seq<Obj>, n: nat)
    requires n < |objects| && objects[n].key !in KeysIn(objects[..n])
    ensures Get(HalfReset(was, objects[..n]), objects[n].key) == Get(was, objects[n].key)
    ensures HalfReset(was, objects[..n + 1]) == HalfReset(was, objects[..n])[objects[n].key := objects[n]]
  {
    KeysSnoc(objects, n);
    PutBehind(was, KeysIn(objects[..n]), ByKey(objects[..n]), objects[n]);
  }

  lemma PutBehind(was: map<Key, Obj>, keys: set<Key>, met: map<Key, Obj>, o: Obj)
    requires met.Keys == keys && o.key !in keys
    ensures Get((was - keys) + met, o.key) == Get(was, o.key)
    ensures (was - (keys + {o.key})) + met[o.key := o] == ((was - keys) + met)[o.key := o]
  {
  }

  /** The events replay so far, or never again: a key that comes twice is added when it is present. */
  lemma TakenInReplays(was: map<Key, Obj>, objects: seq<Obj>, n: nat, updates: seq<Event>, more: seq<Event>)
    requires n < |objects|
    requires Replay(was, updates) == if DistinctKeys(objects[..n]) then Some(HalfReset(was, objects[..n])) else None
    requires DistinctKeys(objects[..n + 1]) ==>
               Replay(HalfReset(was, objects[..n]), more) ==
                 Some(HalfReset(was, objects[..n])[objects[n].key := objects[n]])
    requires objects[n].key in KeysIn(objects[..n]) ==> more == [AddEvent(objects[n])]
    ensures Replay(was, updates + more) ==
            if DistinctKeys(objects[..n + 1]) then Some(HalfReset(was, objects[..n + 1])) else None
  {
    var before := HalfReset(was, objects[..n]);
    KeysSnoc(objects, n);
    ReplayConcat(was, updates, more);
    if DistinctKeys(objects[..n + 1]) {
      ResetOne(was, objects, n);
    } else if DistinctKeys(objects[..n]) {
      assert objects[n].key in before;
      ReplayAppend(before, [], AddEvent(objects[n]));
      assert more == [] + [AddEvent(objects[n])];
    }
  }

  /** The events are about the objects met; if no key came twice, once about each. */
  ghost predicate TakenOnce(met: seq<Obj>, updates: seq<Event>) {
    KeysNamed(updates) <= KeysIn(met) && (DistinctKeys(met) ==> NamedOnce(updates))
  }

  lemma TakenOneMore(objects: seq<Obj>, n: nat, updates: seq<Event>, more: seq<Event>)
    requires n < |objects| && TakenOnce(objects[..n], updates) && |more| <= 1 && KeysNamed(more) <= {objects[n].key}
    ensures TakenOnce(objects[..n + 1], updates + more)
  {
    NamedConcat(updates, more);
    KeysSnoc(objects, n);
  }

  lemma MinusOneMore(was: map<Key, Obj>, objects: seq<Obj>, n: nat)
    requires n < |objects|
    ensures (was - KeysIn(objects[..n])) - {objects[n].key} == was - KeysIn(objects[..n + 1])
  {
    KeysSnoc(objects, n);
  }

  class StaticList {
    var vals: map<Key, Obj>
    var indexes: map<string, IndexState>
    const handlers: HandlerSet

    ghost predicate Sound()
      reads this
    {
      WellKeyed(vals) && AllAgree(indexes, vals)
    }

    ghost predicate Valid()
      reads this, handlers
    {
      Sound() && handlers.Follow(vals)
    }

    constructor (objects: seq<Obj>)
      ensures Valid() && fresh(handlers) && handlers.sent == map[]
      ensures vals == ByKey(objects) && indexes == map[]
    {
      vals, indexes := ByKey(objects), map[];
      handlers := new HandlerSet();
    }

    method DeleteObject(k: Key) returns (events: seq<Event>)
      requires Valid()
      modifies this, handlers`sent
      ensures Valid() && vals == old(vals) - {k} && indexes.Keys == old(indexes).Keys
      ensures Replay(old(vals), events) == Some(vals)
      ensures if k in old(vals) then SentOnce(old(handlers.sent), handlers.sent, events)
              else handlers.sent == old(handlers.sent)
    {
      events := [];
      if k in vals {
        var ev := DeleteEvent(vals[k]);
        vals := vals - {k};
        Reindex(ev, old(vals));
        events := events + [ev];
        ReplayAppend(old(vals), [], ev);
        handlers.Distribute(events, old(vals), vals);
      } else {
        assert vals == vals - {k};
      }
    }

    /** Bring every index to the objects after one event. */
    method Reindex(ev: Event, ghost before: map<Key, Obj>)
      requires AllAgree(indexes, before) && ReplayOne(before, ev).Some?
      modifies this`indexes
      ensures AllAgree(indexes, ReplayOne(before, ev).value) && indexes.Keys == old(indexes).Keys
    {
      ghost var was := indexes;
      indexes := ApplyToAll(indexes, ev, ev.Latest().key);
      IndexesFollow(was, indexes, before, ev);
    }

    method DeleteObjects(filter: Obj -> bool) returns (removed: seq<Event>)
      requires Valid()
      modifies this, handlers`sent
      ensures Valid() && vals == (map k | k in old(vals) && !filter(old(vals)[k]) :: old(vals)[k])
      ensures indexes.Keys == old(indexes).Keys
      ensures Replay(old(vals), removed) == Some(vals)
      ensures if vals == old(vals) then handlers.sent == old(handlers.sent)
              else SentOnce(old(handlers.sent), handlers.sent, removed)
    {
      removed := RemoveMatching(filter);
      if |removed| > 0 {
        handlers.Distribute(removed, old(vals), vals);
      }
    }

    method RemoveMatching(filter: Obj -> bool) returns (removed: seq<Event>)
      requires Sound()
      modifies this
      ensures Sound() && vals == (map k | k in old(vals) && !filter(old(vals)[k]) :: old(vals)[k])
      ensures indexes.Keys == old(indexes).Keys
      ensures Replay(old(vals), removed) == Some(vals)
      ensures removed == [] <==> vals == old(vals)
    {
      removed := [];
      var todo := vals.Keys;
      while todo != {}
        invariant todo <= vals.Keys && Sound() && indexes.Keys == old(indexes).Keys
        invariant forall k :: k in vals <==> k in old(vals) && (k in todo || !filter(old(vals)[k]))
        invariant forall k :: k in vals ==> vals[k] == old(vals)[k]
        invariant Replay(old(vals), removed) == Some(vals)
        invariant removed == [] ==> vals == old(vals)
        invariant removed != [] ==> exists k :: k in old(vals) && k !in vals
      {
        var k :| k in todo;
        todo := todo - {k};
        if filter(vals[k]) {
          var ev := DeleteEvent(vals[k]);
          ghost var before := vals;
          vals := vals - {k};
          Reindex(ev, before);
          ReplayAppend(old(vals), removed, ev);
          removed := removed + [ev];
          assert k in old(vals) && k !in vals;
        }
      }
    }

    /** Add or replace one object; a conditional update says nothing about an equal object. */
    method UpdateObject(obj: Obj, conditional: bool) returns (events: seq<Event>)
      requires Valid()
      modifies this, handlers`sent
      ensures Valid() && vals == old(vals)[obj.key := obj] && indexes.Keys == old(indexes).Keys
      ensures Replay(old(vals), events) == Some(vals)
      ensures events == [] <==> conditional && Get(old(vals), obj.key) == Some(obj)
      ensures if events == [] then handlers.sent == old(handlers.sent)
              else SentOnce(old(handlers.sent), handlers.sent, events)
    {
      events := [];
      var k := obj.key;
      var f := k in vals;
      var was := if f then vals[k] else obj;
      vals := vals[k := obj];
      if f && conditional && was == obj {
        assert vals == old(vals);
        return;
      }
      var ev := if f then UpdateEvent(was, obj) else AddEvent(obj);
      Reindex(ev, old(vals));
      ReplayAppend(old(vals), [], ev);
      events := [] + [ev];
      handlers.Distribute(events, old(vals), vals);
    }

    /** Bring one incoming object into a half reset collection. */
    method Incoming(incoming: Obj, ghost before: map<Key, Obj>, ghost distinct: bool) returns (updates: seq<Event>)
      requires distinct ==>
                 WellKeyed(before) && AllAgree(indexes, before) && Get(before, incoming.key) == Get(vals, incoming.key)
      requires incoming.key in vals ==> vals[incoming.key].key == incoming.key
      modifies this
      ensures vals == old(vals) - {incoming.key} && indexes.Keys == old(indexes).Keys
      ensures distinct ==> AllAgree(indexes, before[incoming.key := incoming])
      ensures distinct ==> Replay(before, updates) == Some(before[incoming.key := incoming])
      ensures NoIdleUpdates(updates) && |updates| <= 1 && KeysNamed(updates) <= {incoming.key}
      ensures Get(old(vals), incoming.key) == Some(incoming) ==> updates == []
      ensures incoming.key !in old(vals) ==> updates == [AddEvent(incoming)]
    {
      updates := [];
      var k := incoming.key;
      if k in vals {
        var was := vals[k];
        if was != incoming {
          var ev := UpdateEvent(was, incoming);
          ghost var ix := indexes;
          indexes := ApplyToAll(indexes, ev, k);
          if distinct {
            IndexesFollow(ix, indexes, before, ev);
            ReplayAppend(before, [], ev);
          }
          updates := [] + [ev];
        } else if distinct {
          assert before == before[k := incoming];
        }
      } else {
        var ev := AddEvent(incoming);
        ghost var ix := indexes;
        indexes := ApplyToAll(indexes, ev, k);
        if distinct {
          IndexesFollow(ix, indexes, before, ev);
          ReplayAppend(before, [], ev);
        }
        updates := [] + [ev];
      }
      vals := vals - {k};
    }

    /** Take in the next incoming object, removing it from what remains. */
    method TakeOne(newState: seq<Obj>, n: nat, ghost was: map<Key, Obj>, ghost updates: seq<Event>)
      returns (more: seq<Event>)
      requires n < |newState| && WellKeyed(was) && vals == was - KeysIn(newState[..n])
      requires DistinctKeys(newState[..n]) ==> AllAgree(indexes, HalfReset(was, newState[..n]))
      requires Replay(was, updates) == if DistinctKeys(newState[..n]) then Some(HalfReset(was, newState[..n])) else None
      requires TakenOnce(newState[..n], updates)
      modifies this
      ensures vals == was - KeysIn(newState[..n + 1]) && indexes.Keys == old(indexes).Keys
      ensures NoIdleUpdates(more) && TakenOnce(newState[..n + 1], updates + more)
      ensures DistinctKeys(newState[..n + 1]) ==> AllAgree(indexes, HalfReset(was, newState[..n + 1]))
      ensures Replay(was, updates + more) ==
              if DistinctKeys(newState[..n + 1]) then Some(HalfReset(was, newState[..n + 1])) else None
    {
      KeysSnoc(newState, n);
      ghost var distinct := DistinctKeys(newState[..n + 1]);
      if distinct {
        ResetOne(was, newState, n);
      }
      more := Incoming(newState[n], HalfReset(was, newState[..n]), distinct);
      TakenInReplays(was, newState, n, updates, more);
      TakenOneMore(newState, n, updates, more);
      MinusOneMore(was, newState, n);
    }

    method TakeIn(newState: seq<Obj>) returns (updates: seq<Event>)
      requires Sound()
      modifies this
      ensures vals == old(vals) - KeysIn(newState) && indexes.Keys == old(indexes).Keys
      ensures NoIdleUpdates(updates) && TakenOnce(newState, updates)
      ensures DistinctKeys(newState) ==> AllAgree(indexes, HalfReset(old(vals), newState))
      ensures Replay(old(vals), updates) ==
                if DistinctKeys(newState) then Some(HalfReset(old(vals), newState)) else None
    {
      updates := [];
      ghost var was := vals;
      assert HalfReset(was, newState[..0]) == was && was - KeysIn(newState[..0]) == was;
      for n := 0 to |newState|
        invariant vals == was - KeysIn(newState[..n]) && indexes.Keys == old(indexes).Keys
        invariant NoIdleUpdates(updates) && TakenOnce(newState[..n], updates)
        invariant DistinctKeys(newState[..n]) ==> AllAgree(indexes, HalfReset(was, newState[..n]))
        invariant Replay(was, updates) ==
                  if DistinctKeys(newState[..n]) then Some(HalfReset(was, newState[..n])) else None
      {
        var more := TakeOne(newState, n, was, updates);
        updates := updates + more;
      }
      assert newState[..|newState|] == newState;
    }

    /** Delete what no incoming object replaced. */
    method DropRest(ghost before: map<Key, Obj>, ghost distinct: bool) returns (updates: seq<Event>)
      requires WellKeyed(vals)
      requires distinct ==> AllAgree(indexes, before) && WellKeyed(before)
      requires distinct ==> forall k :: k in vals ==> Get(before, k) == Some(vals[k])
      modifies this`indexes
      ensures indexes.Keys == old(indexes).Keys && NoIdleUpdates(updates)
      ensures NamedOnce(updates) && KeysNamed(updates) <= vals.Keys
      ensures distinct ==> AllAgree(indexes, before - vals.Keys) && Replay(before, updates) == Some(before - vals.Keys)
    {
      updates := [];
      var todo := vals.Keys;
      assert before - (vals.Keys - todo) == before;
      while todo != {}
        invariant todo <= vals.Keys && indexes.Keys == old(indexes).Keys && NoIdleUpdates(updates)
        invariant NamedOnce(updates) && KeysNamed(updates) <= vals.Keys - todo
        invariant distinct ==> AllAgree(indexes, before - (vals.Keys - todo))
        invariant distinct ==> Replay(before, updates) == Some(before - (vals.Keys - todo))
      {
        var k :| k in todo;
        ghost var now := before - (vals.Keys - todo);
        var ev := DeleteEvent(vals[k]);
        ghost var ix := indexes;
        indexes := ApplyToAll(indexes, ev, k);
        if distinct {
          assert ReplayOne(now, ev) == Some(now - {k});
          IndexesFollow(ix, indexes, now, ev);
          ReplayAppend(before, updates, ev);
          assert before - (vals.Keys - (todo - {k})) == now - {k};
        }
        todo := todo - {k};
        NamedConcat(updates, [ev]);
        updates := updates + [ev];
      }
      assert vals.Keys - {} == vals.Keys;
    }

    /**
     * Replace the whole contents. The events say exactly what changed, and nothing about equal
     * objects, if and only if no key comes twice.
     */
    method Reset(newState: seq<Obj>) returns (updates: seq<Event>)
      requires Valid()
      modifies this, handlers`sent
      ensures vals == ByKey(newState) && indexes.Keys == old(indexes).Keys
      ensures Replay(old(vals), updates) == if DistinctKeys(newState) then Some(vals) else None
      ensures DistinctKeys(newState) ==> Valid()
      ensures DistinctKeys(newState) ==> NamedOnce(updates) && OnlyChanges(old(vals), updates, vals)
      ensures NoIdleUpdates(updates)
      ensures if updates == [] then handlers.sent == old(handlers.sent)
              else SentOnce(old(handlers.sent), handlers.sent, updates)
    {
      updates := TakeIn(newState);
      ghost var distinct := DistinctKeys(newState);
      ghost var half := HalfReset(old(vals), newState);
      var rest := DropRest(half, distinct);
      ReplayConcat(old(vals), updates, rest);
      NamedConcat(updates, rest);
      updates := updates + rest;
      assert half - vals.Keys == ByKey(newState);
      if distinct {
        NamedOnceChanged(old(vals), updates);
      }
      vals := ByKey(newState);
      if |updates| > 0 {
        handlers.Send(updates);
        if distinct {
          HandlersHear(handlers.known, old(handlers.sent), handlers.sent, updates, old(vals), vals);
        }
      }
    }

    method Index(name: string, extract: Obj -> seq<string>)
      requires Valid()
      modifies this`indexes
      ensures Valid() && indexes.Keys == old(indexes).Keys + {name}
      ensures forall n :: n in old(indexes) ==> indexes[n] == old(indexes)[n]
      ensures name !in old(indexes) ==> indexes[name].extract == extract
    {
      if name !in indexes {
        var ix := Build(extract, vals);
        indexes := indexes[name := ix];
      }
    }

    method RegisterBatch(h: nat, runExistingState: bool)
      requires Valid() && h !in handlers.sent
      modifies handlers
      ensures Valid() && handlers.sent.Keys == old(handlers.sent).Keys + {h}
      ensures handlers.known == old(handlers.known)[h := if runExistingState then map[] else vals]
    {
      handlers.Register(h, runExistingState, vals);
    }
  }

  /** The smallest case in which the events of a Reset do not replay. */
  method ResetWithRepeatedKey(o: Obj) returns (updates: seq<Event>)
    ensures Replay(map[], updates).None?
  {
    var list := new StaticList([]);
    updates := list.Reset([o, o]);
    assert [o, o][0].key == [o, o][1].key;
  }
}
