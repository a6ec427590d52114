/**
 * The events of a merged join: each handler has its own part of a cache of merged objects, from
 * which the old side of every event is taken.
 */
module KrtMergedJoin {
  import opened Options
  import opened KrtTypes
  import opened KrtJoin

  /** Entries without a handler belong to the collection itself. */
  datatype CacheKey = CacheKey(handler: Option<nat>, key: Key)

  datatype Entry = Entry(prev: Option<Obj>, current: Option<Obj>)

  type Cache = map<CacheKey, Entry>

  /** What a handler's part of the cache says it has been told. */
  ghost function View(cache: Cache, h: nat): map<Key, Obj> {
    map ck | ck in cache && ck.handler == Some(h) && cache[ck].current.Some? :: ck.key := cache[ck].current.value
  }

  /** What a handler was last told about a key. */
  function LastTold(cache: Cache, h: nat, k: Key): Option<Obj> {
    if CacheKey(Some(h), k) in cache then cache[CacheKey(Some(h), k)].current else None
  }

  /** Every entry of the cache holds an object. */
  ghost predicate EntriesSome(cache: Cache) {
    forall ck :: ck in cache ==> cache[ck].current.Some?
  }

  /** Every entry of the cache holds an object under its own key. */
  ghost predicate EntriesSet(cache: Cache) {
    EntriesSome(cache) && forall ck :: ck in cache ==> cache[ck].current.value.key == ck.key
  }

  lemma ViewAt(cache: Cache, h: nat, k: Key)
    requires EntriesSome(cache)
    ensures Get(View(cache, h), k) == LastTold(cache, h, k)
  {
    if k in View(cache, h) {
      var ck :| ck in cache && ck.handler == Some(h) && ck.key == k;
      assert ck == CacheKey(Some(h), k);
    }
    if CacheKey(Some(h), k) in cache {
      assert k in View(cache, h);
    }
  }

  /** The cache after one key was found to merge to the given object, or to nothing. */
  function Stored(cache: Cache, merged: Option<Obj>, key: Key, h: nat): Cache {
    var ck, shared := CacheKey(Some(h), key), CacheKey(None, key);
    if merged.None? then cache - {ck} - {shared}
    else
      var entry := Entry(if ck in cache then cache[ck].current else None, merged);
      cache[ck := entry][shared := entry]
  }

  /** The event for one key, from what the handler was last told and what it merges to now. */
  function EventFor(was: Option<Obj>, merged: Option<Obj>): seq<Event> {
    match (was, merged)
    case (None, None) => []
    case (Some(o), None) => [DeleteEvent(o)]
    case (None, Some(n)) => [AddEvent(n)]
    case (Some(o), Some(n)) => [UpdateEvent(o, n)]
  }

  /** The view once a key is known to merge to the given object, or to nothing. */
  function WithKey(view: map<Key, Obj>, key: Key, merged: Option<Obj>): map<Key, Obj> {
    if merged.None? then view - {key} else view[key := merged.value]
  }

  lemma StoredView(cache: Cache, merged: Option<Obj>, key: Key, h: nat, g: nat)
    requires EntriesSet(cache) && (merged.Some? ==> merged.value.key == key)
    ensures EntriesSet(Stored(cache, merged, key, h))
    ensures g != h ==> View(Stored(cache, merged, key, h), g) == View(cache, g)
    ensures g == h ==> View(Stored(cache, merged, key, h), g) == WithKey(View(cache, g), key, merged)
  {
    var view, was := View(Stored(cache, merged, key, h), g), View(cache, g);
    StoredIsSet(cache, merged, key, h);
    forall k ensures Get(view, k) == if g == h && k == key then merged else Get(was, k) {
      StoredViewAt(cache, merged, key, h, g, k);
    }
    ViewFollows(was, view, key, merged, g == h);
  }

  lemma StoredIsSet(cache: Cache, merged: Option<Obj>, key: Key, h: nat)
    requires EntriesSet(cache) && (merged.Some? ==> merged.value.key == key)
    ensures EntriesSet(Stored(cache, merged, key, h))
  {
  }

  lemma ViewFollows(was: map<Key, Obj>, view: map<Key, Obj>, key: Key, merged: Option<Obj>, own: bool)
    requires forall k :: Get(view, k) == if own && k == key then merged else Get(was, k)
    ensures view == if own then WithKey(was, key, merged) else was
  {
    var expected := if own then WithKey(was, key, merged) else was;
    forall k ensures Get(view, k) == Get(expected, k) {
    }
    SameByGet(view, expected);
  }

  lemma StoredViewAt(cache: Cache, merged: Option<Obj>, key: Key, h: nat, g: nat, k: Key)
    requires EntriesSome(cache)
    ensures Get(View(Stored(cache, merged, key, h), g), k) ==
              if g == h && k == key then merged else Get(View(cache, g), k)
  {
    assert EntriesSome(Stored(cache, merged, key, h));
    ViewAt(cache, g, k);
    ViewAt(Stored(cache, merged, key, h), g, k);
  }

  /** What handling one batch of an inner collection for handler h does. */
  ghost predicate Handled(
      cache: Cache, cache': Cache, events: seq<Event>, cs: seq<map<Key, Obj>>, merge: Merge, h: nat, out: seq<Event>)
  {
    && EntriesSet(cache')
    && Replay(View(cache, h), out) == Some(View(cache', h))
    && NamedAreMerged(View(cache, h), View(cache', h), events, cs, merge)
    && OthersKept(cache, cache', h)
  }

  ghost predicate NamedAreMerged(
      view: map<Key, Obj>, view': map<Key, Obj>, events: seq<Event>, cs: seq<map<Key, Obj>>, merge: Merge)
  {
    forall k :: Get(view', k) == if NamesKey(events, k) then Merged(cs, merge, k) else Get(view, k)
  }

  ghost predicate OthersKept(cache: Cache, cache': Cache, h: nat) {
    forall g :: g != h ==> View(cache', g) == View(cache, g)
  }

  class MergeCache {
    var cache: Cache

    constructor ()
      ensures cache == map[]
    {
      cache := map[];
    }

    method UpdateLocked(merged: Option<Obj>, key: Key, h: nat) returns (entry: Entry)
      requires EntriesSome(cache)
      modifies this
      ensures EntriesSome(cache) && cache == Stored(old(cache), merged, key, h)
      ensures entry == Entry(LastTold(old(cache), h, key), merged)
    {
      var ck := CacheKey(Some(h), key);
      if merged.None? {
        var was: Option<Obj> := None;
        if ck in cache && cache[ck].current.Some? {
          was := cache[ck].current;
        }
        cache := cache - {ck};
        cache := cache - {CacheKey(None, key)};
        return Entry(was, None);
      }
      if ck in cache {
        if cache[ck].current.Some? {
          entry := Entry(cache[ck].current, merged);
        } else {
          entry := Entry(None, None);
        }
      } else {
        entry := Entry(None, merged);
      }
      cache := cache[ck := entry];
      cache := cache[CacheKey(None, key) := entry];
    }

    /**
     * Turn a batch of one inner collection into events about merged objects: key by key, in any
     * order, the event between what the handler was last told and what the key merges to now.
     * With a merge that keeps the key of what it merges, the events replay, the named keys are
     * up to date, and no other handler's part of the cache changes.
     */
    method HandleInnerCollectionEvent(events: seq<Event>, cs: seq<map<Key, Obj>>, merge: Merge, h: nat)
      returns (mergedEvents: seq<Event>)
      requires EntriesSome(cache) && AllValid(events)
      modifies this
      ensures EntriesSome(cache)
      ensures HandledInTurn(old(cache), cache, KeysNamed(events), cs, merge, h, mergedEvents)
      ensures EntriesSet(old(cache)) && AllWellKeyed(cs) && KeepsKey(merge) ==>
                Handled(old(cache), cache, events, cs, merge, h, mergedEvents)
    {
      var changed: set<Key> := set n | 0 <= n < |events| :: (assert events[n] in events; events[n].Latest().key);
      assert changed == KeysNamed(events);
      mergedEvents := [];
      var todo := changed;
      ghost var order: seq<Key> := [];
      while todo != {}
        invariant todo <= changed && EntriesSome(cache) && IsOrderOf(order, changed - todo)
        invariant cache == StoredAll(old(cache), cs, merge, order, h)
        invariant mergedEvents == EventsFor(old(cache), cs, merge, order, h)
      {
        var key :| key in todo;
        OrderSnoc(order, changed - todo, key);
        assert changed - (todo - {key}) == changed - todo + {key};
        assert (order + [key])[..|order|] == order;
        order := order + [key];
        todo := todo - {key};
        var more := HandleKey(key, Merged(cs, merge, key), h);
        mergedEvents := mergedEvents + more;
      }
      assert changed - todo == changed;
      if EntriesSet(old(cache)) && AllWellKeyed(cs) && KeepsKey(merge) {
        InTurnIsHandled(old(cache), events, cs, merge, order, h);
      }
    }

    method HandleKey(key: Key, merged: Option<Obj>, h: nat) returns (events: seq<Event>)
      requires EntriesSome(cache)
      modifies this
      ensures EntriesSome(cache) && cache == Stored(old(cache), merged, key, h)
      ensures events == EventFor(LastTold(old(cache), h, key), merged)
    {
      var entry := UpdateLocked(merged, key, h);
      if entry.current.None? && entry.prev.None? {
        events := [];
      } else if entry.current.None? {
        events := [DeleteEvent(entry.prev.value)];
      } else if entry.prev.None? {
        events := [AddEvent(merged.value)];
      } else {
        events := [UpdateEvent(entry.prev.value, merged.value)];
      }
    }
  }

  function StoredAll(cache: Cache, cs: seq<map<Key, Obj>>, merge: Merge, order: seq<Key>, h: nat): Cache {
    if order == [] then cache
    else
      var k := order[|order| - 1];
      Stored(StoredAll(cache, cs, merge, order[..|order| - 1], h), Merged(cs, merge, k), k, h)
  }

  function EventsFor(cache: Cache, cs: seq<map<Key, Obj>>, merge: Merge, order: seq<Key>, h: nat): seq<Event> {
    if order == [] then []
    else
      var init, k := order[..|order| - 1], order[|order| - 1];
      EventsFor(cache, cs, merge, init, h) +
      EventFor(LastTold(StoredAll(cache, cs, merge, init, h), h, k), Merged(cs, merge, k))
  }

  /** The keys were handled one after the other, in some order. */
  ghost predicate HandledInTurn(
      cache: Cache, cache': Cache, keys: set<Key>, cs: seq<map<Key, Obj>>, merge: Merge, h: nat, out: seq<Event>)
  {
    exists order :: IsOrderOf(order, keys) && cache' == StoredAll(cache, cs, merge, order, h)
      && out == EventsFor(cache, cs, merge, order, h)
  }

  /** From cache to cache', the keys came up to date, and the events say so. */
  ghost predicate UpToDate(
      cache: Cache, cache': Cache, out: seq<Event>, cs: seq<map<Key, Obj>>, merge: Merge, keys: set<Key>, h: nat)
  {
    && EntriesSet(cache') && OthersKept(cache, cache', h)
    && Replay(View(cache, h), out) == Some(View(cache', h))
    && KeysAreMerged(View(cache, h), View(cache', h), keys, cs, merge)
  }

  ghost predicate KeysAreMerged(
      view: map<Key, Obj>, view': map<Key, Obj>, keys: set<Key>, cs: seq<map<Key, Obj>>, merge: Merge)
  {
    forall k :: Get(view', k) == if k in keys then Merged(cs, merge, k) else Get(view, k)
  }

  lemma {:induction false} InTurnIsUpToDate(
      cache: Cache, cs: seq<map<Key, Obj>>, merge: Merge, order: seq<Key>, keys: set<Key>, h: nat)
    returns (cache': Cache, out: seq<Event>)
    requires EntriesSet(cache) && AllWellKeyed(cs) && KeepsKey(merge) && IsOrderOf(order, keys)
    ensures cache' == StoredAll(cache, cs, merge, order, h) && out == EventsFor(cache, cs, merge, order, h)
    ensures UpToDate(cache, cache', out, cs, merge, keys, h)
    decreases |order|
  {
    if order == [] {
      assert keys == {};
      cache', out := cache, [];
      NothingInTurn(cache, cs, merge, h);
    } else {
      var k := order[|order| - 1];
      OrderInit(order, keys);
      var before, events := InTurnIsUpToDate(cache, cs, merge, order[..|order| - 1], keys - {k}, h);
      MergedHasKey(cs, merge, k);
      cache', out := OneMoreInTurn(cache, before, events, cs, merge, keys, k, h);
    }
  }

  lemma NothingInTurn(cache: Cache, cs: seq<map<Key, Obj>>, merge: Merge, h: nat)
    requires EntriesSet(cache)
    ensures UpToDate(cache, cache, [], cs, merge, {}, h)
  {
  }

  lemma MergedHasKey(cs: seq<map<Key, Obj>>, merge: Merge, k: Key)
    requires AllWellKeyed(cs) && KeepsKey(merge)
    ensures Merged(cs, merge, k).Some? ==> Merged(cs, merge, k).value.key == k
  {
    FoundHasKey(cs, k);
  }

  lemma OneMoreInTurn(
      cache: Cache, before: Cache, events: seq<Event>, cs: seq<map<Key, Obj>>, merge: Merge,
      keys: set<Key>, k: Key, h: nat) returns (cache': Cache, out: seq<Event>)
    requires UpToDate(cache, before, events, cs, merge, keys - {k}, h) && k in keys
    requires Merged(cs, merge, k).Some? ==> Merged(cs, merge, k).value.key == k
    ensures cache' == Stored(before, Merged(cs, merge, k), k, h)
    ensures out == events + EventFor(LastTold(before, h, k), Merged(cs, merge, k))
    ensures UpToDate(cache, cache', out, cs, merge, keys, h)
  {
    var merged := Merged(cs, merge, k);
    cache', out := Stored(before, merged, k, h), events + EventFor(LastTold(before, h, k), merged);
    OneKeyStored(before, merged, k, h);
    ViewAt(before, h, k);
    KeptIsTransitive(cache, before, cache', h);
    ReplayConcat(View(cache, h), events, EventFor(LastTold(before, h, k), merged));
    OneMoreMerged(View(cache, h), View(before, h), keys, k, cs, merge);
  }

  lemma InTurnIsHandled(cache: Cache, events: seq<Event>, cs: seq<map<Key, Obj>>, merge: Merge, order: seq<Key>, h: nat)
    requires EntriesSet(cache) && AllWellKeyed(cs) && KeepsKey(merge) && IsOrderOf(order, KeysNamed(events))
    ensures Handled(cache, StoredAll(cache, cs, merge, order, h), events, cs, merge, h,
                    EventsFor(cache, cs, merge, order, h))
  {
    var cache', out := InTurnIsUpToDate(cache, cs, merge, order, KeysNamed(events), h);
    assert forall k :: k in KeysNamed(events) <==> NamesKey(events, k);
  }

  lemma OneKeyStored(cache: Cache, merged: Option<Obj>, key: Key, h: nat)
    requires EntriesSet(cache) && (merged.Some? ==> merged.value.key == key)
    ensures EntriesSet(Stored(cache, merged, key, h)) && OthersKept(cache, Stored(cache, merged, key, h), h)
    ensures View(Stored(cache, merged, key, h), h) == WithKey(View(cache, h), key, merged)
    ensures Replay(View(cache, h), EventFor(Get(View(cache, h), key), merged)) ==
              Some(WithKey(View(cache, h), key, merged))
  {
    forall g: nat | g != h ensures View(Stored(cache, merged, key, h), g) == View(cache, g) {
      StoredView(cache, merged, key, h, g);
    }
    StoredView(cache, merged, key, h, h);
    EventReplays(View(cache, h), key, merged);
  }

  lemma OneMoreMerged(
      was: map<Key, Obj>, view: map<Key, Obj>, keys: set<Key>, key: Key, cs: seq<map<Key, Obj>>, merge: Merge)
    requires KeysAreMerged(was, view, keys - {key}, cs, merge) && key in keys
    ensures KeysAreMerged(was, WithKey(view, key, Merged(cs, merge, key)), keys, cs, merge)
  {
    forall k ensures Get(WithKey(view, key, Merged(cs, merge, key)), k) ==
                     if k in keys then Merged(cs, merge, k) else Get(was, k)
    {
      assert k != key ==> Get(WithKey(view, key, Merged(cs, merge, key)), k) == Get(view, k);
    }
  }

  lemma KeptIsTransitive(a: Cache, b: Cache, c: Cache, h: nat)
    requires OthersKept(a, b, h) && OthersKept(b, c, h)
    ensures OthersKept(a, c, h)
  {
    forall g: nat | g != h ensures View(c, g) == View(a, g) {
      assert View(b, g) == View(a, g);
    }
  }

  lemma EventReplays(view: map<Key, Obj>, key: Key, merged: Option<Obj>)
    requires WellKeyed(view) && (merged.Some? ==> merged.value.key == key)
    ensures Replay(view, EventFor(Get(view, key), merged)) == Some(WithKey(view, key, merged))
  {
    var events := EventFor(Get(view, key), merged);
    if events == [] {
      assert view - {key} == view;
    } else {
      assert events == [] + [events[0]];
      ReplayAppend(view, [], events[0]);
    }
  }
}
