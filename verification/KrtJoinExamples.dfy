/** Runs of a merged join in which a handler is told too little, or what does not fit. */
module KrtJoinExamples {
  import opened Options
  import opened Sequences
  import opened KrtTypes
  import opened KrtJoin
  import opened KrtMergedJoin
  import opened KrtJoinSystem
  import KrtJoinEvents

  /** A merge that keeps the last object found. */
  function Last(ts: seq<Obj>): Option<Obj> {
    if ts == [] then None else Some(ts[|ts| - 1])
  }

  lemma FoundTwo(a: map<Key, Obj>, b: map<Key, Obj>, k: Key)
    ensures Found([a, b], k) == (if k in a then [a[k]] else []) + (if k in b then [b[k]] else [])
  {
    assert [a][..0] == [];
    assert Found([a], k) == [] + (if k in a then [a[k]] else []);
    assert [a, b][..1] == [a];
  }

  /** Joined without overlap checks, two objects under one key are both listed. */
  lemma UncheckedJoinRepeats(a0: Obj, a1: Obj)
    requires a0.key == "a" && a1.key == "a"
    ensures
      var listings, cs := [[a0], [a1]], [map["a" := a0], map["a" := a1]];
      AllListed(listings, cs) && Chained(listings) == [a0, a1] && !Lists(Chained(listings), FirstWins(cs))
  {
    var listings, cs := [[a0], [a1]], [map["a" := a0], map["a" := a1]];
    assert listings[..1] == [[a0]] && [[a0]][..0] == [];
    assert Chained(listings[..1]) == [a0];
    ListsSnoc([], map[], a0);
    ListsSnoc([], map[], a1);
    assert [] + [a0] == [a0] && [] + [a1] == [a1];
    var l := Chained(listings);
    assert l[0].key == l[1].key;
  }

  /** One of two objects under one key is deleted: passed on, the event says that the key is gone. */
  lemma SharedDeleteMisleads(a0: Obj, a1: Obj)
    requires a0.key == "a" && a1.key == "a"
    ensures
      var cs := [map["a" := a0], map["a" := a1]];
      Get(FirstWins(cs[0 := cs[0] - {"a"}]), "a") == Some(a1) && !KrtJoinEvents.DeletePasses(cs, 0, "a")
  {
    var cs := [map["a" := a0], map["a" := a1]];
    KrtJoinEvents.PickedAt(cs, 0, cs[0] - {"a"}, "a");
    assert cs[1..][0] == cs[1];
    KrtJoinEvents.DeletePassesIff(cs, 0, "a");
  }

  lemma NamesOne(e: Event)
    requires e.Valid()
    ensures forall k :: NamesKey([e], k) <==> e.Latest().key == k
  {
    assert [e][0] == e;
  }

  /** The cache once "a" was merged to a1 for handler 0. */
  function MergedCache(a1: Obj): Cache {
    Stored(map[], Some(a1), "a", 0)
  }

  lemma MergedCacheView(a1: Obj, g: nat)
    requires a1.key == "a"
    ensures EntriesSet(MergedCache(a1)) && View(MergedCache(a1), g) == if g == 0 then map["a" := a1] else map[]
  {
    StoredView(map[], Some(a1), "a", 0, g);
    assert View(map[], g) == map[];
  }

  function Both(a0: Obj, a1: Obj): seq<map<Key, Obj>> {
    [map["a" := a0], map["a" := a1]]
  }

  /** Handler 0 listens to the first collection, which is about to tell it of a0. */
  function Before(a0: Obj, a1: Obj): JSys {
    JSys(Both(a0, a1), map[], map[Reg(0, 0) := [[AddEvent(a0)]]], map[0 := []], {0}, map[], {})
  }

  /** It was told what "a" merges to. */
  function Between(a0: Obj, a1: Obj): JSys {
    JSys(Both(a0, a1), MergedCache(a1), map[Reg(0, 0) := []], map[0 := [AddEvent(a1)]], {0},
         map[Pair(0, "a") := Both(a0, a1)], {})
  }

  /** The second collection lost "a". */
  function Dropped(a0: Obj, a1: Obj): JSys {
    Between(a0, a1).(inner := [map["a" := a0], map[]], unheard := {Pair(0, "a")})
  }

  function Registered(a0: Obj, a1: Obj): JSys {
    Dropped(a0, a1).(flight := map[Reg(0, 0) := [], Reg(0, 1) := [[]]])
  }

  function Stale(a0: Obj, a1: Obj): JSys {
    Dropped(a0, a1).(flight := map[Reg(0, 0) := [], Reg(0, 1) := []])
  }

  ghost predicate Reachable(merge: Merge, s: JSys) {
    exists states, steps :: IsBehavior(merge, states, steps) && states[|steps|] == s
  }

  lemma ReachStart(merge: Merge, s: JSys)
    requires Init(s)
    ensures Reachable(merge, s)
  {
    assert IsBehavior(merge, [s], []);
  }

  lemma ReachStep(merge: Merge, s: JSys, step: JStep)
    requires Reachable(merge, s) && Enabled(merge, s, step)
    ensures Reachable(merge, After(merge, s, step))
  {
    var states, steps :| IsBehavior(merge, states, steps) && states[|steps|] == s;
    ChainExtends(Next(merge), states, steps, step, After(merge, s, step));
    assert IsBehavior(merge, states + [After(merge, s, step)], steps + [step]);
  }

  lemma BeforeIsReachable(a0: Obj, a1: Obj)
    requires a0.key == "a" && a1.key == "a"
    ensures Reachable(Last, Before(a0, a1))
  {
    var s0 := JSys(Both(a0, a1), map[], map[], map[], {}, map[], {});
    ReachStart(Last, s0);
    assert Copies(map[], 0) == map[];
    ReachStep(Last, s0, NewHandler(0));
    NamesOne(AddEvent(a0));
    ReachStep(Last, After(Last, s0, NewHandler(0)), RegisterInner(0, 0, [AddEvent(a0)]));
  }

  lemma LastKeepsKeys()
    ensures KeepsKey(Last)
  {
  }

  /** Handling a batch about one key. */
  lemma OneIsHandled(cache: Cache, e: Event, cs: seq<map<Key, Obj>>, h: nat)
    requires EntriesSet(cache) && AllWellKeyed(cs) && e.Valid()
    ensures
      var k := e.Latest().key;
      var merged := Merged(cs, Last, k);
      && KeysNamed([e]) == {k}
      && Handled(cache, Stored(cache, merged, k, h), [e], cs, Last, h, EventFor(LastTold(cache, h, k), merged))
  {
    var k := e.Latest().key;
    NamesOne(e);
    assert [e][0] == e && KeysNamed([e]) == {k};
    assert [k][..0] == [] && IsOrderOf([k], {k});
    LastKeepsKeys();
    InTurnIsHandled(cache, [e], cs, Last, [k], h);
    assert StoredAll(cache, cs, Last, [k], h) == Stored(cache, Merged(cs, Last, k), k, h);
    var out := EventFor(LastTold(cache, h, k), Merged(cs, Last, k));
    assert EventsFor(cache, cs, Last, [k], h) == [] + out == out;
  }

  lemma MergedIsLast(a0: Obj, a1: Obj)
    requires a0.key == "a" && a1.key == "a"
    ensures Merged(Both(a0, a1), Last, "a") == Some(a1)
  {
    FoundTwo(map["a" := a0], map["a" := a1], "a");
  }

  lemma HandleFirst(a0: Obj, a1: Obj)
    requires a0.key == "a" && a1.key == "a" && Reachable(Last, Before(a0, a1))
    ensures Reachable(Last, Between(a0, a1))
  {
    FirstIsHandled(a0, a1);
    BetweenIsAfter(a0, a1);
    HandleReaches(Before(a0, a1), Between(a0, a1), 0, 0, [AddEvent(a0)], [AddEvent(a1)]);
  }

  lemma FirstIsHandled(a0: Obj, a1: Obj)
    requires a0.key == "a" && a1.key == "a"
    ensures Handled(map[], MergedCache(a1), [AddEvent(a0)], Both(a0, a1), Last, 0, [AddEvent(a1)])
  {
    OneIsHandled(map[], AddEvent(a0), Both(a0, a1), 0);
    MergedIsLast(a0, a1);
  }

  ghost function Took(s: JSys, cache': Cache, h: nat, c: nat, batch: seq<Event>, out: seq<Event>): JSys
    requires h in s.heard
  {
    s.(cache := cache', heard := s.heard[h := s.heard[h] + out], flight := s.flight[Reg(h, c) := []],
       seen := Noted(s.seen, PairsNamed(h, batch), s.inner), unheard := s.unheard - PairsNamed(h, batch))
  }

  lemma BetweenIsAfter(a0: Obj, a1: Obj)
    requires a0.key == "a"
    ensures Between(a0, a1) == Took(Before(a0, a1), MergedCache(a1), 0, 0, [AddEvent(a0)], [AddEvent(a1)])
  {
    OneNamed(AddEvent(a0), 0);
    NotedOne(map[], Pair(0, "a"), Both(a0, a1));
    assert [] + [AddEvent(a1)] == [AddEvent(a1)];
  }

  /** Handling the one batch that is on its way from c to h. */
  lemma HandleReaches(s: JSys, s': JSys, h: nat, c: nat, batch: seq<Event>, out: seq<Event>)
    requires Reachable(Last, s) && h in s.heard && Reg(h, c) in s.flight && s.flight[Reg(h, c)] == [batch]
    requires Handled(s.cache, s'.cache, batch, s.inner, Last, h, out)
    requires s' == Took(s, s'.cache, h, c, batch, out)
    ensures Reachable(Last, s')
  {
    assert [batch][1..] == [];
    ReachStep(Last, s, Handle(h, c, s'.cache, out));
  }

  lemma NotedOne(seen: map<Pair, seq<map<Key, Obj>>>, p: Pair, inner: seq<map<Key, Obj>>)
    ensures Noted(seen, {p}, inner) == seen[p := inner] && Noted(seen, {}, inner) == seen
  {
  }

  lemma OneNamed(e: Event, h: nat)
    requires e.Valid()
    ensures PairsNamed(h, [e]) == {Pair(h, e.Latest().key)}
  {
    assert [e][0] == e;
    assert KeysNamed([e]) == {e.Latest().key};
  }

  lemma DropSecond(a0: Obj, a1: Obj)
    requires a0.key == "a" && a1.key == "a" && Reachable(Last, Between(a0, a1))
    ensures Reachable(Last, Dropped(a0, a1))
  {
    var s, step := Between(a0, a1), InnerChange(1, map[], [DeleteEvent(a1)]);
    NamesOne(DeleteEvent(a1));
    assert s.seen[Pair(0, "a")][1] == map["a" := a1] && s.inner[1] == map["a" := a1];
    assert LostUnheard(s, 1, map[]) == {Pair(0, "a")};
    ReachStep(Last, s, step);
    assert s.inner[1 := map[]] == [map["a" := a0], map[]];
    assert Sent(s.flight, 1, [DeleteEvent(a1)]) == s.flight;
  }

  lemma RegisterSecond(a0: Obj, a1: Obj)
    requires a1.key == "a" && Reachable(Last, Dropped(a0, a1))
    ensures Reachable(Last, Registered(a0, a1))
  {
    ReachStep(Last, Dropped(a0, a1), RegisterInner(0, 1, []));
  }

  lemma HandleSecond(a0: Obj, a1: Obj)
    requires a1.key == "a" && Reachable(Last, Registered(a0, a1))
    ensures Reachable(Last, Stale(a0, a1))
  {
    NothingIsHandled(a1, Registered(a0, a1).inner);
    StaleIsAfter(a0, a1);
    HandleReaches(Registered(a0, a1), Stale(a0, a1), 0, 1, [], []);
  }

  lemma NothingIsHandled(a1: Obj, inner: seq<map<Key, Obj>>)
    requires a1.key == "a"
    ensures Handled(MergedCache(a1), MergedCache(a1), [], inner, Last, 0, [])
  {
    MergedCacheView(a1, 0);
  }

  lemma StaleIsAfter(a0: Obj, a1: Obj)
    ensures Stale(a0, a1) == Took(Registered(a0, a1), MergedCache(a1), 0, 1, [], [])
  {
    assert PairsNamed(0, []) == {};
    NotedOne(Registered(a0, a1).seen, Pair(0, "a"), Registered(a0, a1).inner);
    assert [AddEvent(a1)] + [] == [AddEvent(a1)];
  }

  lemma StaleIsReachable(a0: Obj, a1: Obj)
    requires a0.key == "a" && a1.key == "a"
    ensures Reachable(Last, Stale(a0, a1))
  {
    BeforeIsReachable(a0, a1);
    HandleFirst(a0, a1);
    DropSecond(a0, a1);
    RegisterSecond(a0, a1);
    HandleSecond(a0, a1);
  }

  lemma StaleIsWrong(a0: Obj, a1: Obj)
    requires a0.key == "a" && a1.key == "a" && a0 != a1
    ensures Replay(map[], [AddEvent(a1)]) == Some(map["a" := a1])
    ensures !IsMerged([map["a" := a0], map[]], Last, map["a" := a1])
  {
    EventReplays(map[], "a", Some(a1));
    FoundTwo(map["a" := a0], map[], "a");
    assert Get(map["a" := a1], "a") != Merged([map["a" := a0], map[]], Last, "a");
  }

  /**
   * Without the condition on lost keys the promise fails. Registration is caught half way: the
   * second collection drops "a" after the first one's event had it merged, so nothing tells the
   * handler, which is left with a1 although a0 is all there is.
   */
  lemma DisturbedHandlerIsStale(a0: Obj, a1: Obj)
    requires a0.key == "a" && a1.key == "a" && a0 != a1
    ensures Reachable(Last, Stale(a0, a1))
    ensures 0 in Stale(a0, a1).clean && AllDelivered(Stale(a0, a1), 0)
    ensures Replay(map[], Stale(a0, a1).heard[0]) == Some(map["a" := a1])
    ensures !IsMerged(Stale(a0, a1).inner, Last, map["a" := a1])
    ensures Stale(a0, a1).unheard == {Pair(0, "a")}
  {
    StaleIsReachable(a0, a1);
    StaleIsWrong(a0, a1);
  }

  // ---------------------------------------------------------------------------------------------
  // A second handler

  /** Handler 1 came when the cache held "a", and the first collection told it of a0. */
  ghost function Late(a0: Obj, a1: Obj): JSys
    requires Enabled(Last, Between(a0, a1), NewHandler(1))
  {
    var s := After(Last, Between(a0, a1), NewHandler(1));
    s.(flight := s.flight[Reg(1, 0) := [[AddEvent(a0)]]])
  }

  lemma LateIsReachable(a0: Obj, a1: Obj)
    requires a0.key == "a" && a1.key == "a" && Reachable(Last, Between(a0, a1))
    ensures Reachable(Last, Late(a0, a1))
  {
    var s := Between(a0, a1);
    ReachStep(Last, s, NewHandler(1));
    NamesOne(AddEvent(a0));
    ReachStep(Last, After(Last, s, NewHandler(1)), RegisterInner(1, 0, [AddEvent(a0)]));
  }

  lemma LateCache(a1: Obj)
    requires a1.key == "a"
    ensures EntriesSet(CopyFor(MergedCache(a1), 1)) && LastTold(CopyFor(MergedCache(a1), 1), 1, "a") == Some(a1)
    ensures HasCollectionEntries(MergedCache(a1))
  {
    var cache := MergedCache(a1);
    assert CacheKey(None, "a") in cache;
    assert CacheKey(Some(1), "a") in Copies(cache, 1);
  }

  lemma LateIsHandled(cache: Cache, a0: Obj, a1: Obj)
    requires a0.key == "a" && a1.key == "a" && EntriesSet(cache) && LastTold(cache, 1, "a") == Some(a1)
    ensures
      Handled(cache, Stored(cache, Some(a1), "a", 1), [AddEvent(a0)], Both(a0, a1), Last, 1, [UpdateEvent(a1, a1)])
  {
    OneIsHandled(cache, AddEvent(a0), Both(a0, a1), 1);
    MergedIsLast(a0, a1);
  }

  /**
   * A handler that comes when the cache holds a key: the first it hears of the key is an update of
   * an object it was never told about.
   */
  lemma CachedKeyDoesNotReplay(a0: Obj, a1: Obj) returns (s: JSys)
    requires a0.key == "a" && a1.key == "a"
    ensures Reachable(Last, s) && 1 in s.heard && s.heard[1] == [UpdateEvent(a1, a1)]
    ensures Replay(map[], s.heard[1]).None?
  {
    BeforeIsReachable(a0, a1);
    HandleFirst(a0, a1);
    LateIsReachable(a0, a1);
    LateCache(a1);
    LateIsHandled(CopyFor(MergedCache(a1), 1), a0, a1);
    var late, out := Late(a0, a1), [UpdateEvent(a1, a1)];
    s := Took(late, Stored(late.cache, Some(a1), "a", 1), 1, 0, [AddEvent(a0)], out);
    HandleReaches(late, s, 1, 0, [AddEvent(a0)], out);
    UpdateOfNothing(a1);
  }

  lemma UpdateOfNothing(o: Obj)
    ensures [] + [UpdateEvent(o, o)] == [UpdateEvent(o, o)] && Replay(map[], [UpdateEvent(o, o)]).None?
  {
    ReplayAppend(map[], [], UpdateEvent(o, o));
    assert [] + [UpdateEvent(o, o)] == [UpdateEvent(o, o)];
  }
}
