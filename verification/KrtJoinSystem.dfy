/**
 * A merged join among its inner collections, as a state machine. Inner collections change at any
 * time, each handler registers with one inner collection after the other, and each inner batch is
 * handled in one step, against the inner collections as they are then.
 */
module KrtJoinSystem {
  import opened Options
  import opened Sequences
  import opened KrtTypes
  import opened KrtJoin
  import opened KrtMergedJoin

  /** Handler h listens to inner collection c. */
  datatype Reg = Reg(h: nat, c: nat)

  /** A key in the eyes of one handler. */
  datatype Pair = Pair(h: nat, k: Key)

  /**
   * seen holds, for each key a handler was told about, the inner collections as they were at the last
   * time. unheard holds the pairs of which part was lost since by a collection the handler did not
   * listen to yet. clean are the handlers that found no entry of the collection in the cache.
   */
  datatype JSys = JSys(
    inner: seq<map<Key, Obj>>,
    cache: Cache,
    flight: map<Reg, seq<seq<Event>>>,
    heard: map<nat, seq<Event>>,
    clean: set<nat>,
    seen: map<Pair, seq<map<Key, Obj>>>,
    unheard: set<Pair>)

  datatype JStep =
    | InnerChange(c: nat, contents: map<Key, Obj>, batch: seq<Event>)
    | NewHandler(h: nat)
    | RegisterInner(h: nat, c: nat, batch: seq<Event>)
    | Handle(h: nat, c: nat, cache: Cache, out: seq<Event>)

  ghost predicate HasCollectionEntries(cache: Cache) {
    exists ck :: ck in cache && ck.handler == None
  }

  /** A new handler starts from a copy of the collection's own entries. */
  ghost function CopyFor(cache: Cache, h: nat): Cache {
    cache + Copies(cache, h)
  }

  ghost function Copies(cache: Cache, h: nat): Cache {
    map ck | ck in cache && ck.handler == None :: CacheKey(Some(h), ck.key) := cache[ck]
  }

  ghost predicate Enabled(merge: Merge, s: JSys, step: JStep) {
    match step
    case InnerChange(c, m', batch) =>
      c < |s.inner| && WellKeyed(m') && AllValid(batch) &&
      forall k :: Get(s.inner[c], k) != Get(m', k) ==> NamesKey(batch, k)
    case NewHandler(h) => h !in s.heard
    case RegisterInner(h, c, batch) =>
      h in s.heard && c < |s.inner| && Reg(h, c) !in s.flight && AllValid(batch) &&
      forall k :: k in s.inner[c] ==> NamesKey(batch, k)
    case Handle(h, c, cache', out) =>
      h in s.heard && Reg(h, c) in s.flight && s.flight[Reg(h, c)] != [] &&
      Handled(s.cache, cache', s.flight[Reg(h, c)][0], s.inner, merge, h, out)
  }

  /** The batch of collection c goes to all who listen to it. */
  ghost function Sent(flight: map<Reg, seq<seq<Event>>>, c: nat, batch: seq<Event>): map<Reg, seq<seq<Event>>> {
    map r | r in flight :: if r in flight && r.c == c then flight[r] + [batch] else flight[r]
  }

  /** What was part of what a handler was told last, and is now lost without its hearing of it. */
  ghost function LostUnheard(s: JSys, c: nat, m': map<Key, Obj>): set<Pair>
    requires c < |s.inner|
  {
    set p | p in s.seen && c < |s.seen[p]| && p.k in s.seen[p][c] &&
            Reg(p.h, c) !in s.flight && p.k in s.inner[c] && p.k !in m'
  }

  ghost function PairsNamed(h: nat, batch: seq<Event>): set<Pair> {
    set k | k in KeysNamed(batch) :: Pair(h, k)
  }

  ghost function Noted(seen: map<Pair, seq<map<Key, Obj>>>, named: set<Pair>, inner: seq<map<Key, Obj>>):
    map<Pair, seq<map<Key, Obj>>>
  {
    seen + map p | p in named :: inner
  }

  ghost function After(merge: Merge, s: JSys, step: JStep): JSys
    requires Enabled(merge, s, step)
  {
    match step
    case InnerChange(c, m', batch) =>
      s.(inner := s.inner[c := m'], flight := Sent(s.flight, c, batch), unheard := s.unheard + LostUnheard(s, c, m'))
    case NewHandler(h) =>
      s.(cache := CopyFor(s.cache, h), heard := s.heard[h := []],
         clean := if HasCollectionEntries(s.cache) then s.clean else s.clean + {h})
    case RegisterInner(h, c, batch) => s.(flight := s.flight[Reg(h, c) := [batch]])
    case Handle(h, c, cache', out) =>
      var named := PairsNamed(h, s.flight[Reg(h, c)][0]);
      s.(cache := cache', heard := s.heard[h := s.heard[h] + out],
         flight := s.flight[Reg(h, c) := s.flight[Reg(h, c)][1..]],
         seen := Noted(s.seen, named, s.inner), unheard := s.unheard - named)
  }

  ghost predicate Init(s: JSys) {
    && AllWellKeyed(s.inner) && s.cache == map[] && s.flight == map[] && s.heard == map[] && s.clean == {}
    && s.seen == map[] && s.unheard == {}
  }

  ghost predicate IsBehavior(merge: Merge, states: seq<JSys>, steps: seq<JStep>) {
    IsChain(Next(merge), states, steps) && Init(states[0])
  }

  ghost function Next(merge: Merge): (JSys, JStep, JSys) -> bool {
    (s, step, s') => Enabled(merge, s, step) && s' == After(merge, s, step)
  }

  // ---------------------------------------------------------------------------------------------

  ghost predicate NamedIn(batches: seq<seq<Event>>, k: Key) {
    exists n :: 0 <= n < |batches| && NamesKey(batches[n], k)
  }

  /** An inner event about k is on its way to handler h. */
  ghost predicate OnTheWay(s: JSys, h: nat, k: Key) {
    exists c :: Reg(h, c) in s.flight && NamedIn(s.flight[Reg(h, c)], k)
  }

  /** What collection c held under k when the handler was last told about k. */
  function SeenAt(s: JSys, h: nat, k: Key, c: nat): Option<Obj> {
    if Pair(h, k) in s.seen && c < |s.seen[Pair(h, k)]| then Get(s.seen[Pair(h, k)][c], k) else None
  }

  /** The handler holds what k merged to when it was last told about k. */
  ghost predicate HoldsSeen(merge: Merge, s: JSys, h: nat, k: Key) {
    Get(View(s.cache, h), k) == if Pair(h, k) in s.seen then Merged(s.seen[Pair(h, k)], merge, k) else None
  }

  /** Of what c holds under k, the handler knows, is being told, will be told, or missed the loss. */
  ghost predicate Accounted(s: JSys, h: nat, k: Key, c: nat)
    requires c < |s.inner|
  {
    || Get(s.inner[c], k) == SeenAt(s, h, k, c)
    || OnTheWay(s, h, k)
    || (Reg(h, c) !in s.flight && k in s.inner[c])
    || (Pair(h, k) in s.unheard && SeenAt(s, h, k, c).Some? && k !in s.inner[c])
  }

  /** A mark means a loss: of something the handler was told, that it has not heard of again. */
  ghost predicate Meant(s: JSys, h: nat, k: Key) {
    Pair(h, k) in s.unheard ==> OnTheWay(s, h, k) || exists c :: LostAt(s, h, k, c)
  }

  ghost predicate LostAt(s: JSys, h: nat, k: Key, c: nat) {
    0 <= c < |s.inner| && SeenAt(s, h, k, c).Some? && (k in s.inner[c] ==> Reg(h, c) !in s.flight)
  }

  ghost predicate Told(merge: Merge, s: JSys, h: nat, k: Key) {
    HoldsSeen(merge, s, h, k) && Meant(s, h, k) && forall c :: 0 <= c < |s.inner| ==> Accounted(s, h, k, c)
  }

  ghost predicate Shape(s: JSys) {
    && AllWellKeyed(s.inner) && EntriesSet(s.cache)
    && (forall r :: r in s.flight ==> r.h in s.heard && r.c < |s.inner|)
    && (forall ck :: ck in s.cache && ck.handler.Some? ==> ck.handler.value in s.heard)
    && (forall p :: p in s.seen ==> p.h in s.heard && |s.seen[p]| == |s.inner|)
    && (forall p :: p in s.unheard ==> p in s.seen)
    && s.clean <= s.heard.Keys
  }

  /** The handler's events replay to what the cache holds for it, and every key is accounted for. */
  ghost predicate Served(merge: Merge, s: JSys, h: nat)
    requires h in s.heard
  {
    Replay(map[], s.heard[h]) == Some(View(s.cache, h)) && forall k :: Told(merge, s, h, k)
  }

  ghost predicate Inv(merge: Merge, s: JSys) {
    Shape(s) && forall h :: h in s.clean ==> Served(merge, s, h)
  }

  // ---------------------------------------------------------------------------------------------
  // A collection changes

  lemma StillOnTheWay(s: JSys, s': JSys, h: nat, k: Key, c: nat, batch: seq<Event>)
    requires s'.flight == Sent(s.flight, c, batch) && OnTheWay(s, h, k)
    ensures OnTheWay(s', h, k)
  {
    var c0 :| Reg(h, c0) in s.flight && NamedIn(s.flight[Reg(h, c0)], k);
    var bs, bs' := s.flight[Reg(h, c0)], s'.flight[Reg(h, c0)];
    var n :| 0 <= n < |bs| && NamesKey(bs[n], k);
    assert bs'[n] == bs[n];
    assert NamedIn(bs', k);
  }

  lemma NowOnTheWay(s: JSys, s': JSys, h: nat, k: Key, c: nat, batch: seq<Event>)
    requires s'.flight == Sent(s.flight, c, batch) && Reg(h, c) in s.flight && NamesKey(batch, k)
    ensures OnTheWay(s', h, k)
  {
    var was, now := s.flight[Reg(h, c)], s'.flight[Reg(h, c)];
    assert now == was + [batch] && NamesKey(now[|was|], k);
    assert NamedIn(now, k);
  }

  lemma InnerChangeAccounts(s: JSys, s': JSys, c: nat, m': map<Key, Obj>, batch: seq<Event>, h: nat, k: Key, d: nat)
    requires c < |s.inner| && d < |s.inner| && (Get(s.inner[c], k) != Get(m', k) ==> NamesKey(batch, k))
    requires s'.inner == s.inner[c := m'] && s'.flight == Sent(s.flight, c, batch) && s'.seen == s.seen
    requires s'.unheard == s.unheard + LostUnheard(s, c, m')
    requires Accounted(s, h, k, d)
    ensures Accounted(s', h, k, d)
  {
    if OnTheWay(s, h, k) {
      StillOnTheWay(s, s', h, k, c, batch);
    } else if d == c && Get(s.inner[c], k) != Get(m', k) {
      if Reg(h, c) in s.flight {
        NowOnTheWay(s, s', h, k, c, batch);
      } else if k !in m' && SeenAt(s, h, k, c).Some? {
        assert Pair(h, k) in LostUnheard(s, c, m');
      }
    }
  }

  lemma InnerChangeMeans(s: JSys, s': JSys, c: nat, m': map<Key, Obj>, batch: seq<Event>, h: nat, k: Key)
    requires c < |s.inner| && (Get(s.inner[c], k) != Get(m', k) ==> NamesKey(batch, k))
    requires s'.inner == s.inner[c := m'] && s'.flight == Sent(s.flight, c, batch) && s'.seen == s.seen
    requires s'.unheard == s.unheard + LostUnheard(s, c, m')
    requires Meant(s, h, k)
    ensures Meant(s', h, k)
  {
    if Pair(h, k) in LostUnheard(s, c, m') {
      assert LostAt(s', h, k, c);
    } else if Pair(h, k) in s.unheard {
      if OnTheWay(s, h, k) {
        StillOnTheWay(s, s', h, k, c, batch);
      } else {
        var d :| LostAt(s, h, k, d);
        if d == c && k !in s.inner[c] && k in m' && Reg(h, c) in s.flight {
          NowOnTheWay(s, s', h, k, c, batch);
        } else {
          assert LostAt(s', h, k, d);
        }
      }
    }
  }

  lemma InnerChangeKeeps(merge: Merge, s: JSys, c: nat, m': map<Key, Obj>, batch: seq<Event>)
    requires Inv(merge, s) && Enabled(merge, s, InnerChange(c, m', batch))
    ensures Inv(merge, After(merge, s, InnerChange(c, m', batch)))
  {
    var s' := After(merge, s, InnerChange(c, m', batch));
    forall h, k | h in s'.clean ensures Told(merge, s', h, k) {
      assert Told(merge, s, h, k);
      InnerChangeMeans(s, s', c, m', batch, h, k);
      forall d | 0 <= d < |s'.inner| ensures Accounted(s', h, k, d) {
        InnerChangeAccounts(s, s', c, m', batch, h, k, d);
      }
    }
  }

  // ---------------------------------------------------------------------------------------------
  // A handler comes

  lemma CopiedView(cache: Cache, h: nat, g: nat)
    requires EntriesSet(cache) && g != h
    ensures EntriesSet(CopyFor(cache, h)) && View(CopyFor(cache, h), g) == View(cache, g)
  {
    SameEntriesSameView(cache, CopyFor(cache, h), g);
  }

  lemma SameEntriesSameView(cache: Cache, cache': Cache, g: nat)
    requires EntriesSome(cache) && EntriesSome(cache')
    requires forall k :: LastTold(cache', g, k) == LastTold(cache, g, k)
    ensures View(cache', g) == View(cache, g)
  {
    forall k ensures Get(View(cache', g), k) == Get(View(cache, g), k) {
      ViewAt(cache, g, k);
      ViewAt(cache', g, k);
    }
    SameByGet(View(cache', g), View(cache, g));
  }

  /** What a handler is told depends on the inner collections, its registrations and its view. */
  lemma SameTold(merge: Merge, s: JSys, s': JSys, g: nat, k: Key)
    requires s'.inner == s.inner && s'.flight == s.flight && s'.seen == s.seen && s'.unheard == s.unheard
    requires View(s'.cache, g) == View(s.cache, g) && Told(merge, s, g, k)
    ensures Told(merge, s', g, k)
  {
    assert OnTheWay(s', g, k) <==> OnTheWay(s, g, k);
    forall c | 0 <= c < |s'.inner| ensures Accounted(s', g, k, c) {
      assert Accounted(s, g, k, c);
    }
    if Pair(g, k) in s.unheard && !OnTheWay(s, g, k) {
      var c :| LostAt(s, g, k, c);
      assert LostAt(s', g, k, c);
    }
  }

  /** A handler without registrations and with an empty view will be told everything there is. */
  lemma NewHandlerIsTold(merge: Merge, s: JSys, h: nat, k: Key)
    requires Shape(s) && View(s.cache, h) == map[]
    requires Pair(h, k) !in s.seen && forall c :: Reg(h, c) !in s.flight
    ensures Told(merge, s, h, k)
  {
  }

  lemma FreshHandlerView(cache: Cache, h: nat)
    requires EntriesSet(cache) && !HasCollectionEntries(cache) && forall ck :: ck in cache ==> ck.handler != Some(h)
    ensures CopyFor(cache, h) == cache && View(cache, h) == map[]
  {
    assert Copies(cache, h) == map[];
  }

  lemma CopiedEntries(cache: Cache, h: nat, ck: CacheKey)
    requires EntriesSet(cache) && ck in CopyFor(cache, h)
    ensures CopyFor(cache, h)[ck].current.Some? && CopyFor(cache, h)[ck].current.value.key == ck.key
    ensures ck in cache || ck.handler == Some(h)
  {
  }

  lemma NewHandlerShape(s: JSys, s': JSys, h: nat)
    requires Shape(s) && h !in s.heard && s'.clean <= s.clean + {h}
    requires s' == s.(cache := CopyFor(s.cache, h), heard := s.heard[h := []], clean := s'.clean)
    ensures Shape(s')
  {
    forall ck | ck in s'.cache
      ensures s'.cache[ck].current.Some? && s'.cache[ck].current.value.key == ck.key
      ensures ck in s.cache || ck.handler == Some(h)
    {
      CopiedEntries(s.cache, h, ck);
    }
  }

  lemma NewHandlerViews(s: JSys, h: nat, g: nat)
    requires Shape(s) && h !in s.heard
    ensures g != h ==> View(CopyFor(s.cache, h), g) == View(s.cache, g)
    ensures g == h && !HasCollectionEntries(s.cache) ==> View(CopyFor(s.cache, h), g) == map[]
  {
    if g != h {
      CopiedView(s.cache, h, g);
    } else if !HasCollectionEntries(s.cache) {
      FreshHandlerView(s.cache, h);
    }
  }

  lemma NewHandlerKeeps(merge: Merge, s: JSys, h: nat)
    requires Inv(merge, s) && Enabled(merge, s, NewHandler(h))
    ensures Inv(merge, After(merge, s, NewHandler(h)))
  {
    var s' := After(merge, s, NewHandler(h));
    NewHandlerShape(s, s', h);
    NewHandlerHolds(merge, s, s', h);
  }

  lemma NewHandlerServes(merge: Merge, s: JSys, s': JSys, h: nat, g: nat)
    requires Shape(s) && Shape(s') && h !in s.heard && (g != h ==> g in s.heard && Served(merge, s, g))
    requires g == h ==> !HasCollectionEntries(s.cache)
    requires s' == s.(cache := CopyFor(s.cache, h), heard := s.heard[h := []], clean := s'.clean)
    ensures Served(merge, s', g)
  {
    if g == h {
      NewHandlerIsServed(merge, s, s', h);
    } else {
      NewHandlerViews(s, h, g);
      SameServed(merge, s, s', g);
    }
  }

  lemma NewHandlerIsServed(merge: Merge, s: JSys, s': JSys, h: nat)
    requires Shape(s) && Shape(s') && h !in s.heard && !HasCollectionEntries(s.cache)
    requires s' == s.(cache := CopyFor(s.cache, h), heard := s.heard[h := []], clean := s'.clean)
    ensures Served(merge, s', h)
  {
    NewHandlerViews(s, h, h);
    forall k ensures Told(merge, s', h, k) {
      NewHandlerIsTold(merge, s', h, k);
    }
  }

  lemma SameServed(merge: Merge, s: JSys, s': JSys, g: nat)
    requires g in s.heard && g in s'.heard && s'.heard[g] == s.heard[g] && Served(merge, s, g)
    requires s'.inner == s.inner && s'.flight == s.flight && s'.seen == s.seen && s'.unheard == s.unheard
    requires View(s'.cache, g) == View(s.cache, g)
    ensures Served(merge, s', g)
  {
    forall k ensures Told(merge, s', g, k) {
      SameTold(merge, s, s', g, k);
    }
  }

  lemma NewHandlerHolds(merge: Merge, s: JSys, s': JSys, h: nat)
    requires Inv(merge, s) && h !in s.heard && Shape(s')
    requires s' == s.(cache := CopyFor(s.cache, h), heard := s.heard[h := []],
                      clean := if HasCollectionEntries(s.cache) then s.clean else s.clean + {h})
    ensures Inv(merge, s')
  {
    forall g | g in s'.clean ensures Served(merge, s', g) {
      assert g != h ==> g in s.heard && Served(merge, s, g);
      NewHandlerServes(merge, s, s', h, g);
    }
  }

  lemma RegisterStaysOnTheWay(s: JSys, s': JSys, h: nat, c: nat, batch: seq<Event>, g: nat, k: Key)
    requires Reg(h, c) !in s.flight && s'.flight == s.flight[Reg(h, c) := [batch]]
    requires OnTheWay(s, g, k) || (g == h && NamesKey(batch, k))
    ensures OnTheWay(s', g, k)
  {
    if OnTheWay(s, g, k) {
      var c0 :| Reg(g, c0) in s.flight && NamedIn(s.flight[Reg(g, c0)], k);
      assert s'.flight[Reg(g, c0)] == s.flight[Reg(g, c0)];
    } else {
      assert s'.flight[Reg(h, c)] == [batch] && NamesKey([batch][0], k);
      assert NamedIn(s'.flight[Reg(h, c)], k);
    }
  }

  lemma RegisterTells(merge: Merge, s: JSys, s': JSys, h: nat, c: nat, batch: seq<Event>, g: nat, k: Key)
    requires c < |s.inner| && Reg(h, c) !in s.flight && (k in s.inner[c] ==> NamesKey(batch, k))
    requires s' == s.(flight := s.flight[Reg(h, c) := [batch]]) && Told(merge, s, g, k)
    ensures Told(merge, s', g, k)
  {
    if OnTheWay(s, g, k) || (g == h && NamesKey(batch, k)) {
      RegisterStaysOnTheWay(s, s', h, c, batch, g, k);
    } else {
      forall d | 0 <= d < |s'.inner| ensures Accounted(s', g, k, d) {
        assert Accounted(s, g, k, d);
      }
      if Pair(g, k) in s.unheard {
        var d :| LostAt(s, g, k, d);
        assert LostAt(s', g, k, d);
      }
    }
  }

  lemma RegisterKeeps(merge: Merge, s: JSys, h: nat, c: nat, batch: seq<Event>)
    requires Inv(merge, s) && Enabled(merge, s, RegisterInner(h, c, batch))
    ensures Inv(merge, After(merge, s, RegisterInner(h, c, batch)))
  {
    var s' := After(merge, s, RegisterInner(h, c, batch));
    forall g, k | g in s'.clean ensures Told(merge, s', g, k) {
      assert Told(merge, s, g, k);
      RegisterTells(merge, s, s', h, c, batch, g, k);
    }
  }

  // ---------------------------------------------------------------------------------------------
  // A batch is handled

  lemma HandledStaysOnTheWay(s: JSys, s': JSys, h: nat, c: nat, g: nat, k: Key)
    requires Reg(h, c) in s.flight && s.flight[Reg(h, c)] != []
    requires s'.flight == s.flight[Reg(h, c) := s.flight[Reg(h, c)][1..]]
    requires OnTheWay(s, g, k) && !(g == h && NamesKey(s.flight[Reg(h, c)][0], k))
    ensures OnTheWay(s', g, k)
  {
    var c0 :| Reg(g, c0) in s.flight && NamedIn(s.flight[Reg(g, c0)], k);
    var bs, bs' := s.flight[Reg(g, c0)], s'.flight[Reg(g, c0)];
    var n :| 0 <= n < |bs| && NamesKey(bs[n], k);
    if Reg(g, c0) == Reg(h, c) {
      assert n > 0 && bs'[n - 1] == bs[n];
    }
    assert NamedIn(bs', k);
  }

  /** What handling a batch for h changes, beside the cache. */
  ghost predicate HandledState(s: JSys, s': JSys, h: nat, c: nat) {
    && Reg(h, c) in s.flight && s.flight[Reg(h, c)] != []
    && s'.inner == s.inner && s'.flight == s.flight[Reg(h, c) := s.flight[Reg(h, c)][1..]]
    && var named := PairsNamed(h, s.flight[Reg(h, c)][0]);
       s'.seen == Noted(s.seen, named, s.inner) && s'.unheard == s.unheard - named
  }

  lemma NamedPair(h: nat, batch: seq<Event>, g: nat, k: Key)
    ensures Pair(g, k) in PairsNamed(h, batch) <==> g == h && NamesKey(batch, k)
  {
    assert k in KeysNamed(batch) <==> NamesKey(batch, k);
  }

  lemma HandleTellsNamed(merge: Merge, s: JSys, s': JSys, h: nat, c: nat, k: Key)
    requires HandledState(s, s', h, c) && NamesKey(s.flight[Reg(h, c)][0], k)
    requires Get(View(s'.cache, h), k) == Merged(s.inner, merge, k)
    ensures Told(merge, s', h, k)
  {
    NamedPair(h, s.flight[Reg(h, c)][0], h, k);
  }

  lemma HandleTellsOther(merge: Merge, s: JSys, s': JSys, h: nat, c: nat, g: nat, k: Key)
    requires HandledState(s, s', h, c) && !(g == h && NamesKey(s.flight[Reg(h, c)][0], k))
    requires Get(View(s'.cache, g), k) == Get(View(s.cache, g), k) && Told(merge, s, g, k)
    ensures Told(merge, s', g, k)
  {
    NamedPair(h, s.flight[Reg(h, c)][0], g, k);
    if OnTheWay(s, g, k) {
      HandledStaysOnTheWay(s, s', h, c, g, k);
    } else {
      SameButWay(s, s', g, k);
    }
  }

  /** Losing nothing that is on the way to g about k, the account of k stays. */
  lemma SameButWay(s: JSys, s': JSys, g: nat, k: Key)
    requires s'.inner == s.inner && s'.flight.Keys == s.flight.Keys
    requires forall c :: SeenAt(s', g, k, c) == SeenAt(s, g, k, c)
    requires (Pair(g, k) in s'.unheard <==> Pair(g, k) in s.unheard) && !OnTheWay(s, g, k)
    requires Meant(s, g, k) && forall c :: 0 <= c < |s.inner| ==> Accounted(s, g, k, c)
    ensures Meant(s', g, k) && forall c :: 0 <= c < |s'.inner| ==> Accounted(s', g, k, c)
  {
    forall d | 0 <= d < |s'.inner| ensures Accounted(s', g, k, d) {
      assert Accounted(s, g, k, d);
    }
    if Pair(g, k) in s.unheard {
      var d :| LostAt(s, g, k, d);
      assert LostAt(s', g, k, d);
    }
  }

  lemma HandleTells(merge: Merge, s: JSys, s': JSys, h: nat, c: nat, g: nat, k: Key)
    requires HandledState(s, s', h, c) && Told(merge, s, g, k)
    requires NamedAreMerged(View(s.cache, h), View(s'.cache, h), s.flight[Reg(h, c)][0], s.inner, merge)
    requires OthersKept(s.cache, s'.cache, h)
    ensures Told(merge, s', g, k)
  {
    if g == h && NamesKey(s.flight[Reg(h, c)][0], k) {
      HandleTellsNamed(merge, s, s', h, c, k);
    } else {
      HandleTellsOther(merge, s, s', h, c, g, k);
    }
  }

  lemma HandleShape(s: JSys, s': JSys, h: nat, c: nat, out: seq<Event>)
    requires Shape(s) && HandledState(s, s', h, c) && h in s.heard
    requires EntriesSet(s'.cache) && OthersKept(s.cache, s'.cache, h)
    requires s'.heard == s.heard[h := s.heard[h] + out] && s'.clean == s.clean
    ensures Shape(s')
  {
    forall ck | ck in s'.cache && ck.handler.Some? ensures ck.handler.value in s.heard {
      ViewAt(s'.cache, ck.handler.value, ck.key);
      ViewAt(s.cache, ck.handler.value, ck.key);
      assert ck == CacheKey(Some(ck.handler.value), ck.key);
    }
  }

  lemma HandleKeeps(merge: Merge, s: JSys, h: nat, c: nat, cache': Cache, out: seq<Event>)
    requires Inv(merge, s) && Enabled(merge, s, Handle(h, c, cache', out))
    ensures Inv(merge, After(merge, s, Handle(h, c, cache', out)))
  {
    var s' := After(merge, s, Handle(h, c, cache', out));
    HandleShape(s, s', h, c, out);
    forall g | g in s'.clean ensures Replay(map[], s'.heard[g]) == Some(View(s'.cache, g)) {
      if g == h {
        ReplayConcat(map[], s.heard[h], out);
      }
    }
    forall g, k | g in s'.clean ensures Told(merge, s', g, k) {
      assert Told(merge, s, g, k);
      HandleTells(merge, s, s', h, c, g, k);
    }
  }

  lemma StepKeeps(merge: Merge, s: JSys, step: JStep)
    requires Inv(merge, s) && Enabled(merge, s, step)
    ensures Inv(merge, After(merge, s, step))
  {
    match step
    case InnerChange(c, m', batch) => InnerChangeKeeps(merge, s, c, m', batch);
    case NewHandler(h) => NewHandlerKeeps(merge, s, h);
    case RegisterInner(h, c, batch) => RegisterKeeps(merge, s, h, c, batch);
    case Handle(h, c, cache', out) => HandleKeeps(merge, s, h, c, cache', out);
  }

  lemma {:induction false} BehaviorKeeps(merge: Merge, states: seq<JSys>, steps: seq<JStep>, n: nat)
    requires IsBehavior(merge, states, steps) && n < |states|
    ensures Inv(merge, states[n])
  {
    if n > 0 {
      BehaviorKeeps(merge, states, steps, n - 1);
      ChainAt(Next(merge), states, steps, n - 1);
      StepKeeps(merge, states[n - 1], steps[n - 1]);
    }
  }

  // ---------------------------------------------------------------------------------------------
  // What a handler ends up with

  /** Handler h listens everywhere and nothing is on its way to it. */
  ghost predicate AllDelivered(s: JSys, h: nat) {
    forall c :: 0 <= c < |s.inner| ==> Reg(h, c) in s.flight && s.flight[Reg(h, c)] == []
  }

  /** At k, the collections differ from before only in that some lost it. */
  ghost predicate OnlyLost(was: seq<map<Key, Obj>>, now: seq<map<Key, Obj>>, k: Key) {
    && |was| == |now|
    && (forall c :: 0 <= c < |now| ==> Get(now[c], k) == Get(was[c], k) || (k in was[c] && k !in now[c]))
    && (exists c :: 0 <= c < |now| && k in was[c] && k !in now[c])
  }

  lemma {:induction false} FoundSame(a: seq<map<Key, Obj>>, b: seq<map<Key, Obj>>, k: Key)
    requires |a| == |b| && forall c :: 0 <= c < |a| ==> Get(a[c], k) == Get(b[c], k)
    ensures Found(a, k) == Found(b, k)
    decreases |a|
  {
    if a != [] {
      var n := |a| - 1;
      assert forall c :: 0 <= c < n ==> Get(a[..n][c], k) == Get(b[..n][c], k);
      FoundSame(a[..n], b[..n], k);
      assert Get(a[n], k) == Get(b[n], k);
    }
  }

  lemma MarkedAt(s: JSys, h: nat, k: Key)
    requires Shape(s) && AllDelivered(s, h) && !OnTheWay(s, h, k) && Pair(h, k) in s.unheard
    requires Meant(s, h, k) && forall c :: 0 <= c < |s.inner| ==> Accounted(s, h, k, c)
    ensures Pair(h, k) in s.seen && OnlyLost(s.seen[Pair(h, k)], s.inner, k)
  {
    var was := s.seen[Pair(h, k)];
    forall c | 0 <= c < |s.inner| ensures Get(s.inner[c], k) == Get(was[c], k) || (k in was[c] && k !in s.inner[c]) {
      assert Accounted(s, h, k, c);
    }
    var c: nat :| LostAt(s, h, k, c);
    assert k in was[c] && k !in s.inner[c];
  }

  lemma UnmarkedAt(merge: Merge, s: JSys, h: nat, k: Key)
    requires Shape(s) && AllDelivered(s, h) && !OnTheWay(s, h, k) && Pair(h, k) !in s.unheard
    requires forall c :: 0 <= c < |s.inner| ==> Accounted(s, h, k, c)
    ensures Merged(s.inner, merge, k) ==
            if Pair(h, k) in s.seen then Merged(s.seen[Pair(h, k)], merge, k) else None
  {
    forall c | 0 <= c < |s.inner| ensures Get(s.inner[c], k) == SeenAt(s, h, k, c) {
      assert Accounted(s, h, k, c);
    }
    if Pair(h, k) in s.seen {
      FoundSame(s.inner, s.seen[Pair(h, k)], k);
    } else {
      FoundIff(s.inner, k);
    }
  }

  lemma DeliveredAt(merge: Merge, s: JSys, h: nat, k: Key)
    requires Shape(s) && Told(merge, s, h, k) && AllDelivered(s, h)
    ensures Pair(h, k) !in s.unheard ==> Get(View(s.cache, h), k) == Merged(s.inner, merge, k)
    ensures Pair(h, k) in s.unheard ==> HoldsLost(merge, s, View(s.cache, h), h, k)
  {
    assert !OnTheWay(s, h, k);
    if Pair(h, k) in s.unheard {
      MarkedAt(s, h, k);
    } else {
      UnmarkedAt(merge, s, h, k);
    }
  }

  /** A view that holds what k merged to before some collections lost it. */
  ghost predicate HoldsLost(merge: Merge, s: JSys, view: map<Key, Obj>, h: nat, k: Key) {
    Pair(h, k) in s.seen && OnlyLost(s.seen[Pair(h, k)], s.inner, k) &&
    Get(view, k) == Merged(s.seen[Pair(h, k)], merge, k)
  }

  // ---------------------------------------------------------------------------------------------
  // What a behaviour is about, read off its steps

  /** The inner collections after some steps. */
  function InnerAfter(inner: seq<map<Key, Obj>>, steps: seq<JStep>): seq<map<Key, Obj>> {
    if steps == [] then inner
    else
      var before := InnerAfter(inner, steps[..|steps| - 1]);
      match steps[|steps| - 1]
      case InnerChange(c, contents, _) => if c < |before| then before[c := contents] else before
      case _ => before
  }

  /** What handler h was sent by some steps. */
  function SentTo(h: nat, steps: seq<JStep>): seq<Event> {
    if steps == [] then []
    else
      SentTo(h, steps[..|steps| - 1]) +
      match steps[|steps| - 1]
      case Handle(g, _, _, out) => if g == h then out else []
      case _ => []
  }

  /** At step m handler h registered, while the cache held no entry of the collection. */
  ghost predicate StartsClean(states: seq<JSys>, steps: seq<JStep>, m: nat, h: nat) {
    m < |steps| && m < |states| && steps[m] == NewHandler(h) && !HasCollectionEntries(states[m].cache)
  }

  lemma StepOf(merge: Merge, states: seq<JSys>, steps: seq<JStep>, n: nat)
    requires IsBehavior(merge, states, steps) && n < |steps|
    ensures Enabled(merge, states[n], steps[n]) && states[n + 1] == After(merge, states[n], steps[n])
  {
    ChainAt(Next(merge), states, steps, n);
  }

  lemma InnerStep(merge: Merge, states: seq<JSys>, steps: seq<JStep>, n: nat)
    requires IsBehavior(merge, states, steps) && n < |steps|
    ensures steps[n].InnerChange? ==> steps[n].c < |states[n].inner|
    ensures states[n + 1].inner ==
            if steps[n].InnerChange? then states[n].inner[steps[n].c := steps[n].contents] else states[n].inner
  {
    StepOf(merge, states, steps, n);
  }

  lemma {:induction false} InnerIsRead(merge: Merge, states: seq<JSys>, steps: seq<JStep>, n: nat)
    requires IsBehavior(merge, states, steps) && n < |states|
    ensures states[n].inner == InnerAfter(states[0].inner, steps[..n])
  {
    if n > 0 {
      InnerIsRead(merge, states, steps, n - 1);
      InnerStep(merge, states, steps, n - 1);
      assert steps[..n][..n - 1] == steps[..n - 1];
    }
  }

  lemma SentOneMore(h: nat, steps: seq<JStep>, m: nat, n: nat)
    requires m < n < |steps|
    ensures SentTo(h, steps[m + 1..n + 1]) ==
            SentTo(h, steps[m + 1..n]) +
            if steps[n].Handle? && steps[n].h == h then steps[n].out else []
  {
    var all := steps[m + 1..n + 1];
    assert all[..|all| - 1] == steps[m + 1..n] && all[|all| - 1] == steps[n];
  }

  lemma StepHears(merge: Merge, s: JSys, step: JStep, h: nat)
    requires Enabled(merge, s, step) && h in s.heard
    ensures
      var s' := After(merge, s, step);
      && h in s'.heard && (h in s'.clean <==> h in s.clean)
      && s'.heard[h] == s.heard[h] + if step.Handle? && step.h == h then step.out else []
  {
  }

  lemma HandlerStep(merge: Merge, states: seq<JSys>, steps: seq<JStep>, n: nat, h: nat)
    requires IsBehavior(merge, states, steps) && n < |steps|
    requires steps[n] == NewHandler(h) || h in states[n].heard
    ensures h in states[n + 1].heard
    ensures steps[n] == NewHandler(h) ==>
              states[n + 1].heard[h] == [] && (StartsClean(states, steps, n, h) ==> h in states[n + 1].clean)
    ensures steps[n] != NewHandler(h) ==>
              && (h in states[n].clean ==> h in states[n + 1].clean)
              && states[n + 1].heard[h] ==
                   states[n].heard[h] + if steps[n].Handle? && steps[n].h == h then steps[n].out else []
  {
    StepOf(merge, states, steps, n);
    if steps[n] != NewHandler(h) {
      StepHears(merge, states[n], steps[n], h);
    }
  }

  lemma {:induction false} HandlerIsRead(merge: Merge, states: seq<JSys>, steps: seq<JStep>, m: nat, n: nat, h: nat)
    requires IsBehavior(merge, states, steps) && m < n < |states| && steps[m] == NewHandler(h)
    ensures h in states[n].heard && states[n].heard[h] == SentTo(h, steps[m + 1..n])
    ensures StartsClean(states, steps, m, h) ==> h in states[n].clean
  {
    if n == m + 1 {
      HandlerStep(merge, states, steps, m, h);
      assert steps[m + 1..n] == [];
    } else {
      HandlerIsRead(merge, states, steps, m, n - 1, h);
      OneHandler(merge, states, steps, n - 1, h);
      HandlerStep(merge, states, steps, n - 1, h);
      SentOneMore(h, steps, m, n - 1);
    }
  }

  lemma OneHandler(merge: Merge, states: seq<JSys>, steps: seq<JStep>, n: nat, h: nat)
    requires IsBehavior(merge, states, steps) && n < |steps| && h in states[n].heard
    ensures steps[n] != NewHandler(h)
  {
    StepOf(merge, states, steps, n);
  }

  /**
   * In every behaviour, a handler that registered while the cache held no entry of the collection
   * hears events that always replay: the old side of each is what it was last told. Once all
   * inner events are delivered, its view is right at every key of which no part was lost unheard.
   * Elsewhere it still holds what the key merged to when it was last told, while the collections
   * differ from then only by losses; so its view is the merged collection if and only if no
   * unheard loss changed what its key merges to.
   */
  lemma MergedReplay(merge: Merge, states: seq<JSys>, steps: seq<JStep>, m: nat, n: nat, h: nat)
    requires IsBehavior(merge, states, steps) && m < n < |states| && StartsClean(states, steps, m, h)
    ensures states[n].inner == InnerAfter(states[0].inner, steps[..n])
    ensures Replay(map[], SentTo(h, steps[m + 1..n])).Some?
    ensures
      var s := states[n];
      var view := Replay(map[], SentTo(h, steps[m + 1..n])).value;
      AllDelivered(s, h) ==>
        && (forall k :: Pair(h, k) !in s.unheard ==> Get(view, k) == Merged(s.inner, merge, k))
        && (forall k :: Pair(h, k) in s.unheard ==> HoldsLost(merge, s, view, h, k))
        && (IsMerged(s.inner, merge, view) <==>
              forall k :: Pair(h, k) in s.unheard ==>
                Merged(s.seen[Pair(h, k)], merge, k) == Merged(s.inner, merge, k))
  {
    InnerIsRead(merge, states, steps, n);
    HandlerIsRead(merge, states, steps, m, n, h);
    BehaviorKeeps(merge, states, steps, n);
    CleanViewIff(merge, states[n], h);
  }

  lemma CleanViewIff(merge: Merge, s: JSys, h: nat)
    requires Inv(merge, s) && h in s.clean
    ensures Replay(map[], s.heard[h]).Some?
    ensures
      var view := Replay(map[], s.heard[h]).value;
      AllDelivered(s, h) ==>
        && (forall k :: Pair(h, k) !in s.unheard ==> Get(view, k) == Merged(s.inner, merge, k))
        && (forall k :: Pair(h, k) in s.unheard ==> HoldsLost(merge, s, view, h, k))
        && (IsMerged(s.inner, merge, view) <==>
              forall k :: Pair(h, k) in s.unheard ==>
                Merged(s.seen[Pair(h, k)], merge, k) == Merged(s.inner, merge, k))
  {
    if AllDelivered(s, h) {
      forall k
        ensures Pair(h, k) !in s.unheard ==> Get(View(s.cache, h), k) == Merged(s.inner, merge, k)
        ensures Pair(h, k) in s.unheard ==> HoldsLost(merge, s, View(s.cache, h), h, k)
      {
        assert Told(merge, s, h, k);
        DeliveredAt(merge, s, h, k);
      }
    }
  }

  // ---------------------------------------------------------------------------------------------
  // When the conditions fail

  /**
   * The first event a handler hears about a key replays, whatever the key merges to, if and only
   * if the collection had no entry for the key when the handler registered.
   */
  lemma FirstEventReplaysIff(cache: Cache, h: nat, k: Key, view: map<Key, Obj>)
    requires EntriesSet(cache) && WellKeyed(view) && k !in view
    requires forall ck :: ck in cache ==> ck.handler != Some(h)
    ensures
      (forall merged: Option<Obj> :: (merged.Some? ==> merged.value.key == k) ==>
         Replay(view, EventFor(Get(View(CopyFor(cache, h), h), k), merged)).Some?)
      <==> CacheKey(None, k) !in cache
  {
    var copy := CopyFor(cache, h);
    assert EntriesSet(copy);
    ViewAt(copy, h, k);
    var was := Get(View(copy, h), k);
    assert was.Some? <==> CacheKey(None, k) in cache;
    if was.None? {
      forall merged: Option<Obj> | merged.Some? ==> merged.value.key == k
        ensures Replay(view, EventFor(was, merged)).Some?
      {
        EventReplays(view, k, merged);
      }
    } else {
      var e := DeleteEvent(was.value);
      assert EventFor(was, None) == [] + [e];
      ReplayAppend(view, [], e);
      assert Replay(view, EventFor(was, None)) == None;
    }
  }
}
