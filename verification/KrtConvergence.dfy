/**
 * Convergence: in every behaviour, once everything on the way has been handled, the outputs are
 * what running the transformation from scratch on every object of the parent would give.
 */
module KrtConvergence {
  import opened Options
  import opened Sequences
  import opened KrtTypes
  import opened KrtFilter
  import opened KrtDependencies
  import opened KrtCollection
  import opened KrtSystem
  import opened KrtAccount

  // ---------------------------------------------------------------------------------------------
  // Events about the parent that have not been read yet

  function ParentEvents(ts: seq<Task>): seq<Event> {
    if ts == [] then []
    else ParentEvents(ts[..|ts| - 1]) + (if ts[|ts| - 1].Primary? then ts[|ts| - 1].events else [])
  }

  function Unread(p: Phase): seq<Event> {
    if p.Refresh? then p.todo else []
  }

  function Pending(s: Sys): seq<Event> {
    Unread(s.phase) + ParentEvents(s.queue) + ParentEvents(s.flight)
  }

  lemma {:induction false} ParentEventsConcat(a: seq<Task>, b: seq<Task>)
    ensures ParentEvents(a + b) == ParentEvents(a) + ParentEvents(b)
    decreases |b|
  {
    if b == [] {
      assert a + b == a;
    } else {
      var init, last := b[..|b| - 1], b[|b| - 1];
      ParentEventsConcat(a, init);
      assert (a + b)[..|a + b| - 1] == a + init && (a + b)[|a + b| - 1] == last;
      assert ParentEvents(a + b) == (ParentEvents(a) + ParentEvents(init)) + if last.Primary? then last.events else [];
    }
  }

  lemma ParentEventsOne(t: Task)
    ensures ParentEvents([t]) == if t.Primary? then t.events else []
  {
    assert [t][..0] == [];
  }

  lemma {:induction false} NoParentEvents(ts: seq<Task>)
    requires forall n :: 0 <= n < |ts| ==> !ts[n].Primary?
    ensures ParentEvents(ts) == []
  {
    if ts != [] {
      NoParentEvents(ts[..|ts| - 1]);
    }
  }

  lemma PendingGrows(s: Sys, s': Sys, t: Task)
    requires s'.flight == s.flight + [t] && s'.queue == s.queue && s'.phase == s.phase
    ensures Pending(s') == Pending(s) + if t.Primary? then t.events else []
  {
    ParentEventsConcat(s.flight, [t]);
    ParentEventsOne(t);
  }

  // ---------------------------------------------------------------------------------------------
  // Fetch results that are still what a fetch would return, or are about to be recomputed

  ghost predicate Hits(x: Extractors, f: Filter, events: seq<Event>) {
    exists n, o :: 0 <= n < |events| && o in events[n].Items() && Matches(x, f, o, false)
  }

  ghost predicate Waits(x: Extractors, dep: Dependency, ts: seq<Task>) {
    exists t :: t in ts && t.Secondary? && t.src == dep.id && Hits(x, dep.filter, t.events)
  }

  /** An event on a collection is on its way that will make the engine reconsider this dependency. */
  ghost predicate Warned(cfg: Config, s: Sys, dep: Dependency) {
    Waits(cfg.x, dep, s.queue) || Waits(cfg.x, dep, s.flight)
  }

  ghost function Current(cfg: Config, s: Sys, dep: Dependency): map<Key, Obj> {
    Select(cfg.x, Contents(s.world, dep.id), dep.filter)
  }

  ghost predicate Fresh(cfg: Config, s: Sys, r: Read) {
    r.res == Current(cfg, s, r.dep) || Warned(cfg, s, r.dep)
  }

  ghost predicate TraceFresh(cfg: Config, s: Sys, tr: seq<Read>) {
    forall n :: 0 <= n < |tr| ==> Fresh(cfg, s, tr[n])
  }

  /** The same for a fetch by keys that has read some of its keys. */
  ghost predicate PartFresh(cfg: Config, s: Sys, cur: Cur)
    requires cur.Fetching?
  {
    Warned(cfg, s, cur.dep) ||
    forall k :: k !in cur.left ==> Get(cur.acc, k) == Get(Current(cfg, s, cur.dep), k)
  }

  // ---------------------------------------------------------------------------------------------
  // What holds of the parts in every state

  ghost predicate GoodTrace(cfg: Config, s: Sys, i: Obj, tr: seq<Read>) {
    IsPrefix(cfg, i, tr) && forall n :: 0 <= n < |tr| ==> GoodDep(cfg, tr[n].dep) && tr[n].dep.id in s.registered
  }

  /** What is stored for an input is the outcome of the fetches recorded for it. */
  ghost predicate Stored(cfg: Config, s: Sys, i: Key)
    requires i in s.c.inputs && i in s.traces && i in s.d.deps && i in s.c.mappings
  {
    && GoodTrace(cfg, s, s.c.inputs[i], s.traces[i]) && Follows(cfg, s.c.inputs[i], s.traces[i])
    && s.d.deps[i] == Deps(s.traces[i])
    && s.c.mappings[i] == Produced(cfg, s.c.inputs[i], s.traces[i]).Keys
    && forall k :: k in s.c.mappings[i] ==> Get(s.c.outputs, k) == Get(Produced(cfg, s.c.inputs[i], s.traces[i]), k)
  }

  ghost predicate Store(cfg: Config, s: Sys) {
    && Partition(cfg.owner, s.c) && Complete(s.d)
    && s.d.deps.Keys == s.c.inputs.Keys && s.traces.Keys == s.c.inputs.Keys && s.c.mappings.Keys == s.c.inputs.Keys
    && (forall i :: i in s.c.inputs ==> Stored(cfg, s, i))
    && (forall ek :: ek in s.d.extractors && ek.typ != UnknownIndex ==> cfg.indexed(ek.uid))
  }

  function ReadItems(p: Phase): seq<Event> {
    match p
    case Idle => []
    case Refresh(done, _) => done
    case Gather(_, toRun) => toRun
    case Compute(items, _, _) => items
  }

  /** An item that is not a Delete carries the object read for it. */
  ghost predicate GoodItem(e: Event) {
    e.Valid() && (e.kind != Delete ==> e.new_.Some?)
  }

  ghost predicate GoodComp(cfg: Config, s: Sys, e: Event, comp: Comp) {
    && GoodItem(e) && (comp.Skip? <==> e.kind == Delete)
    && (comp.Comp? ==> GoodTrace(cfg, s, e.Latest(), comp.tr) && Follows(cfg, e.Latest(), comp.tr))
  }

  ghost predicate GoodCur(cfg: Config, s: Sys, e: Event, cur: Cur) {
    && GoodItem(e)
    && (!cur.Ready? ==> e.kind != Delete && GoodTrace(cfg, s, e.Latest(), cur.tr))
    && (cur.Fetching? ==>
          && cfg.next(e.Latest(), Results(cur.tr)) == Fetch(cur.dep) && cur.dep.id in s.registered
          && cur.dep.filter.keys.Some? && cur.left <= cur.dep.filter.keys.value
          && cur.acc.Keys <= cur.dep.filter.keys.value - cur.left)
  }

  ghost predicate GoodPhase(cfg: Config, s: Sys) {
    && (forall n :: 0 <= n < |ReadItems(s.phase)| ==> GoodItem(ReadItems(s.phase)[n]))
    && (s.phase.Gather? ==>
          && s.phase.keys <= s.c.inputs.Keys
          && forall n :: 0 <= n < |s.phase.toRun| ==>
               GoodItem(s.phase.toRun[n]) && s.phase.toRun[n].Latest().key !in s.phase.keys)
    && (s.phase.Compute? ==>
          && |s.phase.comps| <= |s.phase.items|
          && (forall n :: 0 <= n < |s.phase.comps| ==> GoodComp(cfg, s, s.phase.items[n], s.phase.comps[n]))
          && (|s.phase.comps| == |s.phase.items| ==> s.phase.cur.Ready?)
          && (|s.phase.comps| < |s.phase.items| ==> GoodCur(cfg, s, s.phase.items[|s.phase.comps|], s.phase.cur)))
  }

  ghost predicate Shape(cfg: Config, s: Sys) {
    && WellKeyed(s.parent) && (forall id :: id in s.world ==> WellKeyed(s.world[id]))
    && AllValid(Pending(s))
    && Store(cfg, s) && GoodPhase(cfg, s)
  }

  // ---------------------------------------------------------------------------------------------
  // What holds of every input in every state

  /** The last item read about i has the parent's present object, and its fetches are fresh. */
  ghost predicate InHand(cfg: Config, s: Sys, i: Key, n: nat)
    requires n < |ReadItems(s.phase)| && ReadItems(s.phase)[n].Valid()
  {
    var item := ReadItems(s.phase)[n];
    if item.kind == Delete then i !in s.parent
    else
      && Get(s.parent, i) == Some(item.Latest())
      && (s.phase.Compute? && n < |s.phase.comps| && s.phase.comps[n].Comp? ==> TraceFresh(cfg, s, s.phase.comps[n].tr))
      && (s.phase.Compute? && n == |s.phase.comps| && !s.phase.cur.Ready? ==> TraceFresh(cfg, s, s.phase.cur.tr))
      && (s.phase.Compute? && n == |s.phase.comps| && s.phase.cur.Fetching? ==> PartFresh(cfg, s, s.phase.cur))
  }

  ghost predicate UpToDate(cfg: Config, s: Sys, i: Key) {
    && Get(s.c.inputs, i) == Get(s.parent, i)
    && (i in s.traces && !(s.phase.Gather? && i in s.phase.keys) ==> TraceFresh(cfg, s, s.traces[i]))
  }

  /** No unread parent event is needed for input i. */
  ghost predicate Settled(cfg: Config, s: Sys, i: Key)
    requires AllValid(ReadItems(s.phase))
  {
    match LastIndex(ReadItems(s.phase), i)
    case Some(n) => (assert ReadItems(s.phase)[n] in ReadItems(s.phase); InHand(cfg, s, i, n))
    case None => UpToDate(cfg, s, i)
  }

  ghost predicate Covered(cfg: Config, s: Sys, i: Key)
    requires AllValid(Pending(s)) && AllValid(ReadItems(s.phase))
  {
    match LastOn(Pending(s), i)
    case Some(e) => i in s.parent ==> e.kind != Delete
    case None => Settled(cfg, s, i)
  }

  ghost predicate AllCovered(cfg: Config, s: Sys)
    requires AllValid(Pending(s)) && AllValid(ReadItems(s.phase))
  {
    forall i :: Covered(cfg, s, i)
  }

  ghost predicate Following(s: Sys) {
    forall h :: h in s.handlers ==> Replay(s.handlers[h].known, s.handlers[h].heard) == Some(s.c.outputs)
  }

  ghost predicate Inv(cfg: Config, s: Sys) {
    && Shape(cfg, s) && AllValid(ReadItems(s.phase))
    && AllCovered(cfg, s)
    && Following(s)
  }

  // ---------------------------------------------------------------------------------------------
  // Steps that leave the worker alone

  /** Between s and s', no fetch result that matters went stale unnoticed. */
  ghost predicate Calm(cfg: Config, s: Sys, s': Sys) {
    forall dep: Dependency :: dep.id in s.registered ==> CalmOn(cfg, s, s', dep)
  }

  ghost predicate CalmOn(cfg: Config, s: Sys, s': Sys, dep: Dependency) {
    && (Warned(cfg, s, dep) ==> Warned(cfg, s', dep))
    && (Current(cfg, s, dep) == Current(cfg, s', dep) || Warned(cfg, s', dep))
  }

  lemma TraceStaysFresh(cfg: Config, s: Sys, s': Sys, i: Obj, tr: seq<Read>)
    requires Calm(cfg, s, s') && GoodTrace(cfg, s, i, tr) && TraceFresh(cfg, s, tr)
    ensures TraceFresh(cfg, s', tr)
  {
    forall n | 0 <= n < |tr| ensures Fresh(cfg, s', tr[n]) {
      assert Fresh(cfg, s, tr[n]) && CalmOn(cfg, s, s', tr[n].dep);
    }
  }

  lemma StoreStays(cfg: Config, s: Sys, s': Sys)
    requires Store(cfg, s) && s'.c == s.c && s'.d == s.d && s'.traces == s.traces && s.registered <= s'.registered
    ensures Store(cfg, s')
  {
    forall i | i in s.c.inputs ensures Stored(cfg, s', i) {
      assert Stored(cfg, s, i);
    }
  }

  lemma PhaseStays(cfg: Config, s: Sys, s': Sys)
    requires GoodPhase(cfg, s) && s'.phase == s.phase && s'.c == s.c && s.registered <= s'.registered
    ensures GoodPhase(cfg, s')
  {
    if s.phase.Compute? {
      forall n | 0 <= n < |s.phase.comps| ensures GoodComp(cfg, s', s.phase.items[n], s.phase.comps[n]) {
        assert GoodComp(cfg, s, s.phase.items[n], s.phase.comps[n]);
      }
    }
  }

  lemma InHandStays(cfg: Config, s: Sys, s': Sys, i: Key, n: nat)
    requires Calm(cfg, s, s') && GoodPhase(cfg, s) && s'.phase == s.phase && Get(s'.parent, i) == Get(s.parent, i)
    requires n < |ReadItems(s.phase)| && ReadItems(s.phase)[n].Valid()
    requires InHand(cfg, s, i, n)
    ensures InHand(cfg, s', i, n)
  {
    var item := ReadItems(s.phase)[n];
    assert GoodItem(item);
    if item.kind != Delete && s.phase.Compute? {
      if n < |s.phase.comps| {
        assert GoodComp(cfg, s, item, s.phase.comps[n]);
        TraceStaysFresh(cfg, s, s', item.Latest(), s.phase.comps[n].tr);
      } else if n == |s.phase.comps| && !s.phase.cur.Ready? {
        assert GoodCur(cfg, s, item, s.phase.cur);
        TraceStaysFresh(cfg, s, s', item.Latest(), s.phase.cur.tr);
        if s.phase.cur.Fetching? {
          assert CalmOn(cfg, s, s', s.phase.cur.dep);
        }
      }
    }
  }

  lemma SettledStays(cfg: Config, s: Sys, s': Sys, i: Key)
    requires Calm(cfg, s, s') && Store(cfg, s) && GoodPhase(cfg, s) && AllValid(ReadItems(s.phase))
    requires s'.phase == s.phase && s'.c == s.c && s'.traces == s.traces && Get(s'.parent, i) == Get(s.parent, i)
    requires Settled(cfg, s, i)
    ensures Settled(cfg, s', i)
  {
    match LastIndex(ReadItems(s.phase), i)
    case Some(n) =>
      assert ReadItems(s.phase)[n] in ReadItems(s.phase);
      InHandStays(cfg, s, s', i, n);
    case None =>
      if i in s.traces && !(s.phase.Gather? && i in s.phase.keys) {
        assert Stored(cfg, s, i);
        TraceStaysFresh(cfg, s, s', s.c.inputs[i], s.traces[i]);
      }
  }

  ghost predicate TasksKept(s: Sys, s': Sys) {
    forall t :: t in s.queue || t in s.flight ==> t in s'.queue || t in s'.flight
  }

  lemma KeptTasksWarn(cfg: Config, s: Sys, s': Sys, dep: Dependency)
    requires TasksKept(s, s') && Warned(cfg, s, dep)
    ensures Warned(cfg, s', dep)
  {
    var ts := if Waits(cfg.x, dep, s.queue) then s.queue else s.flight;
    var t :| t in ts && t.Secondary? && t.src == dep.id && Hits(cfg.x, dep.filter, t.events);
    assert t in s'.queue || t in s'.flight;
  }

  lemma KeptTasksAreCalm(cfg: Config, s: Sys, s': Sys)
    requires TasksKept(s, s') && s'.world == s.world
    ensures Calm(cfg, s, s')
  {
    forall dep: Dependency | dep.id in s.registered ensures CalmOn(cfg, s, s', dep) {
      if Warned(cfg, s, dep) {
        KeptTasksWarn(cfg, s, s', dep);
      }
    }
  }

  lemma CalmCovers(cfg: Config, s: Sys, s': Sys)
    requires Store(cfg, s) && GoodPhase(cfg, s) && AllValid(ReadItems(s.phase)) && AllValid(Pending(s))
    requires AllCovered(cfg, s) && Calm(cfg, s, s') && Pending(s') == Pending(s)
    requires s'.phase == s.phase && s'.c == s.c && s'.traces == s.traces && s'.parent == s.parent
    ensures AllCovered(cfg, s')
  {
    forall i ensures Covered(cfg, s', i) {
      assert Covered(cfg, s, i);
      if LastOn(Pending(s), i).None? {
        SettledStays(cfg, s, s', i);
      }
    }
  }

  lemma ParentChangeKeeps(cfg: Config, s: Sys, p': map<Key, Obj>, batch: seq<Event>)
    requires Inv(cfg, s) && Enabled(cfg, s, ParentChange(p', batch))
    ensures Inv(cfg, After(cfg, s, ParentChange(p', batch)))
  {
    var s' := After(cfg, s, ParentChange(p', batch));
    StoreStays(cfg, s, s');
    PhaseStays(cfg, s, s');
    PendingGrows(s, s', Primary(batch));
    LastOnConcat(Pending(s), batch, "");
    KeptTasksAreCalm(cfg, s, s');
    ParentChangeCoversAll(cfg, s, s', batch);
  }

  lemma ParentChangeCoversAll(cfg: Config, s: Sys, s': Sys, batch: seq<Event>)
    requires Store(cfg, s) && GoodPhase(cfg, s) && AllValid(ReadItems(s.phase)) && AllValid(Pending(s))
    requires AllCovered(cfg, s)
    requires ParentBatch(s.parent, batch, s'.parent) && Pending(s') == Pending(s) + batch && Calm(cfg, s, s')
    requires s'.phase == s.phase && s'.c == s.c && s'.traces == s.traces && AllValid(Pending(s'))
    ensures AllCovered(cfg, s')
  {
    forall i ensures Covered(cfg, s', i) {
      ParentChangeCovers(cfg, s, s', batch, i);
    }
  }

  lemma ParentChangeCovers(cfg: Config, s: Sys, s': Sys, batch: seq<Event>, i: Key)
    requires Store(cfg, s) && GoodPhase(cfg, s) && AllValid(ReadItems(s.phase)) && AllValid(Pending(s))
    requires Covered(cfg, s, i)
    requires ParentBatch(s.parent, batch, s'.parent) && Pending(s') == Pending(s) + batch && Calm(cfg, s, s')
    requires s'.phase == s.phase && s'.c == s.c && s'.traces == s.traces
    ensures AllValid(Pending(s')) && Covered(cfg, s', i)
  {
    LastOnConcat(Pending(s), batch, i);
    if LastOn(batch, i).None? && LastOn(Pending(s), i).None? {
      SettledStays(cfg, s, s', i);
    }
  }

  /** A change of a fetched collection warns every dependency whose result it changes. */
  lemma DepChangeIsCalm(cfg: Config, s: Sys, id: Uid, c': map<Key, Obj>, batch: seq<Event>)
    requires Enabled(cfg, s, DepChange(id, c', batch))
    ensures Calm(cfg, s, After(cfg, s, DepChange(id, c', batch)))
  {
    var s' := After(cfg, s, DepChange(id, c', batch));
    assert TasksKept(s, s');
    forall dep: Dependency | dep.id in s.registered ensures CalmOn(cfg, s, s', dep) {
      if Warned(cfg, s, dep) {
        KeptTasksWarn(cfg, s, s', dep);
      }
      if Current(cfg, s, dep) != Current(cfg, s', dep) {
        assert dep.id == id;
        var o := SelectChangeIsMatched(cfg.x, dep.filter, Contents(s.world, id), c');
        assert Shown(batch, o);
        var t := Secondary(id, batch);
        assert t in s'.flight && Hits(cfg.x, dep.filter, t.events);
      }
    }
  }

  lemma DepChangeKeeps(cfg: Config, s: Sys, id: Uid, c': map<Key, Obj>, batch: seq<Event>)
    requires Inv(cfg, s) && Enabled(cfg, s, DepChange(id, c', batch))
    ensures Inv(cfg, After(cfg, s, DepChange(id, c', batch)))
  {
    var s' := After(cfg, s, DepChange(id, c', batch));
    StoreStays(cfg, s, s');
    PhaseStays(cfg, s, s');
    if id in s.registered {
      PendingGrows(s, s', Secondary(id, batch));
    }
    assert Pending(s') == Pending(s);
    DepChangeIsCalm(cfg, s, id, c', batch);
    CalmCovers(cfg, s, s');
  }

  lemma DeliverKeepsOrder(s: Sys, n: nat)
    requires n < |s.flight| && forall m :: 0 <= m < n ==> !SameSource(s.flight[m], s.flight[n])
    ensures ParentEvents(s.queue + [s.flight[n]]) + ParentEvents(s.flight[..n] + s.flight[n + 1..]) ==
            ParentEvents(s.queue) + ParentEvents(s.flight)
  {
    var a, t, b := s.flight[..n], s.flight[n], s.flight[n + 1..];
    assert s.flight == a + [t] + b;
    if t.Primary? {
      NoParentEvents(a);
    }
    ParentEventsOne(t);
    QueuedEventsMoveUp(s.queue, a, t, b);
  }

  lemma QueuedEventsMoveUp(q: seq<Task>, a: seq<Task>, t: Task, b: seq<Task>)
    requires ParentEvents(a) == [] || ParentEvents([t]) == []
    ensures ParentEvents(q + [t]) + ParentEvents(a + b) == ParentEvents(q) + ParentEvents(a + [t] + b)
  {
    ParentEventsConcat(q, [t]);
    ParentEventsConcat(a, b);
    ParentEventsConcat(a, [t]);
    ParentEventsConcat(a + [t], b);
    MoveUp(ParentEvents(q), ParentEvents(a), ParentEvents([t]), ParentEvents(b));
  }

  lemma MoveUp(q: seq<Event>, a: seq<Event>, t: seq<Event>, b: seq<Event>)
    requires a == [] || t == []
    ensures (q + t) + (a + b) == q + ((a + t) + b)
  {
  }

  lemma SameUnread(u: seq<Event>, a: seq<Event>, b: seq<Event>, a': seq<Event>, b': seq<Event>)
    requires a + b == a' + b'
    ensures u + a + b == u + a' + b'
  {
    assert u + a + b == u + (a + b) && u + a' + b' == u + (a' + b');
  }

  lemma DeliverKeeps(cfg: Config, s: Sys, n: nat)
    requires Inv(cfg, s) && Enabled(cfg, s, Deliver(n))
    ensures Inv(cfg, After(cfg, s, Deliver(n)))
  {
    var s' := After(cfg, s, Deliver(n));
    StoreStays(cfg, s, s');
    PhaseStays(cfg, s, s');
    DeliveredPending(s, s', n);
    DeliveredCovers(cfg, s, s', n);
  }

  lemma DeliveredPending(s: Sys, s': Sys, n: nat)
    requires n < |s.flight| && forall m :: 0 <= m < n ==> !SameSource(s.flight[m], s.flight[n])
    requires s'.phase == s.phase
    requires s'.queue == s.queue + [s.flight[n]] && s'.flight == s.flight[..n] + s.flight[n + 1..]
    ensures Pending(s') == Pending(s)
  {
    DeliverKeepsOrder(s, n);
    SameUnread(Unread(s.phase), ParentEvents(s.queue), ParentEvents(s.flight),
               ParentEvents(s'.queue), ParentEvents(s'.flight));
  }

  lemma DeliveredCovers(cfg: Config, s: Sys, s': Sys, n: nat)
    requires Store(cfg, s) && GoodPhase(cfg, s) && AllValid(ReadItems(s.phase)) && AllValid(Pending(s))
    requires AllCovered(cfg, s) && Pending(s') == Pending(s) && n < |s.flight|
    requires s'.phase == s.phase && s'.c == s.c && s'.traces == s.traces && s'.parent == s.parent
    requires s'.queue == s.queue + [s.flight[n]] && s'.flight == s.flight[..n] + s.flight[n + 1..]
             && s'.world == s.world
    ensures AllCovered(cfg, s')
  {
    assert s.flight == s.flight[..n] + [s.flight[n]] + s.flight[n + 1..];
    KeptTasksAreCalm(cfg, s, s');
    CalmCovers(cfg, s, s');
  }

  lemma AddHandlerKeeps(cfg: Config, s: Sys, h: nat, run: bool, events: seq<Event>)
    requires Inv(cfg, s) && Enabled(cfg, s, AddHandler(h, run, events))
    ensures Inv(cfg, After(cfg, s, AddHandler(h, run, events)))
  {
    var s' := After(cfg, s, AddHandler(h, run, events));
    assert Following(s');
    SameTasksHold(cfg, s, s');
  }

  lemma RegisterKeeps(cfg: Config, s: Sys)
    requires Inv(cfg, s) && Enabled(cfg, s, Register)
    ensures Inv(cfg, After(cfg, s, Register))
  {
    SameTasksHold(cfg, s, After(cfg, s, Register));
  }

  lemma SameTasksHold(cfg: Config, s: Sys, s': Sys)
    requires Inv(cfg, s) && Following(s')
    requires s'.phase == s.phase && s'.c == s.c && s'.d == s.d && s'.traces == s.traces && s'.parent == s.parent
    requires s'.queue == s.queue && s'.flight == s.flight && s'.world == s.world && s.registered <= s'.registered
    ensures Inv(cfg, s')
  {
    StoreStays(cfg, s, s');
    PhaseStays(cfg, s, s');
    SameTasksCover(cfg, s, s');
  }

  lemma SameTasksCover(cfg: Config, s: Sys, s': Sys)
    requires Store(cfg, s) && GoodPhase(cfg, s) && AllValid(ReadItems(s.phase)) && AllValid(Pending(s))
    requires AllCovered(cfg, s)
    requires s'.phase == s.phase && s'.c == s.c && s'.traces == s.traces && s'.parent == s.parent
    requires s'.queue == s.queue && s'.flight == s.flight && s'.world == s.world
    ensures AllCovered(cfg, s')
  {
    KeptTasksAreCalm(cfg, s, s');
    CalmCovers(cfg, s, s');
  }

  // ---------------------------------------------------------------------------------------------
  // The worker reads its input

  /** Freshness does not depend on where the worker stands. */
  lemma FreshnessIsShared(cfg: Config, s: Sys, s': Sys)
    requires s'.world == s.world && s'.queue == s.queue && s'.flight == s.flight
    ensures forall tr :: TraceFresh(cfg, s', tr) <==> TraceFresh(cfg, s, tr)
    ensures forall cur: Cur :: cur.Fetching? ==> (PartFresh(cfg, s', cur) <==> PartFresh(cfg, s, cur))
  {
    assert forall dep :: Warned(cfg, s', dep) <==> Warned(cfg, s, dep);
    forall tr ensures TraceFresh(cfg, s', tr) <==> TraceFresh(cfg, s, tr) {
      assert forall n :: 0 <= n < |tr| ==> (Fresh(cfg, s', tr[n]) <==> Fresh(cfg, s, tr[n]));
    }
  }

  lemma StartQueueKeeps(cfg: Config, s: Sys)
    requires Inv(cfg, s) && Enabled(cfg, s, StartQueue)
    ensures Inv(cfg, After(cfg, s, StartQueue))
  {
    var s' := After(cfg, s, StartQueue);
    StoreStays(cfg, s, s');
    PhaseStays(cfg, s, s');
    MarkedPending(s, s');
    MarkedCovers(cfg, s, s');
  }

  lemma MarkedPending(s: Sys, s': Sys)
    requires s'.phase == s.phase && s'.flight == s.flight && s'.queue == s.queue + [SyncMark]
    ensures Pending(s') == Pending(s)
  {
    ParentEventsConcat(s.queue, [SyncMark]);
    ParentEventsOne(SyncMark);
  }

  lemma MarkedCovers(cfg: Config, s: Sys, s': Sys)
    requires Store(cfg, s) && GoodPhase(cfg, s) && AllValid(ReadItems(s.phase)) && AllValid(Pending(s))
    requires AllCovered(cfg, s) && Pending(s') == Pending(s)
    requires s'.phase == s.phase && s'.c == s.c && s'.traces == s.traces && s'.parent == s.parent
    requires s'.queue == s.queue + [SyncMark] && s'.flight == s.flight && s'.world == s.world
    ensures AllCovered(cfg, s')
  {
    KeptTasksAreCalm(cfg, s, s');
    CalmCovers(cfg, s, s');
  }

  lemma PopKeeps(cfg: Config, s: Sys)
    requires Inv(cfg, s) && Enabled(cfg, s, Pop)
    ensures Inv(cfg, After(cfg, s, Pop))
  {
    if s.queue[0].Secondary? {
      PopSecondaryKeeps(cfg, s);
    } else {
      PopPrimaryKeeps(cfg, s);
    }
  }

  /** Taking a batch of the parent, or the sync mark, from the queue. */
  lemma PopPrimaryKeeps(cfg: Config, s: Sys)
    requires Inv(cfg, s) && Enabled(cfg, s, Pop) && !s.queue[0].Secondary?
    ensures Inv(cfg, After(cfg, s, Pop))
  {
    var s' := After(cfg, s, Pop);
    StoreStays(cfg, s, s');
    PopKeepsPending(s, s');
    PopPrimaryIsCalm(cfg, s, s');
    forall i ensures Covered(cfg, s', i) {
      assert Covered(cfg, s, i);
      if LastOn(Pending(s), i).None? && i in s.traces {
        assert Stored(cfg, s, i);
        TraceStaysFresh(cfg, s, s', s.c.inputs[i], s.traces[i]);
      }
    }
  }

  lemma PopPrimaryIsCalm(cfg: Config, s: Sys, s': Sys)
    requires s.queue != [] && !s.queue[0].Secondary?
    requires s'.queue == s.queue[1..] && s'.flight == s.flight && s'.world == s.world
    ensures Calm(cfg, s, s')
  {
    assert s.queue == [s.queue[0]] + s.queue[1..];
    forall dep: Dependency | dep.id in s.registered ensures CalmOn(cfg, s, s', dep) {
      if Waits(cfg.x, dep, s.queue) {
        var t :| t in s.queue && t.Secondary? && t.src == dep.id && Hits(cfg.x, dep.filter, t.events);
        assert t in s'.queue;
      }
    }
  }

  /** The filters recorded on one collection are all indexed or none is, so nothing is overlooked. */
  lemma StoreHasNoBlindSpot(cfg: Config, s: Sys, src: Uid)
    requires Store(cfg, s)
    ensures NoBlindSpot(s.d, cfg.x, src)
  {
    if HasExtractor(s.d, src) {
      assert cfg.indexed(src);
      forall i, j | i in s.d.deps && 0 <= j < |s.d.deps[i]| && s.d.deps[i][j].id == src
        ensures Indexed(s.d.deps[i][j].filter) || MatchesNothing(s.d.deps[i][j].filter)
      {
        assert Stored(cfg, s, i);
        assert s.d.deps[i][j] == s.traces[i][j].dep;
      }
      AllIndexedHasNoBlindSpot(s.d, cfg.x, src);
    }
  }

  /** A popped event that was the only warning for a fetch makes its input one to recompute. */
  lemma PoppedWarningIsHeeded(cfg: Config, s: Sys, s': Sys, i: Key, n: nat)
    requires Store(cfg, s) && s.queue != [] && s.queue[0].Secondary?
    requires s'.queue == s.queue[1..] && s'.flight == s.flight && s'.world == s.world
    requires i in s.traces && n < |s.traces[i]| && Fresh(cfg, s, s.traces[i][n])
    ensures Fresh(cfg, s', s.traces[i][n]) || i in Changed(s.d, cfg.x, s.queue[0].src, s.queue[0].events)
  {
    var r, head := s.traces[i][n], s.queue[0];
    assert s.queue == [head] + s'.queue;
    if !Fresh(cfg, s', r) {
      assert Waits(cfg.x, r.dep, s.queue);
      var t :| t in s.queue && t.Secondary? && t.src == r.dep.id && Hits(cfg.x, r.dep.filter, t.events);
      assert t !in s'.queue;
      var m, o :| 0 <= m < |head.events| && o in head.events[m].Items() && Matches(cfg.x, r.dep.filter, o, false);
      assert Stored(cfg, s, i);
      assert s.d.deps[i][n] == r.dep;
      assert ObjectChanged(cfg.x, s.d.deps[i], head.src, head.events[m], false);
      StoreHasNoBlindSpot(cfg, s, head.src);
      ChangedCoversOne(s.d, cfg.x, head.src, head.events[m], i);
    }
  }

  lemma PopSecondaryCovers(cfg: Config, s: Sys, s': Sys, i: Key)
    requires Store(cfg, s) && s.queue != [] && s.queue[0].Secondary? && s.phase.Idle?
    requires s' == s.(queue := s.queue[1..], sync := s'.sync,
                      phase := Gather(Changed(s.d, cfg.x, s.queue[0].src, s.queue[0].events), []))
    requires UpToDate(cfg, s, i)
    ensures UpToDate(cfg, s', i)
  {
    if i in s.traces && i !in s'.phase.keys {
      forall n | 0 <= n < |s.traces[i]| ensures Fresh(cfg, s', s.traces[i][n]) {
        assert Fresh(cfg, s, s.traces[i][n]);
        PoppedWarningIsHeeded(cfg, s, s', i, n);
      }
    }
  }

  lemma PopKeepsPending(s: Sys, s': Sys)
    requires s.phase.Idle? && s.queue != [] && s'.queue == s.queue[1..] && s'.flight == s.flight
    requires Unread(s'.phase) == if s.queue[0].Primary? then s.queue[0].events else []
    ensures Pending(s') == Pending(s)
  {
    var t, rest := s.queue[0], s.queue[1..];
    assert s.queue == [t] + rest;
    ParentEventsConcat([t], rest);
    ParentEventsOne(t);
  }

  lemma PopSecondaryKeeps(cfg: Config, s: Sys)
    requires Inv(cfg, s) && Enabled(cfg, s, Pop) && s.queue[0].Secondary?
    ensures Inv(cfg, After(cfg, s, Pop))
  {
    var s' := After(cfg, s, Pop);
    PopSecondaryHolds(cfg, s, s');
  }

  lemma PopSecondaryHolds(cfg: Config, s: Sys, s': Sys)
    requires Inv(cfg, s) && s.queue != [] && s.queue[0].Secondary? && s.phase.Idle?
    requires s' == s.(queue := s.queue[1..], sync := s'.sync,
                      phase := Gather(Changed(s.d, cfg.x, s.queue[0].src, s.queue[0].events), []))
    ensures Inv(cfg, s')
  {
    StoreStays(cfg, s, s');
    PopKeepsPending(s, s');
    PopSecondaryCoversAll(cfg, s, s');
  }

  lemma PopSecondaryCoversAll(cfg: Config, s: Sys, s': Sys)
    requires Store(cfg, s) && AllValid(ReadItems(s.phase)) && AllValid(Pending(s)) && AllCovered(cfg, s)
    requires s.queue != [] && s.queue[0].Secondary? && s.phase.Idle? && Pending(s') == Pending(s)
    requires s' == s.(queue := s.queue[1..], sync := s'.sync,
                      phase := Gather(Changed(s.d, cfg.x, s.queue[0].src, s.queue[0].events), []))
    ensures AllCovered(cfg, s')
  {
    forall i ensures Covered(cfg, s', i) {
      assert Covered(cfg, s, i);
      if LastOn(Pending(s), i).None? {
        PopSecondaryCovers(cfg, s, s', i);
      }
    }
  }

  lemma LastIndexAppend(items: seq<Event>, e: Event, k: Key)
    requires AllValid(items) && e.Valid()
    ensures AllValid(items + [e])
    ensures LastIndex(items + [e], k) == if e.Latest().key == k then Some(|items|) else LastIndex(items, k)
  {
    assert (items + [e])[..|items|] == items;
  }

  lemma PendingShrinks(s: Sys, s': Sys)
    requires s.phase.Refresh? && s.phase.todo != [] && s'.phase.Refresh? && s'.phase.todo == s.phase.todo[1..]
    requires s'.queue == s.queue && s'.flight == s.flight
    ensures Pending(s) == [s.phase.todo[0]] + Pending(s')
  {
    assert s.phase.todo == [s.phase.todo[0]] + s.phase.todo[1..];
  }

  lemma LastOnHead(e: Event, rest: seq<Event>, k: Key)
    requires AllValid([e] + rest)
    ensures e.Valid() && AllValid(rest)
    ensures LastOn([e] + rest, k) ==
            if LastOn(rest, k).Some? then LastOn(rest, k) else if e.Latest().key == k then Some(e) else None
  {
    assert e in [e] + rest && forall x :: x in rest ==> x in [e] + rest;
    LastOnConcat([e], rest, k);
    assert [e][..0] == [];
  }

  /** The item just read is the last word on its key, unless more is to come. */
  lemma RefreshedInHand(cfg: Config, s: Sys, s': Sys, e: Event, done: seq<Event>)
    requires e.Valid() && WellKeyed(s'.parent) && s'.phase.Refresh?
    requires s'.phase.done == done + [RefreshItem(e, Get(s'.parent, e.Latest().key))]
    requires e.Latest().key in s'.parent ==> e.kind != Delete
    ensures GoodItem(s'.phase.done[|done|]) && s'.phase.done[|done|].Latest().key == e.Latest().key
    ensures InHand(cfg, s', e.Latest().key, |done|)
  {
  }

  lemma EarlierInHand(cfg: Config, s: Sys, s': Sys, i: Key, n: nat)
    requires !s.phase.Compute? && !s'.phase.Compute? && s'.parent == s.parent
    requires n < |ReadItems(s.phase)| && ReadItems(s.phase)[n].Valid() && InHand(cfg, s, i, n)
    requires n < |ReadItems(s'.phase)| && ReadItems(s'.phase)[n] == ReadItems(s.phase)[n]
    ensures InHand(cfg, s', i, n)
  {
  }

  lemma RefreshOneCovers(cfg: Config, s: Sys, s': Sys, i: Key)
    requires s.phase.Refresh? && s.phase.todo != [] && s.phase.todo[0].Valid()
    requires AllValid(Pending(s)) && AllValid(s.phase.done) && WellKeyed(s.parent) && Covered(cfg, s, i)
    requires s' == s.(phase := s'.phase)
    requires s'.phase == Refresh(s.phase.done +
                                  [RefreshItem(s.phase.todo[0], Get(s.parent, s.phase.todo[0].Latest().key))],
                                 s.phase.todo[1..])
    ensures AllValid(Pending(s')) && AllValid(ReadItems(s'.phase)) && Covered(cfg, s', i)
  {
    var e, done := s.phase.todo[0], s.phase.done;
    var item := RefreshItem(e, Get(s.parent, e.Latest().key));
    PendingShrinks(s, s');
    LastOnHead(e, Pending(s'), i);
    LastIndexAppend(done, item, i);
    if LastOn(Pending(s'), i).None? {
      if e.Latest().key == i {
        RefreshedInHand(cfg, s, s', e, done);
      } else {
        FreshnessIsShared(cfg, s, s');
        var r := LastIndex(done, i);
        if r.Some? {
          assert done[r.value] in done;
          EarlierInHand(cfg, s, s', i, r.value);
        }
      }
    }
  }

  lemma RefreshOneCoversAll(cfg: Config, s: Sys, s': Sys)
    requires s.phase.Refresh? && s.phase.todo != [] && s.phase.todo[0].Valid()
    requires AllValid(Pending(s)) && AllValid(s.phase.done) && WellKeyed(s.parent) && AllCovered(cfg, s)
    requires s' == s.(phase := s'.phase)
    requires s'.phase == Refresh(s.phase.done +
                                  [RefreshItem(s.phase.todo[0], Get(s.parent, s.phase.todo[0].Latest().key))],
                                 s.phase.todo[1..])
    ensures AllValid(Pending(s')) && AllValid(ReadItems(s'.phase)) && AllCovered(cfg, s')
  {
    assert forall i :: Covered(cfg, s, i);
    RefreshOneCovers(cfg, s, s', "");
    forall i ensures Covered(cfg, s', i) {
      RefreshOneCovers(cfg, s, s', i);
    }
  }

  lemma RefreshOneKeeps(cfg: Config, s: Sys)
    requires Inv(cfg, s) && Enabled(cfg, s, RefreshOne)
    ensures Inv(cfg, After(cfg, s, RefreshOne))
  {
    var s' := After(cfg, s, RefreshOne);
    StoreStays(cfg, s, s');
    RefreshOneCoversAll(cfg, s, s');
  }

  lemma {:induction false} LastIndexSkips(items: seq<Event>, more: seq<Event>, k: Key)
    requires AllValid(items) && AllValid(more) && forall n :: 0 <= n < |more| ==>
               more[n].Valid() && more[n].Latest().key != k
    ensures AllValid(items + more) && LastIndex(items + more, k) == LastIndex(items, k)
    decreases |more|
  {
    if more == [] {
      assert items + more == items;
    } else {
      var m, e := more[..|more| - 1], more[|more| - 1];
      assert more == m + [e];
      LastIndexSkips(items, m, k);
      assert items + more == (items + m) + [e];
      LastIndexAppend(items + m, e, k);
    }
  }

  lemma GatheredItems(c: CState, k: Key, now: Option<Obj>)
    requires k in c.inputs && WellKeyed(c.inputs) && (now.Some? ==> now.value.key == k)
    ensures forall n :: 0 <= n < |GatherItems(c, k, now)| ==>
              GoodItem(GatherItems(c, k, now)[n]) && GatherItems(c, k, now)[n].Latest().key == k
    ensures AllValid(GatherItems(c, k, now))
  {
  }

  lemma GatherOneCovers(cfg: Config, s: Sys, s': Sys, k: Key, i: Key)
    requires s.phase.Gather? && k in s.phase.keys && k in s.c.inputs && WellKeyed(s.c.inputs) && WellKeyed(s.parent)
    requires AllValid(Pending(s)) && AllValid(s.phase.toRun) && Covered(cfg, s, i)
    requires forall n :: 0 <= n < |s.phase.toRun| ==>
               s.phase.toRun[n].Valid() && s.phase.toRun[n].Latest().key !in s.phase.keys
    requires s' == s.(phase := Gather(s.phase.keys - {k}, s.phase.toRun + GatherItems(s.c, k, Get(s.parent, k))))
    ensures AllValid(Pending(s')) && AllValid(ReadItems(s'.phase)) && Covered(cfg, s', i)
  {
    var toRun, more := s.phase.toRun, GatherItems(s.c, k, Get(s.parent, k));
    GatheredItems(s.c, k, Get(s.parent, k));
    assert Pending(s') == Pending(s);
    if i != k {
      LastIndexSkips(toRun, more, i);
      if LastOn(Pending(s), i).None? {
        FreshnessIsShared(cfg, s, s');
        var r := LastIndex(toRun, i);
        if r.Some? {
          assert toRun[r.value] in toRun;
          EarlierInHand(cfg, s, s', i, r.value);
        }
      }
    } else if LastOn(Pending(s), i).None? {
      assert LastIndex(toRun, k).None?;
      assert UpToDate(cfg, s, k);
      LastIndexAppend(toRun, more[0], k);
    }
  }

  lemma GatherOnePhase(cfg: Config, s: Sys, s': Sys, k: Key)
    requires GoodPhase(cfg, s) && s.phase.Gather? && k in s.phase.keys && k in s.c.inputs
    requires WellKeyed(s.c.inputs) && WellKeyed(s.parent)
    requires s' == s.(phase := Gather(s.phase.keys - {k}, s.phase.toRun + GatherItems(s.c, k, Get(s.parent, k))))
    ensures GoodPhase(cfg, s')
  {
    GatheredItems(s.c, k, Get(s.parent, k));
  }

  lemma GatherOneCoversAll(cfg: Config, s: Sys, s': Sys, k: Key)
    requires s.phase.Gather? && k in s.phase.keys && k in s.c.inputs && WellKeyed(s.c.inputs) && WellKeyed(s.parent)
    requires AllValid(Pending(s)) && AllValid(s.phase.toRun) && AllCovered(cfg, s)
    requires forall n :: 0 <= n < |s.phase.toRun| ==>
               s.phase.toRun[n].Valid() && s.phase.toRun[n].Latest().key !in s.phase.keys
    requires s' == s.(phase := Gather(s.phase.keys - {k}, s.phase.toRun + GatherItems(s.c, k, Get(s.parent, k))))
    ensures AllValid(Pending(s')) && AllValid(ReadItems(s'.phase)) && AllCovered(cfg, s')
  {
    assert forall i :: Covered(cfg, s, i);
    GatherOneCovers(cfg, s, s', k, "");
    forall i ensures Covered(cfg, s', i) {
      GatherOneCovers(cfg, s, s', k, i);
    }
  }

  lemma GatherOneKeeps(cfg: Config, s: Sys, k: Key)
    requires Inv(cfg, s) && Enabled(cfg, s, GatherOne(k))
    ensures Inv(cfg, After(cfg, s, GatherOne(k)))
  {
    var s' := After(cfg, s, GatherOne(k));
    GatherOneHolds(cfg, s, s', k);
  }

  lemma GatherOneHolds(cfg: Config, s: Sys, s': Sys, k: Key)
    requires Inv(cfg, s) && s.phase.Gather? && k in s.phase.keys && k in s.c.inputs
    requires s' == s.(phase := Gather(s.phase.keys - {k}, s.phase.toRun + GatherItems(s.c, k, Get(s.parent, k))))
    ensures Inv(cfg, s')
  {
    GatherOneShape(cfg, s, s', k);
    GatherOneCoversAll(cfg, s, s', k);
  }

  lemma GatherOneShape(cfg: Config, s: Sys, s': Sys, k: Key)
    requires Shape(cfg, s) && s.phase.Gather? && k in s.phase.keys && k in s.c.inputs
    requires s' == s.(phase := Gather(s.phase.keys - {k}, s.phase.toRun + GatherItems(s.c, k, Get(s.parent, k))))
    ensures Store(cfg, s') && GoodPhase(cfg, s') && WellKeyed(s.c.inputs)
    ensures forall n :: 0 <= n < |s.phase.toRun| ==>
              s.phase.toRun[n].Valid() && s.phase.toRun[n].Latest().key !in s.phase.keys
  {
    StoreStays(cfg, s, s');
    GatherOnePhase(cfg, s, s', k);
  }

  lemma EndReadingCovers(cfg: Config, s: Sys, s': Sys)
    requires AllValid(Pending(s)) && AllValid(ReadItems(s.phase)) && AllCovered(cfg, s)
    requires (s.phase.Refresh? && s.phase.todo == []) || (s.phase.Gather? && s.phase.keys == {})
    requires s' == s.(phase := Compute(ReadItems(s.phase), [], Cur.Ready))
    ensures AllValid(Pending(s')) && AllCovered(cfg, s')
  {
    assert Pending(s') == Pending(s);
    FreshnessIsShared(cfg, s, s');
    forall i ensures Covered(cfg, s', i) {
      assert Covered(cfg, s, i);
    }
  }

  lemma EndReadingKeeps(cfg: Config, s: Sys)
    requires Inv(cfg, s) && Enabled(cfg, s, EndReading)
    ensures Inv(cfg, After(cfg, s, EndReading))
  {
    var s' := After(cfg, s, EndReading);
    EndReadingHolds(cfg, s, s');
  }

  lemma EndReadingHolds(cfg: Config, s: Sys, s': Sys)
    requires Inv(cfg, s)
    requires (s.phase.Refresh? && s.phase.todo == []) || (s.phase.Gather? && s.phase.keys == {})
    requires s' == s.(phase := Compute(ReadItems(s.phase), [], Cur.Ready))
    ensures Inv(cfg, s')
  {
    StoreStays(cfg, s, s');
    EndReadingCovers(cfg, s, s');
  }

  // ---------------------------------------------------------------------------------------------
  // The worker runs the transformations

  /** A step within the computation: the items stay, and what is in hand stays so. */
  lemma ComputeCovers(cfg: Config, s: Sys, s': Sys)
    requires AllValid(ReadItems(s.phase)) && AllValid(Pending(s)) && AllCovered(cfg, s)
    requires s' == s.(phase := s'.phase) && s.phase.Compute? && s'.phase.Compute? && s'.phase.items == s.phase.items
    requires forall i, n :: 0 <= n < |s.phase.items| && s.phase.items[n].Valid() && InHand(cfg, s, i, n) ==>
               InHand(cfg, s', i, n)
    ensures AllCovered(cfg, s')
  {
    FreshnessIsShared(cfg, s, s');
    forall i ensures Covered(cfg, s', i) {
      assert Covered(cfg, s, i);
      if LastOn(Pending(s), i).None? {
        var r := LastIndex(s.phase.items, i);
        if r.Some? {
          assert s.phase.items[r.value] in s.phase.items;
        }
      }
    }
  }

  /** A step within the computation keeps the rest. */
  lemma ComputeKeeps(cfg: Config, s: Sys, s': Sys)
    requires Inv(cfg, s)
    requires s' == s.(phase := s'.phase) && s.phase.Compute? && s'.phase.Compute? && s'.phase.items == s.phase.items
    requires GoodPhase(cfg, s')
    requires forall i, n :: 0 <= n < |s.phase.items| && s.phase.items[n].Valid() && InHand(cfg, s, i, n) ==>
               InHand(cfg, s', i, n)
    ensures Inv(cfg, s')
  {
    StoreStays(cfg, s, s');
    ComputeCovers(cfg, s, s');
  }

  lemma SkipDeleteKeeps(cfg: Config, s: Sys)
    requires Inv(cfg, s) && Enabled(cfg, s, SkipDelete)
    ensures Inv(cfg, After(cfg, s, SkipDelete))
  {
    var s' := After(cfg, s, SkipDelete);
    FreshnessIsShared(cfg, s, s');
    SkipDeletePhase(cfg, s);
    ComputeKeeps(cfg, s, s');
  }

  lemma SkipDeletePhase(cfg: Config, s: Sys)
    requires GoodPhase(cfg, s) && Enabled(cfg, s, SkipDelete)
    ensures GoodPhase(cfg, After(cfg, s, SkipDelete))
  {
    var s' := After(cfg, s, SkipDelete);
    ExtendComps(cfg, s, s', Skip);
  }

  /** The computation of one more item is done. */
  lemma ExtendComps(cfg: Config, s: Sys, s': Sys, comp: Comp)
    requires GoodPhase(cfg, s) && s.phase.Compute? && |s.phase.comps| < |s.phase.items|
    requires s' == s.(phase := Compute(s.phase.items, s.phase.comps + [comp], Cur.Ready))
    requires GoodComp(cfg, s, s.phase.items[|s.phase.comps|], comp)
    ensures GoodPhase(cfg, s')
  {
    forall n | 0 <= n < |s'.phase.comps| ensures GoodComp(cfg, s', s'.phase.items[n], s'.phase.comps[n]) {
      if n < |s.phase.comps| {
        assert GoodComp(cfg, s, s.phase.items[n], s.phase.comps[n]);
      }
    }
    if |s'.phase.comps| < |s'.phase.items| {
      assert GoodItem(ReadItems(s.phase)[|s'.phase.comps|]);
    }
  }

  /** The running computation has fetched nothing that went stale unnoticed. */
  ghost predicate CurFresh(cfg: Config, s: Sys, cur: Cur) {
    && (!cur.Ready? ==> TraceFresh(cfg, s, cur.tr))
    && (cur.Fetching? ==> PartFresh(cfg, s, cur))
  }

  /** Only the running computation moved. */
  lemma ChangeCur(cfg: Config, s: Sys, s': Sys, cur': Cur)
    requires GoodPhase(cfg, s) && s.phase.Compute? && |s.phase.comps| < |s.phase.items|
    requires s' == s.(phase := s.phase.(cur := cur'))
    requires GoodCur(cfg, s, s.phase.items[|s.phase.comps|], cur')
    ensures GoodPhase(cfg, s')
  {
    forall n | 0 <= n < |s'.phase.comps| ensures GoodComp(cfg, s', s'.phase.items[n], s'.phase.comps[n]) {
      assert GoodComp(cfg, s, s.phase.items[n], s.phase.comps[n]);
    }
    forall n | 0 <= n < |ReadItems(s'.phase)| ensures GoodItem(ReadItems(s'.phase)[n]) {
      assert GoodItem(ReadItems(s.phase)[n]);
    }
  }

  lemma CurKeepsHands(cfg: Config, s: Sys, s': Sys, cur': Cur, i: Key, n: nat)
    requires s.phase.Compute? && n < |s.phase.items| && s.phase.items[n].Valid() && InHand(cfg, s, i, n)
    requires s' == s.(phase := s.phase.(cur := cur'))
    requires CurFresh(cfg, s, s.phase.cur) ==> CurFresh(cfg, s, cur')
    ensures InHand(cfg, s', i, n)
  {
    FreshnessIsShared(cfg, s, s');
  }

  lemma CurKeeps(cfg: Config, s: Sys, s': Sys, cur': Cur)
    requires Inv(cfg, s) && s.phase.Compute? && |s.phase.comps| < |s.phase.items|
    requires s' == s.(phase := s.phase.(cur := cur'))
    requires GoodCur(cfg, s, s.phase.items[|s.phase.comps|], cur')
    requires CurFresh(cfg, s, s.phase.cur) ==> CurFresh(cfg, s, cur')
    ensures Inv(cfg, s')
  {
    ChangeCur(cfg, s, s', cur');
    forall i, n | 0 <= n < |s.phase.items| && s.phase.items[n].Valid() && InHand(cfg, s, i, n)
      ensures InHand(cfg, s', i, n)
    {
      CurKeepsHands(cfg, s, s', cur', i, n);
    }
    ComputeKeeps(cfg, s, s');
  }

  lemma BeginKeeps(cfg: Config, s: Sys)
    requires Inv(cfg, s) && Enabled(cfg, s, Begin)
    ensures Inv(cfg, After(cfg, s, Begin))
  {
    CurKeeps(cfg, s, After(cfg, s, Begin), Running([]));
  }

  lemma GoodTraceExtends(cfg: Config, s: Sys, i: Obj, tr: seq<Read>, r: Read)
    requires Good(cfg) && GoodTrace(cfg, s, i, tr) && cfg.next(i, Results(tr)) == Fetch(r.dep)
             && r.dep.id in s.registered
    ensures GoodTrace(cfg, s, i, tr + [r])
  {
    var tr' := tr + [r];
    forall n | 0 <= n < |tr'|
      ensures cfg.next(i, Results(tr'[..n])) == Fetch(tr'[n].dep) && GoodDep(cfg, tr'[n].dep)
              && tr'[n].dep.id in s.registered
    {
      if n < |tr| {
        assert tr'[..n] == tr[..n];
        assert cfg.next(i, Results(tr[..n])) == Fetch(tr[n].dep);
      } else {
        assert tr'[..n] == tr;
      }
    }
  }

  lemma ReadStaysFresh(cfg: Config, s: Sys, tr: seq<Read>, r: Read)
    requires TraceFresh(cfg, s, tr) && Fresh(cfg, s, r)
    ensures TraceFresh(cfg, s, tr + [r])
  {
    forall n | 0 <= n < |tr + [r]| ensures Fresh(cfg, s, (tr + [r])[n]) {
      assert n < |tr| ==> Fresh(cfg, s, tr[n]);
    }
  }

  lemma ReadAllCur(cfg: Config, s: Sys, e: Event, tr: seq<Read>, r: Read)
    requires Good(cfg) && GoodCur(cfg, s, e, Running(tr))
    requires cfg.next(e.Latest(), Results(tr)) == Fetch(r.dep) && r.dep.id in s.registered
    requires r.res == Current(cfg, s, r.dep)
    ensures GoodCur(cfg, s, e, Running(tr + [r]))
    ensures CurFresh(cfg, s, Running(tr)) ==> CurFresh(cfg, s, Running(tr + [r]))
  {
    GoodTraceExtends(cfg, s, e.Latest(), tr, r);
    if TraceFresh(cfg, s, tr) {
      ReadStaysFresh(cfg, s, tr, r);
    }
  }

  lemma ReadAllKeeps(cfg: Config, s: Sys)
    requires Good(cfg) && Inv(cfg, s) && Enabled(cfg, s, ReadAll)
    ensures Inv(cfg, After(cfg, s, ReadAll))
  {
    var dep := Wanted(cfg, s.phase);
    var r := Read(dep, Current(cfg, s, dep));
    ReadAllCur(cfg, s, Item(s.phase), s.phase.cur.tr, r);
    CurKeeps(cfg, s, After(cfg, s, ReadAll), Running(s.phase.cur.tr + [r]));
  }

  lemma BeginKeysCur(cfg: Config, s: Sys, e: Event, tr: seq<Read>, dep: Dependency)
    requires GoodCur(cfg, s, e, Running(tr))
    requires cfg.next(e.Latest(), Results(tr)) == Fetch(dep) && dep.id in s.registered && dep.filter.keys.Some?
    requires WellKeyed(Contents(s.world, dep.id))
    ensures GoodCur(cfg, s, e, Fetching(tr, dep, dep.filter.keys.value, map[]))
    ensures CurFresh(cfg, s, Running(tr)) ==> CurFresh(cfg, s, Fetching(tr, dep, dep.filter.keys.value, map[]))
  {
  }

  lemma BeginKeysKeeps(cfg: Config, s: Sys)
    requires Inv(cfg, s) && Enabled(cfg, s, BeginKeys)
    ensures Inv(cfg, After(cfg, s, BeginKeys))
  {
    var dep := Wanted(cfg, s.phase);
    BeginKeysCur(cfg, s, Item(s.phase), s.phase.cur.tr, dep);
    CurKeeps(cfg, s, After(cfg, s, BeginKeys), Fetching(s.phase.cur.tr, dep, dep.filter.keys.value, map[]));
  }

  /** Reading one key gives what the selection has there. */
  lemma ReadKeyIsCurrent(cfg: Config, s: Sys, dep: Dependency, k: Key)
    requires Legal(dep.filter) && dep.filter.keys.Some? && k in dep.filter.keys.value
    requires WellKeyed(Contents(s.world, dep.id))
    ensures
      var c := Contents(s.world, dep.id);
      Get(Current(cfg, s, dep), k) ==
        if k in c && Matches(cfg.x, dep.filter, c[k], true) then Some(c[k]) else None
  {
  }

  lemma ReadKeyCur(cfg: Config, s: Sys, e: Event, cur: Cur, k: Key, acc': map<Key, Obj>)
    requires Good(cfg) && GoodCur(cfg, s, e, cur) && cur.Fetching? && k in cur.left
    requires WellKeyed(Contents(s.world, cur.dep.id))
    requires
      var c := Contents(s.world, cur.dep.id);
      acc' == if k in c && Matches(cfg.x, cur.dep.filter, c[k], true) then cur.acc[k := c[k]] else cur.acc
    ensures GoodCur(cfg, s, e, cur.(left := cur.left - {k}, acc := acc'))
    ensures CurFresh(cfg, s, cur) ==> CurFresh(cfg, s, cur.(left := cur.left - {k}, acc := acc'))
  {
    ReadKeyIsCurrent(cfg, s, cur.dep, k);
    assert k !in cur.acc;
    assert forall n :: n != k ==> Get(acc', n) == Get(cur.acc, n);
  }

  lemma ReadKeyKeeps(cfg: Config, s: Sys, k: Key)
    requires Good(cfg) && Inv(cfg, s) && Enabled(cfg, s, ReadKey(k))
    ensures Inv(cfg, After(cfg, s, ReadKey(k)))
  {
    var s' := After(cfg, s, ReadKey(k));
    ReadKeyHolds(cfg, s, s', k, s'.phase.cur.acc);
  }

  lemma ReadKeyHolds(cfg: Config, s: Sys, s': Sys, k: Key, acc': map<Key, Obj>)
    requires Good(cfg) && Inv(cfg, s) && s.phase.Compute? && s.phase.cur.Fetching? && k in s.phase.cur.left
    requires s' == s.(phase := s.phase.(cur := s.phase.cur.(left := s.phase.cur.left - {k}, acc := acc')))
    requires
      var cur, c := s.phase.cur, Contents(s.world, s.phase.cur.dep.id);
      acc' == if k in c && Matches(cfg.x, cur.dep.filter, c[k], true) then cur.acc[k := c[k]] else cur.acc
    ensures Inv(cfg, s')
  {
    ReadKeyCur(cfg, s, Item(s.phase), s.phase.cur, k, acc');
    CurKeeps(cfg, s, s', s'.phase.cur);
  }

  /** A fetch by keys that has read all its keys has the whole selection. */
  lemma AllKeysRead(cfg: Config, s: Sys, cur: Cur)
    requires cur.Fetching? && cur.left == {}
    requires !Warned(cfg, s, cur.dep) && PartFresh(cfg, s, cur)
    ensures cur.acc == Current(cfg, s, cur.dep)
  {
    var sel := Current(cfg, s, cur.dep);
    forall k ensures k in cur.acc <==> k in sel {
      assert Get(cur.acc, k) == Get(sel, k);
    }
    forall k | k in sel ensures cur.acc[k] == sel[k] {
      assert Get(cur.acc, k) == Get(sel, k);
    }
  }

  lemma EndKeysCur(cfg: Config, s: Sys, e: Event, cur: Cur)
    requires Good(cfg) && GoodCur(cfg, s, e, cur) && cur.Fetching? && cur.left == {}
    ensures GoodCur(cfg, s, e, Running(cur.tr + [Read(cur.dep, cur.acc)]))
    ensures CurFresh(cfg, s, cur) ==> CurFresh(cfg, s, Running(cur.tr + [Read(cur.dep, cur.acc)]))
  {
    var r := Read(cur.dep, cur.acc);
    GoodTraceExtends(cfg, s, e.Latest(), cur.tr, r);
    if CurFresh(cfg, s, cur) {
      if !Warned(cfg, s, cur.dep) {
        AllKeysRead(cfg, s, cur);
      }
      ReadStaysFresh(cfg, s, cur.tr, r);
    }
  }

  lemma EndKeysKeeps(cfg: Config, s: Sys)
    requires Good(cfg) && Inv(cfg, s) && Enabled(cfg, s, EndKeys)
    ensures Inv(cfg, After(cfg, s, EndKeys))
  {
    var cur := s.phase.cur;
    EndKeysCur(cfg, s, Item(s.phase), cur);
    CurKeeps(cfg, s, After(cfg, s, EndKeys), Running(cur.tr + [Read(cur.dep, cur.acc)]));
  }

  lemma FinishKeeps(cfg: Config, s: Sys)
    requires Inv(cfg, s) && Enabled(cfg, s, Finish)
    ensures Inv(cfg, After(cfg, s, Finish))
  {
    var s' := After(cfg, s, Finish);
    FreshnessIsShared(cfg, s, s');
    ExtendComps(cfg, s, s', Comp(s.phase.cur.tr));
    ComputeKeeps(cfg, s, s');
  }

  // ---------------------------------------------------------------------------------------------
  // The worker commits

  lemma {:induction false} PendingKnows(items: seq<Event>, comps: seq<Comp>, n: nat)
    requires |comps| == |items| && AllValid(items) && n < |items| && comps[n].Comp?
    ensures items[n] in items && items[n].Latest().key in PendingDeps(items, comps)
    ensures LastIndex(items, items[n].Latest().key) == Some(n) ==>
              PendingDeps(items, comps)[items[n].Latest().key] == Deps(comps[n].tr)
    decreases |items|
  {
    var last := |items| - 1;
    assert items[last] in items && forall e :: e in items[..last] ==> e in items;
    assert items[n] in items;
    if n < last {
      PendingKnows(items[..last], comps[..last], n);
    }
  }

  /** Whatever is stored for a key are the fetches of one of its computed items. */
  lemma {:induction false} PendingIsComputed(items: seq<Event>, comps: seq<Comp>, k: Key) returns (n: nat)
    requires |comps| == |items| && AllValid(items) && k in PendingDeps(items, comps)
    ensures n < |items| && comps[n].Comp? && PendingDeps(items, comps)[k] == Deps(comps[n].tr)
    decreases |items|
  {
    var last := |items| - 1;
    assert items[last] in items && forall e :: e in items[..last] ==> e in items;
    if comps[last].Comp? && items[last].Latest().key == k {
      n := last;
    } else {
      n := PendingIsComputed(items[..last], comps[..last], k);
    }
  }

  lemma ProducedIsOwned(cfg: Config, i: Obj, tr: seq<Read>)
    requires Good(cfg)
    ensures WellKeyed(Produced(cfg, i, tr)) && OwnedBy(cfg.owner, i.key, Produced(cfg, i, tr).Keys)
  {
    match cfg.next(i, Results(tr))
    case Fetch(_) =>
    case Done(outs) =>
      forall k | k in ByKey(outs) ensures cfg.owner(k) == i.key {
        ByKeyIsFrom(outs, k);
      }
  }

  lemma ComputedIsOwned(cfg: Config, s: Sys, n: nat)
    requires Good(cfg) && GoodPhase(cfg, s) && AllComputed(s.phase) && n < |s.phase.items|
    ensures s.phase.items[n].Valid()
    ensures s.phase.items[n].kind != Delete ==>
              s.phase.items[n].Latest().key in PendingDeps(s.phase.items, s.phase.comps)
    ensures Owned(cfg.owner, WorkOf(s.phase.items[n], Recomputed(cfg, s.phase.items, s.phase.comps)[n],
                                    PendingDeps(s.phase.items, s.phase.comps)))
  {
    var items, comps := s.phase.items, s.phase.comps;
    assert items[n] in items;
    assert GoodComp(cfg, s, items[n], comps[n]);
    if comps[n].Comp? {
      PendingKnows(items, comps, n);
      var i := items[n].Latest();
      var m := PendingIsComputed(items, comps, i.key);
      assert GoodComp(cfg, s, items[m], comps[m]);
      ProducedIsOwned(cfg, i, comps[n].tr);
      assert LegalDeps(Deps(comps[m].tr));
    }
  }

  /** When all items are computed, the commit can go ahead. */
  lemma CommitIsReady(cfg: Config, s: Sys)
    requires Good(cfg) && GoodPhase(cfg, s) && AllComputed(s.phase)
    ensures KrtCollection.Ready(cfg.owner, s.phase.items, Recomputed(cfg, s.phase.items, s.phase.comps),
                                PendingDeps(s.phase.items, s.phase.comps))
  {
    var items, comps := s.phase.items, s.phase.comps;
    var re, pend := Recomputed(cfg, items, comps), PendingDeps(items, comps);
    forall n | 0 <= n < |items|
      ensures items[n].Valid() && (items[n].kind != Delete ==> items[n].Latest().key in pend)
    {
      ComputedIsOwned(cfg, s, n);
    }
    forall n | 0 <= n < |items| ensures Owned(cfg.owner, WorkOf(items[n], re[n], pend)) {
      ComputedIsOwned(cfg, s, n);
    }
  }

  /** What the store has for input i after the works of the first items of a phase. */
  ghost predicate Written(cfg: Config, s: Sys, items: seq<Event>, i: Key, c: CState, d: DepState)
    requires AllComputed(s.phase) && items <= s.phase.items && AllValid(items)
  {
    match LastIndex(items, i)
    case None =>
      && Get(c.inputs, i) == Get(s.c.inputs, i) && Get(c.mappings, i) == Get(s.c.mappings, i)
      && Get(d.deps, i) == Get(s.d.deps, i)
      && forall k :: cfg.owner(k) == i ==> Get(c.outputs, k) == Get(s.c.outputs, k)
    case Some(n) =>
      if s.phase.comps[n].Skip? then i !in c.inputs && i !in c.mappings && i !in d.deps
      else
        var made := Produced(cfg, items[n].Latest(), s.phase.comps[n].tr);
        && Get(c.inputs, i) == Some(items[n].Latest()) && Get(c.mappings, i) == Some(made.Keys)
        && Get(d.deps, i) == Get(PendingDeps(s.phase.items, s.phase.comps), i)
        && forall k :: k in made ==> Get(c.outputs, k) == Some(made[k])
  }

  /** The work of item m of a phase. */
  ghost predicate IsWork(cfg: Config, s: Sys, m: nat, w: Work) {
    && AllComputed(s.phase) && m < |s.phase.items| && s.phase.items[m].Valid()
    && (s.phase.items[m].kind != Delete ==> s.phase.items[m].Latest().key in PendingDeps(s.phase.items, s.phase.comps))
    && w == WorkOf(s.phase.items[m], Recomputed(cfg, s.phase.items, s.phase.comps)[m],
                   PendingDeps(s.phase.items, s.phase.comps))
    && Owned(cfg.owner, w)
  }

  lemma WorkWritesItsInput(cfg: Config, s: Sys, m: nat, w: Work, c: CState, d: DepState, items: seq<Event>)
    requires IsWork(cfg, s, m, w) && items == s.phase.items[..m + 1] && AllValid(items)
    requires LastIndex(items, w.InputKey()) == Some(m)
    ensures Written(cfg, s, items, w.InputKey(), Applied(c, w), DepsApplied(d, w))
  {
  }

  lemma WorkWritesNoOther(cfg: Config, s: Sys, m: nat, w: Work, i: Key, c: CState, d: DepState,
        before: seq<Event>, items: seq<Event>)
    requires IsWork(cfg, s, m, w) && i != w.InputKey() && Partition(cfg.owner, c)
    requires before <= items <= s.phase.items && AllValid(before) && AllValid(items)
    requires LastIndex(items, i) == LastIndex(before, i)
    requires Written(cfg, s, before, i, c, d)
    ensures Written(cfg, s, items, i, Applied(c, w), DepsApplied(d, w))
  {
    AppliedIsLocal(cfg.owner, c, w, i);
    var r := LastIndex(before, i);
    if r.Some? && s.phase.comps[r.value].Comp? {
      var made := Produced(cfg, before[r.value].Latest(), s.phase.comps[r.value].tr);
      forall k | k in made ensures Get(Applied(c, w).outputs, k) == Some(made[k]) {
        assert OwnedBy(cfg.owner, i, c.mappings[i]);
      }
    }
  }

  ghost predicate ExtractorsIndexed(cfg: Config, d: DepState) {
    forall ek :: ek in d.extractors && ek.typ != UnknownIndex ==> cfg.indexed(ek.uid)
  }

  lemma WorkKeepsIndexed(cfg: Config, d: DepState, w: Work)
    requires ExtractorsIndexed(cfg, d)
    requires w.Put? ==> forall j :: 0 <= j < |w.deps| ==> GoodDep(cfg, w.deps[j])
    ensures ExtractorsIndexed(cfg, DepsApplied(d, w))
  {
  }

  lemma WorkDepsAreGood(cfg: Config, s: Sys, w: Work, m: nat)
    requires GoodPhase(cfg, s) && IsWork(cfg, s, m, w)
    ensures w.Put? ==> forall j :: 0 <= j < |w.deps| ==> GoodDep(cfg, w.deps[j])
  {
    if w.Put? {
      var n := PendingIsComputed(s.phase.items, s.phase.comps, w.input.key);
      assert GoodComp(cfg, s, s.phase.items[n], s.phase.comps[n]);
      forall j | 0 <= j < |w.deps| ensures GoodDep(cfg, w.deps[j]) {
        assert w.deps[j] == s.phase.comps[n].tr[j].dep;
      }
    }
  }

  ghost predicate AllWritten(cfg: Config, s: Sys, items: seq<Event>, c: CState, d: DepState)
    requires AllComputed(s.phase)
  {
    items <= s.phase.items && AllValid(items) && forall i :: Written(cfg, s, items, i, c, d)
  }

  /** The store part way through a commit. */
  ghost predicate Committing(cfg: Config, c: CState, d: DepState) {
    Partition(cfg.owner, c) && Complete(d) && d.deps.Keys == c.inputs.Keys && ExtractorsIndexed(cfg, d)
  }

  lemma WorkKeepsCommitting(cfg: Config, s: Sys, m: nat, w: Work, c: CState, d: DepState)
    requires GoodPhase(cfg, s) && IsWork(cfg, s, m, w) && Committing(cfg, c, d)
    ensures Committing(cfg, Applied(c, w), DepsApplied(d, w))
  {
    AppliedKeepsPartition(cfg.owner, c, w);
    DepsAppliedIsComplete(d, w);
    WorkDepsAreGood(cfg, s, w, m);
    WorkKeepsIndexed(cfg, d, w);
  }

  lemma WorkWrites(cfg: Config, s: Sys, m: nat, w: Work, c: CState, d: DepState, before: seq<Event>, items: seq<Event>)
    requires IsWork(cfg, s, m, w) && Partition(cfg.owner, c)
    requires before == s.phase.items[..m] && items == s.phase.items[..m + 1]
    requires AllWritten(cfg, s, before, c, d)
    ensures AllWritten(cfg, s, items, Applied(c, w), DepsApplied(d, w))
  {
    assert items == before + [s.phase.items[m]];
    LastIndexAppend(before, s.phase.items[m], "");
    forall i ensures Written(cfg, s, items, i, Applied(c, w), DepsApplied(d, w)) {
      LastIndexAppend(before, s.phase.items[m], i);
      if i == w.InputKey() {
        WorkWritesItsInput(cfg, s, m, w, c, d, items);
      } else {
        WorkWritesNoOther(cfg, s, m, w, i, c, d, before, items);
      }
    }
  }

  lemma {:induction false} CommitWrites(cfg: Config, s: Sys, ws: seq<Work>, m: nat)
    requires Committing(cfg, s.c, s.d) && GoodPhase(cfg, s) && AllComputed(s.phase) && m <= |s.phase.items|
    requires |ws| == |s.phase.items| && forall n :: 0 <= n < |ws| ==> IsWork(cfg, s, n, ws[n])
    ensures Committing(cfg, AppliedAll(s.c, ws[..m]), DepsAppliedAll(s.d, ws[..m]))
    ensures AllWritten(cfg, s, s.phase.items[..m], AppliedAll(s.c, ws[..m]), DepsAppliedAll(s.d, ws[..m]))
  {
    if m > 0 {
      CommitWrites(cfg, s, ws, m - 1);
      assert ws[..m][..m - 1] == ws[..m - 1];
      var c, d := AppliedAll(s.c, ws[..m - 1]), DepsAppliedAll(s.d, ws[..m - 1]);
      assert IsWork(cfg, s, m - 1, ws[m - 1]);
      WorkKeepsCommitting(cfg, s, m - 1, ws[m - 1], c, d);
      WorkWrites(cfg, s, m - 1, ws[m - 1], c, d, s.phase.items[..m - 1], s.phase.items[..m]);
    }
  }

  lemma CommitWritesAll(cfg: Config, s: Sys, ws: seq<Work>)
    requires Good(cfg) && Store(cfg, s) && GoodPhase(cfg, s) && AllComputed(s.phase)
    requires KrtCollection.Ready(cfg.owner, s.phase.items, Recomputed(cfg, s.phase.items, s.phase.comps),
                                 PendingDeps(s.phase.items, s.phase.comps))
    requires ws == WorksOf(cfg, s.phase)
    ensures Committing(cfg, AppliedAll(s.c, ws), DepsAppliedAll(s.d, ws))
    ensures AllWritten(cfg, s, s.phase.items, AppliedAll(s.c, ws), DepsAppliedAll(s.d, ws))
  {
    forall n | 0 <= n < |ws| ensures IsWork(cfg, s, n, ws[n]) {
      ComputedIsOwned(cfg, s, n);
    }
    CommitWrites(cfg, s, ws, |ws|);
    assert ws[..|ws|] == ws && s.phase.items[..|ws|] == s.phase.items;
  }

  lemma UntouchedStaysStored(cfg: Config, s: Sys, s': Sys, i: Key)
    requires i in s.c.inputs && i in s.traces && i in s.d.deps && i in s.c.mappings && Stored(cfg, s, i)
    requires i in s'.c.inputs && i in s'.traces && i in s'.d.deps && i in s'.c.mappings
    requires s'.c.inputs[i] == s.c.inputs[i] && s'.c.mappings[i] == s.c.mappings[i] && s'.d.deps[i] == s.d.deps[i]
    requires s'.traces[i] == s.traces[i] && s'.registered == s.registered
    requires OwnedBy(cfg.owner, i, s'.c.mappings[i])
    requires forall k :: cfg.owner(k) == i ==> Get(s'.c.outputs, k) == Get(s.c.outputs, k)
    ensures Stored(cfg, s', i)
  {
  }

  lemma ComputedIsStored(cfg: Config, s: Sys, s': Sys, e: Event, comp: Comp, i: Key)
    requires GoodComp(cfg, s, e, comp) && comp.Comp? && s'.registered == s.registered
    requires i in s'.c.inputs && i in s'.traces && i in s'.d.deps && i in s'.c.mappings
    requires s'.c.inputs[i] == e.Latest() && s'.traces[i] == comp.tr && s'.d.deps[i] == Deps(comp.tr)
    requires s'.c.mappings[i] == Produced(cfg, e.Latest(), comp.tr).Keys
    requires forall k :: k in Produced(cfg, e.Latest(), comp.tr) ==>
               Get(s'.c.outputs, k) == Some(Produced(cfg, e.Latest(), comp.tr)[k])
    ensures Stored(cfg, s', i)
  {
  }

  lemma CommitStores(cfg: Config, s: Sys, s': Sys, i: Key)
    requires Store(cfg, s) && GoodPhase(cfg, s) && AllComputed(s.phase)
    requires Written(cfg, s, s.phase.items, i, s'.c, s'.d)
    requires s'.traces == TracesAfter(s, s'.c.inputs) && s'.registered == s.registered
    requires i in s'.c.inputs && i in s'.c.mappings && i in s'.d.deps && OwnedBy(cfg.owner, i, s'.c.mappings[i])
    ensures Stored(cfg, s', i)
  {
    match LastIndex(s.phase.items, i)
    case None => UntouchedStaysStored(cfg, s, s', i);
    case Some(n) =>
      PendingKnows(s.phase.items, s.phase.comps, n);
      ComputedIsStored(cfg, s, s', s.phase.items[n], s.phase.comps[n], i);
  }

  lemma CommitKeepsStore(cfg: Config, s: Sys, s': Sys)
    requires Store(cfg, s) && GoodPhase(cfg, s) && AllComputed(s.phase)
    requires Committing(cfg, s'.c, s'.d) && AllWritten(cfg, s, s.phase.items, s'.c, s'.d)
    requires s'.traces == TracesAfter(s, s'.c.inputs) && s'.registered == s.registered
    ensures Store(cfg, s')
  {
    forall i | i in s'.c.inputs ensures Stored(cfg, s', i) {
      assert Written(cfg, s, s.phase.items, i, s'.c, s'.d);
      CommitStores(cfg, s, s', i);
    }
  }

  lemma CommitCovers(cfg: Config, s: Sys, s': Sys, i: Key)
    requires AllComputed(s.phase) && Settled(cfg, s, i)
    requires AllWritten(cfg, s, s.phase.items, s'.c, s'.d)
    requires s.traces.Keys == s.c.inputs.Keys && s'.traces == TracesAfter(s, s'.c.inputs)
    requires s'.phase.Idle? && s'.parent == s.parent
             && s'.world == s.world && s'.queue == s.queue && s'.flight == s.flight
    ensures Settled(cfg, s', i)
  {
    assert Written(cfg, s, s.phase.items, i, s'.c, s'.d);
    FreshnessIsShared(cfg, s, s');
  }

  lemma CommitKeepsFollowing(s: Sys, s': Sys, events: seq<Event>)
    requires Following(s) && Replay(s.c.outputs, events) == Some(s'.c.outputs)
             && s'.handlers == Hear(s.handlers, events)
    ensures Following(s')
  {
    forall h | h in s'.handlers ensures Replay(s'.handlers[h].known, s'.handlers[h].heard) == Some(s'.c.outputs) {
      ReplayConcat(s.handlers[h].known, s.handlers[h].heard, events);
    }
  }

  lemma CommitKeeps(cfg: Config, s: Sys, events: seq<Event>)
    requires Good(cfg) && Inv(cfg, s) && Enabled(cfg, s, Commit(events))
    ensures Inv(cfg, After(cfg, s, Commit(events)))
  {
    var s' := After(cfg, s, Commit(events));
    CommitWritesAll(cfg, s, WorksOf(cfg, s.phase));
    CommitKeepsStore(cfg, s, s');
    CommitKeepsFollowing(s, s', events);
    assert Pending(s') == Pending(s);
    forall i ensures Covered(cfg, s', i) {
      assert Covered(cfg, s, i);
      if LastOn(Pending(s), i).None? {
        CommitCovers(cfg, s, s', i);
      }
    }
  }

  // ---------------------------------------------------------------------------------------------
  // All runs

  lemma InitHolds(cfg: Config, s: Sys)
    requires Init(s)
    ensures Inv(cfg, s)
  {
    var batch :| s.flight == [Primary(batch)] && ParentBatch(map[], batch, s.parent);
    ParentEventsOne(Primary(batch));
    assert Pending(s) == batch;
    forall i ensures Covered(cfg, s, i) {
      assert LastOn(batch, i).None? ==> Get(s.parent, i) == None;
    }
  }

  lemma StepKeeps(cfg: Config, s: Sys, step: Step)
    requires Good(cfg) && Inv(cfg, s) && Enabled(cfg, s, step)
    ensures Inv(cfg, After(cfg, s, step))
  {
    if IsOutside(step) {
      OutsideKeeps(cfg, s, step);
    } else if IsFetching(step) {
      FetchingKeeps(cfg, s, step);
    } else {
      WorkingKeeps(cfg, s, step);
    }
  }

  predicate IsOutside(step: Step) {
    step.ParentChange? || step.DepChange? || step.Deliver? || step.StartQueue? || step.AddHandler?
  }

  predicate IsFetching(step: Step) {
    step.Register? || step.ReadAll? || step.BeginKeys? || step.ReadKey? || step.EndKeys?
  }

  lemma OutsideKeeps(cfg: Config, s: Sys, step: Step)
    requires Inv(cfg, s) && Enabled(cfg, s, step) && IsOutside(step)
    ensures Inv(cfg, After(cfg, s, step))
  {
    match step
    case ParentChange(p', batch) => ParentChangeKeeps(cfg, s, p', batch);
    case DepChange(id, c', batch) => DepChangeKeeps(cfg, s, id, c', batch);
    case Deliver(n) => DeliverKeeps(cfg, s, n);
    case StartQueue => StartQueueKeeps(cfg, s);
    case AddHandler(h, run, events) => AddHandlerKeeps(cfg, s, h, run, events);
  }

  lemma FetchingKeeps(cfg: Config, s: Sys, step: Step)
    requires Good(cfg) && Inv(cfg, s) && Enabled(cfg, s, step) && IsFetching(step)
    ensures Inv(cfg, After(cfg, s, step))
  {
    match step
    case Register => RegisterKeeps(cfg, s);
    case ReadAll => ReadAllKeeps(cfg, s);
    case BeginKeys => BeginKeysKeeps(cfg, s);
    case ReadKey(k) => ReadKeyKeeps(cfg, s, k);
    case EndKeys => EndKeysKeeps(cfg, s);
  }

  lemma WorkingKeeps(cfg: Config, s: Sys, step: Step)
    requires Good(cfg) && Inv(cfg, s) && Enabled(cfg, s, step) && !IsOutside(step) && !IsFetching(step)
    ensures Inv(cfg, After(cfg, s, step))
  {
    match step
    case Pop => PopKeeps(cfg, s);
    case RefreshOne => RefreshOneKeeps(cfg, s);
    case GatherOne(k) => GatherOneKeeps(cfg, s, k);
    case EndReading => EndReadingKeeps(cfg, s);
    case SkipDelete => SkipDeleteKeeps(cfg, s);
    case Begin => BeginKeeps(cfg, s);
    case Finish => FinishKeeps(cfg, s);
    case Commit(events) => CommitKeeps(cfg, s, events);
  }

  lemma {:induction false} BehaviorKeeps(cfg: Config, states: seq<Sys>, steps: seq<Step>, n: nat)
    requires Good(cfg) && IsBehavior(cfg, states, steps) && n < |states|
    ensures Inv(cfg, states[n])
  {
    if n == 0 {
      InitHolds(cfg, states[0]);
    } else {
      BehaviorKeeps(cfg, states, steps, n - 1);
      ChainAt(Next(cfg), states, steps, n - 1);
      StepKeeps(cfg, states[n - 1], steps[n - 1]);
    }
  }

  /** What is stored for an input that is up to date is what a run from scratch returns. */
  lemma StoredRuns(cfg: Config, s: Sys, i: Key)
    requires Store(cfg, s) && i in s.c.inputs
    requires forall n :: 0 <= n < |s.traces[i]| ==> s.traces[i][n].res == Current(cfg, s, s.traces[i][n].dep)
    ensures Returns(cfg, s.c.inputs[i], s.world)
    ensures forall k, o :: Get(Produced(cfg, s.c.inputs[i], s.traces[i]), k) == Some(o) <==>
                           Yields(cfg, s.c.inputs[i], s.world, k, o)
  {
    assert Stored(cfg, s, i);
    TraceRuns(cfg, s.c.inputs[i], s.world, s.traces[i]);
  }

  lemma QuietIsUpToDate(cfg: Config, s: Sys, i: Key)
    requires Inv(cfg, s) && Quiet(s)
    ensures Get(s.c.inputs, i) == Get(s.parent, i)
    ensures i in s.traces ==> forall n :: 0 <= n < |s.traces[i]| ==>
              s.traces[i][n].res == Current(cfg, s, s.traces[i][n].dep)
  {
    assert Pending(s) == [];
    assert Covered(cfg, s, i);
    if i in s.traces {
      forall n | 0 <= n < |s.traces[i]| ensures s.traces[i][n].res == Current(cfg, s, s.traces[i][n].dep) {
        assert Fresh(cfg, s, s.traces[i][n]);
      }
    }
  }

  lemma QuietIsFromScratch(cfg: Config, s: Sys)
    requires Inv(cfg, s) && Quiet(s)
    ensures IsFromScratch(cfg, s.parent, s.world, s.c.outputs)
  {
    forall i | i in s.parent
      ensures i in s.c.inputs && s.c.inputs[i] == s.parent[i] && Returns(cfg, s.parent[i], s.world)
      ensures forall k, o :: Get(Produced(cfg, s.parent[i], s.traces[i]), k) == Some(o) <==>
                             Yields(cfg, s.parent[i], s.world, k, o)
    {
      QuietIsUpToDate(cfg, s, i);
      StoredRuns(cfg, s, i);
    }
    forall k, o
      ensures Get(s.c.outputs, k) == Some(o) <==> exists i :: i in s.parent && Yields(cfg, s.parent[i], s.world, k, o)
    {
      if Get(s.c.outputs, k) == Some(o) {
        var i := cfg.owner(k);
        assert k in Outs(s.c, i);
        QuietIsUpToDate(cfg, s, i);
        assert Stored(cfg, s, i);
        assert Get(Produced(cfg, s.parent[i], s.traces[i]), k) == Some(o);
      }
      if i :| i in s.parent && Yields(cfg, s.parent[i], s.world, k, o) {
        assert Stored(cfg, s, i);
        assert Get(Produced(cfg, s.parent[i], s.traces[i]), k) == Some(o);
      }
    }
  }

  /**
   * In every behaviour, whenever nothing is on the way, queued or being computed, the outputs are
   * exactly the union of the transformation run from scratch on the parent's present objects in
   * the present world, and every handler that replays what it heard has the same objects.
   */
  lemma Convergence(cfg: Config, states: seq<Sys>, steps: seq<Step>, n: nat)
    requires Good(cfg) && IsBehavior(cfg, states, steps) && n < |states| && Quiet(states[n])
    ensures IsFromScratch(cfg, states[n].parent, states[n].world, states[n].c.outputs)
    ensures states[n].parent == ParentAfter(states[0].parent, steps[..n])
    ensures states[n].world == WorldAfter(states[0].world, steps[..n])
    ensures forall m :: 0 <= m < n && steps[m].AddHandler? ==>
              Replay(Known(states, steps, m), Heard(steps, m, n)) == Some(states[n].c.outputs)
  {
    BehaviorKeeps(cfg, states, steps, n);
    QuietIsFromScratch(cfg, states[n]);
    InputsAreRead(cfg, states, steps, n);
    forall m | 0 <= m < n && steps[m].AddHandler?
      ensures Replay(Known(states, steps, m), Heard(steps, m, n)) == Some(states[n].c.outputs)
    {
      HandlerIsRead(cfg, states, steps, m, n);
    }
  }
}
