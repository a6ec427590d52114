/**
 * First synchronization and progress: a collection reports that it is synced only after every
 * object its parent held at registration went through a commit, and the worker never gets stuck.
 */
module KrtSync {
  import opened Options
  import opened Sequences
  import opened KrtTypes
  import opened KrtCollection
  import opened KrtSystem
  import opened KrtConvergence

  ghost predicate QueuedAt(ts: seq<Task>, i: Key, n: int) {
    && 0 <= n < |ts| && ts[n].Primary? && NamesKey(ts[n].events, i)
    && forall m :: 0 <= m < n ==> !ts[m].SyncMark?
  }

  /** A batch naming i stands in the queue ahead of the sync mark. */
  ghost predicate QueuedBeforeMark(ts: seq<Task>, i: Key) {
    exists n :: QueuedAt(ts, i, n)
  }

  ghost predicate OnItsWay(s: Sys, i: Key) {
    i in s.sync.handled || NamesKey(ReadItems(s.phase), i) || NamesKey(Unread(s.phase), i)
    || QueuedBeforeMark(s.queue, i)
  }

  /** The batch of everything the parent held is still travelling, ahead of all later ones. */
  ghost predicate FirstInFlight(flight: seq<Task>, initial: set<Key>, n: int) {
    && 0 <= n < |flight| && flight[n].Primary?
    && (forall m :: 0 <= m < n ==> !flight[m].Primary?)
    && forall i :: i in initial ==> NamesKey(flight[n].events, i)
  }

  ghost predicate SyncInv(s: Sys) {
    && (s.sync.started ==> s.sync.arrived)
    && (!s.sync.started ==> !s.sync.synced && forall n :: 0 <= n < |s.queue| ==> !s.queue[n].SyncMark?)
    && (forall n :: 0 <= n < |s.flight| ==> !s.flight[n].SyncMark?)
    && (!s.sync.arrived ==> exists n :: FirstInFlight(s.flight, s.sync.initial, n))
    && (s.sync.arrived && !s.sync.synced ==> forall i :: i in s.sync.initial ==> OnItsWay(s, i))
    && (s.sync.synced ==> s.sync.initial <= s.sync.handled)
  }

  lemma NamesConcat(a: seq<Event>, b: seq<Event>, i: Key)
    ensures NamesKey(a + b, i) <==> NamesKey(a, i) || NamesKey(b, i)
  {
    if NamesKey(a, i) {
      var n :| 0 <= n < |a| && a[n].Valid() && a[n].Latest().key == i;
      assert (a + b)[n] == a[n];
    }
    if NamesKey(b, i) {
      var n :| 0 <= n < |b| && b[n].Valid() && b[n].Latest().key == i;
      assert (a + b)[|a| + n] == b[n];
    }
  }

  lemma QueueGrows(q: seq<Task>, t: Task, i: Key)
    requires QueuedBeforeMark(q, i)
    ensures QueuedBeforeMark(q + [t], i)
  {
    var n :| QueuedAt(q, i, n);
    assert QueuedAt(q + [t], i, n);
  }

  lemma DeliverKeepsSync(cfg: Config, s: Sys, n: nat)
    requires SyncInv(s) && Enabled(cfg, s, Deliver(n))
    ensures SyncInv(After(cfg, s, Deliver(n)))
  {
    var s' := After(cfg, s, Deliver(n));
    if s.sync.arrived {
      forall i | i in s.sync.initial && OnItsWay(s, i) ensures OnItsWay(s', i) {
        if QueuedBeforeMark(s.queue, i) {
          QueueGrows(s.queue, s.flight[n], i);
        }
      }
    } else {
      var f :| FirstInFlight(s.flight, s.sync.initial, f);
      if s.flight[n].Primary? {
        assert n == f;
        forall i | i in s.sync.initial ensures OnItsWay(s', i) {
          assert QueuedAt(s'.queue, i, |s.queue|);
        }
      } else {
        assert FirstInFlight(s'.flight, s.sync.initial, if n < f then f - 1 else f);
      }
    }
  }

  lemma PopKeepsSync(cfg: Config, s: Sys)
    requires SyncInv(s) && Enabled(cfg, s, Pop)
    ensures SyncInv(After(cfg, s, Pop))
  {
    var s' := After(cfg, s, Pop);
    forall i | i in s.sync.initial && OnItsWay(s, i) && !s.sync.synced
      ensures if s'.sync.synced then i in s'.sync.handled else OnItsWay(s', i)
    {
      if QueuedBeforeMark(s.queue, i) {
        var n :| QueuedAt(s.queue, i, n);
        if n > 0 {
          assert QueuedAt(s'.queue, i, n - 1);
        }
      }
    }
  }

  lemma RefreshKeepsSync(cfg: Config, s: Sys)
    requires SyncInv(s) && WellKeyed(s.parent) && Enabled(cfg, s, RefreshOne)
    ensures SyncInv(After(cfg, s, RefreshOne))
  {
    var s' := After(cfg, s, RefreshOne);
    var e := s.phase.todo[0];
    var item := RefreshItem(e, Get(s.parent, e.Latest().key));
    assert s.phase.todo == [e] + s'.phase.todo;
    forall i | i in s.sync.initial && OnItsWay(s, i) ensures OnItsWay(s', i) {
      NamesConcat([e], s'.phase.todo, i);
      NamesConcat(s.phase.done, [item], i);
      if NamesKey([e], i) {
        assert [item][0].Valid() && [item][0].Latest().key == i;
      }
    }
  }

  lemma GatherKeepsSync(cfg: Config, s: Sys, k: Key)
    requires SyncInv(s) && Enabled(cfg, s, GatherOne(k))
    ensures SyncInv(After(cfg, s, GatherOne(k)))
  {
    var s' := After(cfg, s, GatherOne(k));
    forall i | i in s.sync.initial && OnItsWay(s, i) ensures OnItsWay(s', i) {
      NamesConcat(s.phase.toRun, GatherItems(s.c, k, Get(s.parent, k)), i);
    }
  }

  lemma CommitKeepsSync(cfg: Config, s: Sys, events: seq<Event>)
    requires SyncInv(s) && Enabled(cfg, s, Commit(events))
    ensures SyncInv(After(cfg, s, Commit(events)))
  {
    var s' := After(cfg, s, Commit(events));
    forall i | i in s.sync.initial && OnItsWay(s, i) ensures OnItsWay(s', i) {
      if NamesKey(ReadItems(s.phase), i) {
        var n :| 0 <= n < |s.phase.items| && s.phase.items[n].Valid() && s.phase.items[n].Latest().key == i;
        assert s.phase.items[n] in s.phase.items;
      }
    }
  }

  lemma ArrivalsKeepSync(s: Sys, s': Sys, t: Task)
    requires SyncInv(s) && !t.SyncMark?
    requires s'.flight == s.flight + [t] && s'.queue == s.queue && s'.phase == s.phase && s'.sync == s.sync
    ensures SyncInv(s')
  {
    if !s.sync.arrived {
      var n :| FirstInFlight(s.flight, s.sync.initial, n);
      assert FirstInFlight(s'.flight, s.sync.initial, n);
    }
    assert forall i :: OnItsWay(s', i) <==> OnItsWay(s, i);
  }

  lemma RestKeepsSync(s: Sys, s': Sys)
    requires SyncInv(s) && s'.sync == s.sync && s'.flight == s.flight && s'.queue == s.queue
    requires ReadItems(s'.phase) == ReadItems(s.phase) && Unread(s'.phase) == Unread(s.phase)
    ensures SyncInv(s')
  {
    if !s.sync.arrived {
      var n :| FirstInFlight(s.flight, s.sync.initial, n);
      assert FirstInFlight(s'.flight, s.sync.initial, n);
    }
    assert forall i :: OnItsWay(s', i) <==> OnItsWay(s, i);
  }

  lemma StartKeepsSync(cfg: Config, s: Sys)
    requires SyncInv(s) && Enabled(cfg, s, StartQueue)
    ensures SyncInv(After(cfg, s, StartQueue))
  {
    var s' := After(cfg, s, StartQueue);
    forall i | i in s.sync.initial && OnItsWay(s, i) ensures OnItsWay(s', i) {
      if QueuedBeforeMark(s.queue, i) {
        QueueGrows(s.queue, SyncMark, i);
      }
    }
  }

  lemma StepKeepsSync(cfg: Config, s: Sys, step: Step)
    requires Good(cfg) && Inv(cfg, s) && SyncInv(s) && Enabled(cfg, s, step)
    ensures SyncInv(After(cfg, s, step))
  {
    if IsOutside(step) {
      OutsideKeepsSync(cfg, s, step);
    } else if step.Pop? {
      PopKeepsSync(cfg, s);
    } else if step.RefreshOne? {
      RefreshKeepsSync(cfg, s);
    } else if step.GatherOne? {
      GatherKeepsSync(cfg, s, step.key);
    } else if step.Commit? {
      CommitKeepsSync(cfg, s, step.events);
    } else {
      RestLeavesQueue(cfg, s, step);
      RestKeepsSync(s, After(cfg, s, step));
    }
  }

  lemma RestLeavesQueue(cfg: Config, s: Sys, step: Step)
    requires Enabled(cfg, s, step) && !IsOutside(step)
    requires !step.Pop? && !step.RefreshOne? && !step.GatherOne? && !step.Commit?
    ensures
      var s' := After(cfg, s, step);
      && s'.sync == s.sync && s'.flight == s.flight && s'.queue == s.queue
      && ReadItems(s'.phase) == ReadItems(s.phase) && Unread(s'.phase) == Unread(s.phase)
  {
  }

  lemma OutsideKeepsSync(cfg: Config, s: Sys, step: Step)
    requires Inv(cfg, s) && SyncInv(s) && Enabled(cfg, s, step) && IsOutside(step)
    ensures SyncInv(After(cfg, s, step))
  {
    var s' := After(cfg, s, step);
    match step
    case ParentChange(_, batch) => ArrivalsKeepSync(s, s', Primary(batch));
    case DepChange(id, _, batch) =>
      if id in s.registered {
        ArrivalsKeepSync(s, s', Secondary(id, batch));
      } else {
        RestKeepsSync(s, s');
      }
    case Deliver(n) => DeliverKeepsSync(cfg, s, n);
    case StartQueue => StartKeepsSync(cfg, s);
    case AddHandler(_, _, _) => RestKeepsSync(s, s');
  }

  lemma InitIsSyncInv(s: Sys)
    requires Init(s)
    ensures SyncInv(s)
  {
    var batch :| s.flight == [Primary(batch)] && ParentBatch(map[], batch, s.parent);
    forall i | i in s.sync.initial ensures NamesKey(batch, i) {
      var e := LastOn(batch, i).value;
      var n :| 0 <= n < |batch| && batch[n] == e;
    }
    assert FirstInFlight(s.flight, s.sync.initial, 0);
  }

  lemma InitialIsFixed(cfg: Config, s: Sys, step: Step)
    requires Enabled(cfg, s, step)
    ensures After(cfg, s, step).sync.initial == s.sync.initial
  {
  }

  lemma SyncAfter(cfg: Config, s: Sys, s': Sys, step: Step)
    requires Good(cfg) && Inv(cfg, s) && SyncInv(s) && Next(cfg)(s, step, s')
    ensures SyncInv(s') && s'.sync.initial == s.sync.initial
  {
    InitialIsFixed(cfg, s, step);
    StepKeepsSync(cfg, s, step);
  }

  lemma SyncNext(cfg: Config, states: seq<Sys>, steps: seq<Step>, n: nat)
    requires Good(cfg) && IsBehavior(cfg, states, steps) && n < |steps| && SyncInv(states[n])
    ensures SyncInv(states[n + 1]) && states[n + 1].sync.initial == states[n].sync.initial
  {
    BehaviorKeeps(cfg, states, steps, n);
    ChainAt(Next(cfg), states, steps, n);
    SyncAfter(cfg, states[n], states[n + 1], steps[n]);
  }

  lemma {:induction false} BehaviorKeepsSync(cfg: Config, states: seq<Sys>, steps: seq<Step>, n: nat)
    requires Good(cfg) && IsBehavior(cfg, states, steps) && n < |states|
    ensures SyncInv(states[n]) && states[n].sync.initial == states[0].parent.Keys
  {
    if n == 0 {
      InitIsSyncInv(states[0]);
    } else {
      BehaviorKeepsSync(cfg, states, steps, n - 1);
      SyncNext(cfg, states, steps, n - 1);
    }
  }

  /** Among the steps before n there was a commit of an item about k. */
  ghost predicate WasCommitted(states: seq<Sys>, steps: seq<Step>, n: nat, k: Key) {
    exists m :: 0 <= m < n && m < |steps| && m < |states| && CommitsKey(states[m], steps[m], k)
  }

  ghost predicate CommitsKey(s: Sys, step: Step, k: Key) {
    step.Commit? && s.phase.Compute? && NamesKey(s.phase.items, k)
  }

  lemma HandledOneMore(cfg: Config, s: Sys, s': Sys, step: Step, k: Key)
    requires Inv(cfg, s) && Next(cfg)(s, step, s') && k in s'.sync.handled && k !in s.sync.handled
    ensures CommitsKey(s, step, k)
  {
    OnlyCommitsHandle(cfg, s, step);
    var e :| e in s.phase.items && e.Latest().key == k;
    var n :| 0 <= n < |s.phase.items| && s.phase.items[n] == e;
    assert s.phase.items[n].Valid();
  }

  lemma OnlyCommitsHandle(cfg: Config, s: Sys, step: Step)
    requires Enabled(cfg, s, step)
    ensures step.Commit? ==> s.phase.Compute? && AllValid(s.phase.items)
    ensures After(cfg, s, step).sync.handled == s.sync.handled + if step.Commit? then KeysOf(s.phase.items) else {}
  {
  }

  lemma {:induction false} HandledMeansCommitted(
      cfg: Config, states: seq<Sys>, steps: seq<Step>, n: nat, k: Key)
    requires Good(cfg) && IsBehavior(cfg, states, steps) && n < |states| && k in states[n].sync.handled
    ensures WasCommitted(states, steps, n, k)
  {
    if n > 0 {
      if k in states[n - 1].sync.handled {
        HandledMeansCommitted(cfg, states, steps, n - 1, k);
      } else {
        BehaviorKeeps(cfg, states, steps, n - 1);
        ChainAt(Next(cfg), states, steps, n - 1);
        HandledOneMore(cfg, states[n - 1], states[n], steps[n - 1], k);
      }
    }
  }

  /**
   * In every behaviour, a collection that reports synced has committed every object its parent
   * held when it registered.
   */
  lemma SyncedMeansHandled(cfg: Config, states: seq<Sys>, steps: seq<Step>, n: nat)
    requires Good(cfg) && IsBehavior(cfg, states, steps) && n < |states| && states[n].sync.synced
    ensures forall k :: k in states[0].parent ==> WasCommitted(states, steps, n, k)
  {
    BehaviorKeepsSync(cfg, states, steps, n);
    forall k | k in states[0].parent ensures WasCommitted(states, steps, n, k) {
      HandledMeansCommitted(cfg, states, steps, n, k);
    }
  }

  /** What keeps the first synchronization going: the mark is queued, or will be. */
  ghost predicate SyncPending(s: Sys) {
    && (s.sync.started && !s.sync.synced ==> SyncMark in s.queue)
    && (!s.sync.started && s.sync.arrived ==> s.queue != [])
  }

  lemma DeliverKeepsPending(cfg: Config, s: Sys, n: nat)
    requires SyncPending(s) && Enabled(cfg, s, Deliver(n))
    ensures SyncPending(After(cfg, s, Deliver(n)))
  {
  }

  lemma StartKeepsPending(cfg: Config, s: Sys)
    requires SyncPending(s) && Enabled(cfg, s, StartQueue)
    ensures SyncPending(After(cfg, s, StartQueue))
  {
    var s' := After(cfg, s, StartQueue);
    assert s'.queue[|s.queue|] == SyncMark;
  }

  lemma PopKeepsPending(cfg: Config, s: Sys)
    requires SyncPending(s) && Enabled(cfg, s, Pop)
    ensures SyncPending(After(cfg, s, Pop))
  {
    assert s.queue == [s.queue[0]] + s.queue[1..];
  }

  lemma CommitLeavesQueue(cfg: Config, s: Sys, events: seq<Event>)
    requires Enabled(cfg, s, Commit(events))
    ensures
      var s' := After(cfg, s, Commit(events));
      && s'.queue == s.queue && s'.sync.started == s.sync.started
      && s'.sync.arrived == s.sync.arrived && s'.sync.synced == s.sync.synced
  {
  }

  lemma ReadLeavesQueue(cfg: Config, s: Sys, step: Step)
    requires Enabled(cfg, s, step)
    requires step.RefreshOne? || step.GatherOne? || step.ParentChange? || step.DepChange? || step.AddHandler?
    ensures After(cfg, s, step).queue == s.queue && After(cfg, s, step).sync == s.sync
  {
  }

  lemma StepKeepsPending(cfg: Config, s: Sys, step: Step)
    requires SyncPending(s) && Enabled(cfg, s, step)
    ensures SyncPending(After(cfg, s, step))
  {
    if step.Deliver? {
      DeliverKeepsPending(cfg, s, step.n);
    } else if step.StartQueue? {
      StartKeepsPending(cfg, s);
    } else if step.Pop? {
      PopKeepsPending(cfg, s);
    } else if step.Commit? {
      CommitLeavesQueue(cfg, s, step.events);
    } else if step.RefreshOne? || step.GatherOne? || IsOutside(step) {
      ReadLeavesQueue(cfg, s, step);
    } else {
      RestLeavesQueue(cfg, s, step);
    }
  }

  lemma {:induction false} BehaviorKeepsPending(cfg: Config, states: seq<Sys>, steps: seq<Step>, n: nat)
    requires IsBehavior(cfg, states, steps) && n < |states|
    ensures SyncPending(states[n])
  {
    if n > 0 {
      BehaviorKeepsPending(cfg, states, steps, n - 1);
      ChainAt(Next(cfg), states, steps, n - 1);
      StepKeepsPending(cfg, states[n - 1], steps[n - 1]);
    }
  }

  /** In every behaviour, a collection that has come to rest reports that it is synced. */
  lemma QuietMeansSynced(cfg: Config, states: seq<Sys>, steps: seq<Step>, n: nat)
    requires Good(cfg) && IsBehavior(cfg, states, steps) && n < |states| && Quiet(states[n])
    ensures states[n].sync.synced
  {
    BehaviorKeepsSync(cfg, states, steps, n);
    BehaviorKeepsPending(cfg, states, steps, n);
  }

  // ---------------------------------------------------------------------------------------------
  // Progress

  /** Any change of a collection can be told in events that replay. */
  lemma {:induction false} ChangeCanBeTold(m: map<Key, Obj>, m': map<Key, Obj>, todo: set<Key>)
    returns (events: seq<Event>)
    requires WellKeyed(m) && WellKeyed(m') && forall k :: k !in todo ==> Get(m, k) == Get(m', k)
    ensures Replay(m, events) == Some(m') && NoIdleUpdates(events)
    decreases todo
  {
    if todo == {} {
      assert m == m' by {
        forall k ensures Get(m, k) == Get(m', k) {
        }
        assert forall k :: k in m <==> Get(m, k).Some?;
        assert forall k :: k in m' <==> Get(m', k).Some?;
      }
      events := [];
    } else {
      var k :| k in todo;
      var m1 := if k in m' then m[k := m'[k]] else m - {k};
      var first := TellOne(m, k, Get(m', k));
      var rest := ChangeCanBeTold(m1, m', todo - {k});
      events := first + rest;
      ReplayConcat(m, first, rest);
    }
  }

  lemma TellOne(m: map<Key, Obj>, k: Key, now: Option<Obj>) returns (events: seq<Event>)
    requires WellKeyed(m) && (now.Some? ==> now.value.key == k)
    ensures Replay(m, events) == Some(if now.Some? then m[k := now.value] else m - {k}) && NoIdleUpdates(events)
  {
    events := [];
    if Get(m, k) == now {
      SameAsBefore(m, k);
    } else if now.None? {
      events := TellEvent(m, DeleteEvent(m[k]));
    } else if k in m {
      events := TellEvent(m, UpdateEvent(m[k], now.value));
    } else {
      events := TellEvent(m, AddEvent(now.value));
    }
  }

  lemma SameAsBefore(m: map<Key, Obj>, k: Key)
    ensures k in m ==> m[k := m[k]] == m
    ensures k !in m ==> m - {k} == m
  {
  }

  lemma TellEvent(m: map<Key, Obj>, e: Event) returns (events: seq<Event>)
    requires e.kind == Update ==> e.old_ != e.new_
    ensures Replay(m, events) == ReplayOne(m, e) && NoIdleUpdates(events)
  {
    events := [] + [e];
    ReplayAppend(m, [], e);
  }

  lemma CommitIsEnabled(cfg: Config, s: Sys) returns (events: seq<Event>)
    requires Good(cfg) && Inv(cfg, s) && AllComputed(s.phase)
    ensures Enabled(cfg, s, Commit(events))
  {
    CommitIsReady(cfg, s);
    var ws := WorksOf(cfg, s.phase);
    CommitWritesAll(cfg, s, ws);
    var m, m' := s.c.outputs, AppliedAll(s.c, ws).outputs;
    events := ChangeCanBeTold(m, m', m.Keys + m'.Keys);
  }

  predicate IsWorkerStep(step: Step) {
    !step.ParentChange? && !step.DepChange? && !step.AddHandler?
  }

  lemma ComputeMoves(cfg: Config, s: Sys) returns (step: Step)
    requires Good(cfg) && Inv(cfg, s) && s.phase.Compute?
    ensures Enabled(cfg, s, step) && IsWorkerStep(step)
  {
    var p := s.phase;
    if |p.comps| == |p.items| {
      forall n | 0 <= n < |p.items| ensures p.comps[n].Skip? <==> p.items[n].kind == Delete {
        assert GoodComp(cfg, s, p.items[n], p.comps[n]);
      }
      var events := CommitIsEnabled(cfg, s);
      step := Commit(events);
    } else {
      assert GoodCur(cfg, s, Item(p), p.cur);
      match p.cur
      case Ready => step := if Item(p).kind == Delete then SkipDelete else Begin;
      case Fetching(_, _, left, _) =>
        if left == {} {
          step := EndKeys;
        } else {
          var k :| k in left;
          step := ReadKey(k);
        }
      case Running(tr) =>
        match cfg.next(Item(p).Latest(), Results(tr))
        case Done(_) => step := Finish;
        case Fetch(dep) =>
          step := if dep.id !in s.registered then Register else if dep.filter.keys.None? then ReadAll else BeginKeys;
    }
  }

  /** A batch that no earlier batch of its source precedes. */
  lemma {:induction false} SomethingCanBeDelivered(flight: seq<Task>, n: nat) returns (m: nat)
    requires n < |flight|
    ensures m < |flight| && forall j :: 0 <= j < m ==> !SameSource(flight[j], flight[m])
  {
    if forall j :: 0 <= j < n ==> !SameSource(flight[j], flight[n]) {
      m := n;
    } else {
      var j :| 0 <= j < n && SameSource(flight[j], flight[n]);
      m := SomethingCanBeDelivered(flight, j);
    }
  }

  /** In every reachable state that is not quiet, the machinery itself can take a step. */
  lemma NeverStuck(cfg: Config, states: seq<Sys>, steps: seq<Step>, n: nat) returns (step: Step)
    requires Good(cfg) && IsBehavior(cfg, states, steps) && n < |states| && !Quiet(states[n])
    ensures Enabled(cfg, states[n], step) && IsWorkerStep(step)
  {
    var s := states[n];
    BehaviorKeeps(cfg, states, steps, n);
    BehaviorKeepsSync(cfg, states, steps, n);
    if s.flight != [] {
      var m := SomethingCanBeDelivered(s.flight, 0);
      step := Deliver(m);
    } else {
      match s.phase
      case Idle => step := if s.sync.started then Pop else StartQueue;
      case Refresh(_, todo) =>
        if todo == [] {
          step := EndReading;
        } else {
          assert Pending(s)[0] == todo[0];
          assert todo[0] in Pending(s);
          step := RefreshOne;
        }
      case Gather(keys, _) =>
        if keys == {} {
          step := EndReading;
        } else {
          var k :| k in keys;
          step := GatherOne(k);
        }
      case Compute(_, _, _) => step := ComputeMoves(cfg, s);
    }
  }

  // ---------------------------------------------------------------------------------------------
  // Collections feed collections

  lemma {:induction false} ReplayTellsParent(p: map<Key, Obj>, batch: seq<Event>, k: Key)
    requires Replay(p, batch).Some?
    ensures AllValid(batch)
    ensures LastOn(batch, k).None? ==> Get(Replay(p, batch).value, k) == Get(p, k)
    ensures LastOn(batch, k).Some? ==> (LastOn(batch, k).value.kind == Delete <==> k !in Replay(p, batch).value)
    decreases |batch|
  {
    ReplayedAreValid(p, batch);
    if batch != [] {
      ReplayTellsParent(p, batch[..|batch| - 1], k);
    }
  }

  lemma {:induction false} ReplayTellsDependent(c: map<Key, Obj>, batch: seq<Event>, k: Key)
    requires Replay(c, batch).Some? && Get(c, k) != Get(Replay(c, batch).value, k)
    ensures k in c ==> Shown(batch, c[k])
    ensures k in Replay(c, batch).value ==> Shown(batch, Replay(c, batch).value[k])
    decreases |batch|
  {
    if batch != [] {
      var n := |batch| - 1;
      var before, e := batch[..n], batch[n];
      var c1, c2 := Replay(c, before).value, Replay(c, batch).value;
      if Get(c, k) != Get(c1, k) {
        ReplayTellsDependent(c, before, k);
        ShownStays(before, batch);
      }
      if Get(c1, k) != Get(c2, k) {
        assert e.Latest().key == k;
        assert k in c1 ==> c1[k] in e.Items();
        assert k in c2 ==> c2[k] in e.Items();
      }
    }
  }

  lemma ShownStays(before: seq<Event>, batch: seq<Event>)
    requires before <= batch
    ensures forall o :: Shown(before, o) ==> Shown(batch, o)
  {
    forall o | Shown(before, o) ensures Shown(batch, o) {
      var n :| 0 <= n < |before| && o in before[n].Items();
      assert batch[n] == before[n];
    }
  }

  /**
   * The batches a collection sends are such that it can be the parent of another collection,
   * or be fetched by one: what Convergence assumes of its inputs is what it guarantees.
   */
  lemma OutputsCanBeInputs(outputs: map<Key, Obj>, events: seq<Event>)
    requires WellKeyed(outputs) && Replay(outputs, events).Some?
    ensures ParentBatch(outputs, events, Replay(outputs, events).value)
    ensures DepBatch(outputs, events, Replay(outputs, events).value)
  {
    var next := Replay(outputs, events).value;
    ReplayKeepsKeys(outputs, events);
    ReplayedAreValid(outputs, events);
    forall k
      ensures LastOn(events, k).None? ==> Get(next, k) == Get(outputs, k)
      ensures LastOn(events, k).Some? ==> (LastOn(events, k).value.kind == Delete <==> k !in next)
    {
      ReplayTellsParent(outputs, events, k);
    }
    forall k, o | Get(outputs, k) != Get(next, k) && (Get(outputs, k) == Some(o) || Get(next, k) == Some(o))
      ensures Shown(events, o)
    {
      ReplayTellsDependent(outputs, events, k);
    }
  }
}
