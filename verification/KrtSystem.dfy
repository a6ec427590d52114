/**
 * A derived collection in its surroundings, as a state machine: the parent and the fetched
 * collections change at any time, their events travel to the work queue, and one worker takes
 * tasks from the queue. Every read the worker makes is a step of its own, so that changes can
 * fall between any two reads.
 */
module KrtSystem {
  import opened Options
  import opened Sequences
  import opened KrtTypes
  import opened KrtFilter
  import opened KrtDependencies
  import opened KrtCollection

  // ---------------------------------------------------------------------------------------------
  // Transformations

  /** What a transformation does next: return its outputs, or fetch. */
  datatype Action = Done(outs: seq<Obj>) | Fetch(dep: Dependency)

  /**
   * A transformation is its next action, given the input and the results of its earlier fetches:
   * it is deterministic and reads nothing else. Which fetches it makes may depend on what
   * earlier ones returned.
   */
  datatype Config = Config(
    x: Extractors,
    next: (Obj, seq<map<Key, Obj>>) -> Action,
    owner: Key -> Key,
    indexed: Uid -> bool)

  /** One fetch of a finished or running transformation, with what it returned. */
  datatype Read = Read(dep: Dependency, res: map<Key, Obj>)

  function Results(tr: seq<Read>): seq<map<Key, Obj>> {
    seq(|tr|, n requires 0 <= n < |tr| => tr[n].res)
  }

  function Deps(tr: seq<Read>): seq<Dependency> {
    seq(|tr|, n requires 0 <= n < |tr| => tr[n].dep)
  }

  ghost predicate IsPrefix(cfg: Config, i: Obj, tr: seq<Read>) {
    forall n :: 0 <= n < |tr| ==> cfg.next(i, Results(tr[..n])) == Fetch(tr[n].dep)
  }

  /** The transformation of i made exactly these fetches and then returned. */
  ghost predicate Follows(cfg: Config, i: Obj, tr: seq<Read>) {
    IsPrefix(cfg, i, tr) && cfg.next(i, Results(tr)).Done?
  }

  /** What a transformation produced; the last of two objects under one key wins. */
  function Produced(cfg: Config, i: Obj, tr: seq<Read>): map<Key, Obj> {
    match cfg.next(i, Results(tr))
    case Done(outs) => ByKey(outs)
    case Fetch(_) => map[]
  }

  /**
   * What krt asks of a transformation: its output keys belong to its input, its filters do not
   * combine a key set with an index, and the filters it uses on one collection are all by key or
   * index, or none is.
   */
  ghost predicate Good(cfg: Config) {
    && (forall i, rs :: cfg.next(i, rs).Done? ==>
          forall o :: o in cfg.next(i, rs).outs ==> cfg.owner(o.key) == i.key)
    && (forall i, rs :: cfg.next(i, rs).Fetch? ==> GoodDep(cfg, cfg.next(i, rs).dep))
  }

  ghost predicate GoodDep(cfg: Config, d: Dependency) {
    && Legal(d.filter)
    && (Indexed(d.filter) ==> cfg.indexed(d.id))
    && (!Indexed(d.filter) ==> !cfg.indexed(d.id) || MatchesNothing(d.filter))
  }

  // ---------------------------------------------------------------------------------------------
  // The simple thing the engine speeds up

  type World = map<Uid, map<Key, Obj>>

  function Contents(w: World, id: Uid): map<Key, Obj> {
    if id in w then w[id] else map[]
  }

  /** What a fetch finds in a world: the objects of the collection that meet the filter. */
  ghost predicate IsFetched(cfg: Config, w: World, d: Dependency, res: map<Key, Obj>) {
    forall k, o :: Get(res, k) == Some(o) <==>
      d.id in w && Get(w[d.id], k) == Some(o) && Meets(cfg.x, d.filter, o)
  }

  /**
   * A run of the transformation from scratch in a world that stands still: each fetch finds what is
   * there, and then the transformation returns outs.
   */
  ghost predicate RunsTo(cfg: Config, i: Obj, w: World, rs: seq<map<Key, Obj>>, outs: seq<Obj>) {
    && (forall n :: 0 <= n < |rs| ==>
          cfg.next(i, rs[..n]).Fetch? && IsFetched(cfg, w, cfg.next(i, rs[..n]).dep, rs[n]))
    && cfg.next(i, rs) == Done(outs)
  }

  lemma FetchedIsUnique(cfg: Config, w: World, d: Dependency, a: map<Key, Obj>, b: map<Key, Obj>)
    requires IsFetched(cfg, w, d, a) && IsFetched(cfg, w, d, b)
    ensures a == b
  {
    forall k ensures Get(a, k) == Get(b, k) {
      if k in a {
        assert Get(a, k) == Some(a[k]);
      }
      if k in b {
        assert Get(b, k) == Some(b[k]);
      }
    }
    SameByGet(a, b);
  }

  lemma {:induction false} RunsAgree(
      cfg: Config, i: Obj, w: World, a: seq<map<Key, Obj>>, b: seq<map<Key, Obj>>, x: seq<Obj>, y: seq<Obj>, n: nat)
    requires RunsTo(cfg, i, w, a, x) && RunsTo(cfg, i, w, b, y) && n <= |a| && n <= |b|
    ensures a[..n] == b[..n]
  {
    if n > 0 {
      var m := n - 1;
      RunsAgree(cfg, i, w, a, b, x, y, m);
      FetchedIsUnique(cfg, w, cfg.next(i, a[..m]).dep, a[m], b[m]);
      assert a[..n] == a[..m] + [a[m]] && b[..n] == b[..m] + [b[m]];
    }
  }

  /** Running from scratch has one outcome. */
  lemma RunIsUnique(
      cfg: Config, i: Obj, w: World, a: seq<map<Key, Obj>>, b: seq<map<Key, Obj>>, x: seq<Obj>, y: seq<Obj>)
    requires RunsTo(cfg, i, w, a, x) && RunsTo(cfg, i, w, b, y)
    ensures a == b && x == y
  {
    var n := if |a| <= |b| then |a| else |b|;
    assert a[..|a|] == a && b[..|b|] == b;
    RunsAgree(cfg, i, w, a, b, x, y, n);
  }

  ghost predicate Returns(cfg: Config, i: Obj, w: World) {
    exists rs, outs :: RunsTo(cfg, i, w, rs, outs)
  }

  /** Run from scratch on i, the transformation leaves o under k: of its outputs there, the last. */
  ghost predicate Yields(cfg: Config, i: Obj, w: World, k: Key, o: Obj) {
    exists rs, outs, n: nat :: RunsTo(cfg, i, w, rs, outs) && LastUnder(outs, k, o, n)
  }

  /** outputs is the union, over the parent's objects, of the transformation run from scratch. */
  ghost predicate IsFromScratch(cfg: Config, parent: map<Key, Obj>, w: World, outputs: map<Key, Obj>) {
    && (forall i :: i in parent ==> Returns(cfg, parent[i], w))
    && (forall k, o :: Get(outputs, k) == Some(o) <==> exists i :: i in parent && Yields(cfg, parent[i], w, k, o))
  }

  /** Every output of a run from scratch has its key in the union, and the last one under a key is there. */
  lemma EveryOutputIsThere(
      cfg: Config, parent: map<Key, Obj>, w: World, outputs: map<Key, Obj>,
      i: Key, rs: seq<map<Key, Obj>>, outs: seq<Obj>, o: Obj)
    requires IsFromScratch(cfg, parent, w, outputs) && i in parent && RunsTo(cfg, parent[i], w, rs, outs) && o in outs
    ensures o.key in outputs && exists n: nat :: LastUnder(outs, o.key, outputs[o.key], n)
  {
    assert o.key in ByKey(outs);
    var last := ByKey(outs)[o.key];
    ByKeyIsLast(outs, o.key, last);
    var n: nat :| LastUnder(outs, o.key, last, n);
    assert Yields(cfg, parent[i], w, o.key, last);
    assert Get(outputs, o.key) == Some(last);
  }

  /** A trace whose fetches found what is there is a run from scratch, and what it produced is what that leaves. */
  lemma TraceRuns(cfg: Config, i: Obj, w: World, tr: seq<Read>)
    requires Follows(cfg, i, tr)
    requires forall n :: 0 <= n < |tr| ==> tr[n].res == Select(cfg.x, Contents(w, tr[n].dep.id), tr[n].dep.filter)
    ensures RunsTo(cfg, i, w, Results(tr), cfg.next(i, Results(tr)).outs)
    ensures forall k, o :: Get(Produced(cfg, i, tr), k) == Some(o) <==> Yields(cfg, i, w, k, o)
  {
    var rs, outs := Results(tr), cfg.next(i, Results(tr)).outs;
    forall n | 0 <= n < |rs|
      ensures cfg.next(i, rs[..n]).Fetch? && IsFetched(cfg, w, cfg.next(i, rs[..n]).dep, rs[n])
    {
      assert rs[..n] == Results(tr[..n]);
      SelectIsFetched(cfg, w, tr[n].dep);
    }
    forall k, o ensures Get(Produced(cfg, i, tr), k) == Some(o) <==> Yields(cfg, i, w, k, o) {
      ProducedYields(cfg, i, w, rs, outs, k, o);
    }
  }

  lemma SelectIsFetched(cfg: Config, w: World, d: Dependency)
    ensures IsFetched(cfg, w, d, Select(cfg.x, Contents(w, d.id), d.filter))
  {
    forall o ensures Matches(cfg.x, d.filter, o, false) <==> Meets(cfg.x, d.filter, o) {
      MatchesIff(cfg.x, d.filter, o);
    }
  }

  lemma ProducedYields(
      cfg: Config, i: Obj, w: World, rs: seq<map<Key, Obj>>, outs: seq<Obj>, k: Key, o: Obj)
    requires RunsTo(cfg, i, w, rs, outs)
    ensures Get(ByKey(outs), k) == Some(o) <==> Yields(cfg, i, w, k, o)
  {
    ByKeyIsLast(outs, k, o);
    if Yields(cfg, i, w, k, o) {
      var rs', outs', n: nat :| RunsTo(cfg, i, w, rs', outs') && LastUnder(outs', k, o, n);
      RunIsUnique(cfg, i, w, rs, rs', outs, outs');
    }
  }

  // ---------------------------------------------------------------------------------------------
  // States

  /** SyncMark is the task that the queue adds when it starts to run. */
  datatype Task = Primary(events: seq<Event>) | Secondary(src: Uid, events: seq<Event>) | SyncMark

  /** The outcome of one item: nothing for a Delete, else the fetches made and the outputs. */
  datatype Comp = Skip | Comp(tr: seq<Read>)

  datatype Cur =
    | Ready
    | Running(tr: seq<Read>)
    | Fetching(tr: seq<Read>, dep: Dependency, left: set<Key>, acc: map<Key, Obj>)

  /** Where the worker stands. */
  datatype Phase =
    | Idle
    | Refresh(done: seq<Event>, todo: seq<Event>)
    | Gather(keys: set<Key>, toRun: seq<Event>)
    | Compute(items: seq<Event>, comps: seq<Comp>, cur: Cur)

  datatype Handler = Handler(known: map<Key, Obj>, heard: seq<Event>)

  datatype Sys = Sys(
    parent: map<Key, Obj>,
    world: World,
    registered: set<Uid>,
    flight: seq<Task>,
    queue: seq<Task>,
    phase: Phase,
    c: CState,
    d: DepState,
    traces: map<Key, seq<Read>>,
    handlers: map<nat, Handler>,
    sync: SyncState)

  /**
   * How far the collection is with its first synchronization: the keys the parent held at
   * registration, whether they have reached the queue, whether the queue runs, which inputs
   * have been through a commit, and whether the collection reports that it is synced.
   */
  datatype SyncState = SyncState(initial: set<Key>, arrived: bool, started: bool, handled: set<Key>, synced: bool)

  /** The parent changed, and the batch says so: every changed key is named, last by what it is now. */
  ghost predicate ParentBatch(p: map<Key, Obj>, batch: seq<Event>, p': map<Key, Obj>) {
    && AllValid(batch) && WellKeyed(p')
    && forall k ::
         (LastOn(batch, k).None? ==> Get(p', k) == Get(p, k)) &&
         (LastOn(batch, k).Some? ==> (LastOn(batch, k).value.kind == Delete <==> k !in p'))
  }

  /** A fetched collection changed, and the batch shows every object that went or came. */
  ghost predicate DepBatch(c: map<Key, Obj>, batch: seq<Event>, c': map<Key, Obj>) {
    && WellKeyed(c')
    && forall k, o :: Get(c, k) != Get(c', k) && (Get(c, k) == Some(o) || Get(c', k) == Some(o)) ==> Shown(batch, o)
  }

  ghost predicate Shown(batch: seq<Event>, o: Obj) {
    exists n :: 0 <= n < |batch| && o in batch[n].Items()
  }

  /** The item is brought up to date with the parent; the kind of a stale Delete stays. */
  function RefreshItem(ev: Event, now: Option<Obj>): Event
    requires ev.Valid()
  {
    match now
    case None => Event(Delete, if ev.old_.None? then ev.new_ else ev.old_, None)
    case Some(o) => ev.(new_ := Some(o))
  }

  /** The items made of one input whose fetches may have changed: a Delete for each output if it is gone. */
  function GatherItems(c: CState, k: Key, now: Option<Obj>): seq<Event>
    requires k in c.inputs
  {
    match now
    case None => seq(|Outs(c, k)|, _ => Event(Delete, Some(c.inputs[k]), None))
    case Some(o) => [Event(Update, None, Some(o))]
  }

  function Recomputed(cfg: Config, items: seq<Event>, comps: seq<Comp>): seq<map<Key, Obj>>
    requires |comps| == |items| && AllValid(items)
  {
    seq(|items|, n requires 0 <= n < |items| =>
      assert items[n] in items;
      if comps[n].Skip? then map[] else Produced(cfg, items[n].Latest(), comps[n].tr))
  }

  /** The dependencies to store for each input: those of its last computed item. */
  function PendingDeps(items: seq<Event>, comps: seq<Comp>): map<Key, seq<Dependency>>
    requires |comps| == |items| && AllValid(items)
  {
    if items == [] then map[]
    else
      var n := |items| - 1;
      assert items[n] in items && forall e :: e in items[..n] ==> e in items;
      var m := PendingDeps(items[..n], comps[..n]);
      if comps[n].Skip? then m else m[items[n].Latest().key := Deps(comps[n].tr)]
  }

  /** The index of the last item about key k. */
  function LastIndex(items: seq<Event>, k: Key): (r: Option<nat>)
    requires AllValid(items)
    ensures r.Some? ==> r.value < |items| && items[r.value].Latest().key == k &&
                        forall n :: r.value < n < |items| ==> items[n].Latest().key != k
    ensures r.None? ==> forall n :: 0 <= n < |items| ==> items[n].Latest().key != k
  {
    if items == [] then None
    else
      var n := |items| - 1;
      assert items[n] in items && forall e :: e in items[..n] ==> e in items;
      if items[n].Latest().key == k then Some(n) else LastIndex(items[..n], k)
  }

  function KeysOf(items: seq<Event>): set<Key>
    requires AllValid(items)
  {
    set e | e in items :: e.Latest().key
  }

  function Hear(handlers: map<nat, Handler>, events: seq<Event>): map<nat, Handler> {
    map h | h in handlers :: handlers[h].(heard := handlers[h].heard + events)
  }

  // ---------------------------------------------------------------------------------------------
  // Steps

  datatype Step =
    | ParentChange(parent: map<Key, Obj>, batch: seq<Event>)
    | DepChange(id: Uid, contents: map<Key, Obj>, batch: seq<Event>)
    | Deliver(n: nat)
    | StartQueue
    | Pop
    | RefreshOne
    | GatherOne(key: Key)
    | EndReading
    | SkipDelete
    | Begin
    | Register
    | ReadAll
    | BeginKeys
    | ReadKey(key: Key)
    | EndKeys
    | Finish
    | Commit(events: seq<Event>)
    | AddHandler(h: nat, runExistingState: bool, events: seq<Event>)

  predicate SameSource(a: Task, b: Task) {
    match (a, b)
    case (Primary(_), Primary(_)) => true
    case (Secondary(x, _), Secondary(y, _)) => x == y
    case _ => false
  }

  /** The item being computed. */
  function Item(p: Phase): Event
    requires p.Compute? && |p.comps| < |p.items|
  {
    p.items[|p.comps|]
  }

  /** The running transformation is about to fetch. */
  ghost predicate Fetches(cfg: Config, p: Phase) {
    p.Compute? && |p.comps| < |p.items| && p.cur.Running? && Item(p).Valid() &&
    cfg.next(Item(p).Latest(), Results(p.cur.tr)).Fetch?
  }

  ghost function Wanted(cfg: Config, p: Phase): Dependency
    requires Fetches(cfg, p)
  {
    cfg.next(Item(p).Latest(), Results(p.cur.tr)).dep
  }

  ghost predicate AllComputed(p: Phase) {
    p.Compute? && |p.comps| == |p.items| && p.cur.Ready? && AllValid(p.items) &&
    forall n :: 0 <= n < |p.items| ==> (p.comps[n].Skip? <==> p.items[n].kind == Delete)
  }

  ghost predicate Enabled(cfg: Config, s: Sys, step: Step) {
    match step
    case ParentChange(p', batch) => ParentBatch(s.parent, batch, p')
    case DepChange(id, c', batch) => DepBatch(Contents(s.world, id), batch, c')
    case Deliver(n) =>
      n < |s.flight| && forall m :: 0 <= m < n ==> !SameSource(s.flight[m], s.flight[n])
    case StartQueue => s.sync.arrived && !s.sync.started
    case Pop => s.phase.Idle? && s.queue != [] && s.sync.started
    case RefreshOne => s.phase.Refresh? && s.phase.todo != [] && s.phase.todo[0].Valid()
    case GatherOne(k) => s.phase.Gather? && k in s.phase.keys && k in s.c.inputs
    case EndReading => (s.phase.Refresh? && s.phase.todo == []) || (s.phase.Gather? && s.phase.keys == {})
    case SkipDelete =>
      s.phase.Compute? && s.phase.cur.Ready? && |s.phase.comps| < |s.phase.items| && Item(s.phase).kind == Delete
    case Begin =>
      s.phase.Compute? && s.phase.cur.Ready? && |s.phase.comps| < |s.phase.items| && Item(s.phase).kind != Delete
    case Register => Fetches(cfg, s.phase) && Wanted(cfg, s.phase).id !in s.registered
    case ReadAll =>
      Fetches(cfg, s.phase) && Wanted(cfg, s.phase).id in s.registered && Wanted(cfg, s.phase).filter.keys.None?
    case BeginKeys =>
      Fetches(cfg, s.phase) && Wanted(cfg, s.phase).id in s.registered && Wanted(cfg, s.phase).filter.keys.Some?
    case ReadKey(k) => s.phase.Compute? && s.phase.cur.Fetching? && k in s.phase.cur.left
    case EndKeys => s.phase.Compute? && s.phase.cur.Fetching? && s.phase.cur.left == {}
    case Finish =>
      s.phase.Compute? && |s.phase.comps| < |s.phase.items| && s.phase.cur.Running? && Item(s.phase).Valid() &&
      cfg.next(Item(s.phase).Latest(), Results(s.phase.cur.tr)).Done?
    case Commit(events) =>
      && AllComputed(s.phase)
      && KrtCollection.Ready(cfg.owner, s.phase.items, Recomputed(cfg, s.phase.items, s.phase.comps),
                             PendingDeps(s.phase.items, s.phase.comps))
      && NoIdleUpdates(events)
      && Replay(s.c.outputs, events) == Some(AppliedAll(s.c, WorksOf(cfg, s.phase)).outputs)
    case AddHandler(h, runExisting, events) =>
      h !in s.handlers && (runExisting ==> Replay(map[], events) == Some(s.c.outputs))
  }

  ghost function WorksOf(cfg: Config, p: Phase): (ws: seq<Work>)
    requires AllComputed(p)
    requires KrtCollection.Ready(cfg.owner, p.items, Recomputed(cfg, p.items, p.comps), PendingDeps(p.items, p.comps))
  {
    Works(cfg.owner, p.items, Recomputed(cfg, p.items, p.comps), PendingDeps(p.items, p.comps))
  }

  /** The fetches behind each input once the works of a phase are applied. */
  ghost function TracesAfter(s: Sys, inputs: map<Key, Obj>): map<Key, seq<Read>>
    requires AllComputed(s.phase)
  {
    map i | i in inputs :: TraceAfter(s, i)
  }

  ghost function TraceAfter(s: Sys, i: Key): seq<Read>
    requires AllComputed(s.phase)
  {
    match LastIndex(s.phase.items, i)
    case None => if i in s.traces then s.traces[i] else []
    case Some(n) => if s.phase.comps[n].Skip? then [] else s.phase.comps[n].tr
  }

  ghost function After(cfg: Config, s: Sys, step: Step): Sys
    requires Enabled(cfg, s, step)
  {
    match step
    case ParentChange(p', batch) => s.(parent := p', flight := s.flight + [Primary(batch)])
    case DepChange(id, c', batch) =>
      s.(world := s.world[id := c'],
         flight := if id in s.registered then s.flight + [Secondary(id, batch)] else s.flight)
    case Deliver(n) =>
      s.(flight := s.flight[..n] + s.flight[n + 1..], queue := s.queue + [s.flight[n]],
         sync := s.sync.(arrived := s.sync.arrived || s.flight[n].Primary?))
    case StartQueue => s.(queue := s.queue + [SyncMark], sync := s.sync.(started := true))
    case Pop =>
      s.(queue := s.queue[1..],
         phase := (match s.queue[0]
                   case Primary(events) => Refresh([], events)
                   case Secondary(src, events) => Gather(Changed(s.d, cfg.x, src, events), [])
                   case SyncMark => Idle),
         sync := s.sync.(synced := s.sync.synced || s.queue[0].SyncMark?))
    case RefreshOne =>
      var ev := s.phase.todo[0];
      s.(phase := Refresh(s.phase.done + [RefreshItem(ev, Get(s.parent, ev.Latest().key))], s.phase.todo[1..]))
    case GatherOne(k) =>
      s.(phase := Gather(s.phase.keys - {k}, s.phase.toRun + GatherItems(s.c, k, Get(s.parent, k))))
    case EndReading => s.(phase := Compute(if s.phase.Refresh? then s.phase.done else s.phase.toRun, [], Ready))
    case SkipDelete => s.(phase := s.phase.(comps := s.phase.comps + [Skip]))
    case Begin => s.(phase := s.phase.(cur := Running([])))
    case Register => s.(registered := s.registered + {Wanted(cfg, s.phase).id})
    case ReadAll =>
      var dep := Wanted(cfg, s.phase);
      var r := Read(dep, Select(cfg.x, Contents(s.world, dep.id), dep.filter));
      s.(phase := s.phase.(cur := Running(s.phase.cur.tr + [r])))
    case BeginKeys =>
      var dep := Wanted(cfg, s.phase);
      s.(phase := s.phase.(cur := Fetching(s.phase.cur.tr, dep, dep.filter.keys.value, map[])))
    case ReadKey(k) =>
      var cur := s.phase.cur;
      var c := Contents(s.world, cur.dep.id);
      s.(phase := s.phase.(cur := cur.(left := cur.left - {k},
                                       acc := if k in c && Matches(cfg.x, cur.dep.filter, c[k], true)
                                              then cur.acc[k := c[k]] else cur.acc)))
    case EndKeys =>
      var cur := s.phase.cur;
      s.(phase := s.phase.(cur := Running(cur.tr + [Read(cur.dep, cur.acc)])))
    case Finish => s.(phase := s.phase.(comps := s.phase.comps + [Comp(s.phase.cur.tr)], cur := Ready))
    case Commit(events) =>
      var ws := WorksOf(cfg, s.phase);
      var c' := AppliedAll(s.c, ws);
      s.(phase := Idle, c := c', d := DepsAppliedAll(s.d, ws), traces := TracesAfter(s, c'.inputs),
         handlers := Hear(s.handlers, events), sync := s.sync.(handled := s.sync.handled + KeysOf(s.phase.items)))
    case AddHandler(h, runExisting, events) =>
      s.(handlers := s.handlers[h := if runExisting then Handler(map[], events) else Handler(s.c.outputs, [])])
  }

  /**
   * Just registered with the parent: everything it holds is on the way as one batch. For a parent
   * without objects the handler is never called; here that is an empty batch, which changes nothing.
   */
  ghost predicate Init(s: Sys) {
    && WellKeyed(s.parent) && (forall id :: id in s.world ==> WellKeyed(s.world[id]))
    && s.registered == {} && s.queue == [] && s.phase == Idle
    && s.c == EMPTY && s.d == EMPTY_DEPS && s.traces == map[] && s.handlers == map[]
    && s.sync == SyncState(s.parent.Keys, false, false, {}, false)
    && exists batch :: s.flight == [Primary(batch)] && ParentBatch(map[], batch, s.parent)
  }

  /** The states after each prefix of a list of steps, all enabled. */
  ghost predicate IsBehavior(cfg: Config, states: seq<Sys>, steps: seq<Step>) {
    IsChain(Next(cfg), states, steps) && Init(states[0])
  }

  ghost function Next(cfg: Config): (Sys, Step, Sys) -> bool {
    (s, step, s') => Enabled(cfg, s, step) && s' == After(cfg, s, step)
  }

  /** Nothing on the way, nothing queued, nothing being computed. */
  ghost predicate Quiet(s: Sys) {
    s.flight == [] && s.queue == [] && s.phase.Idle?
  }
}
