/** The delay queue: pushers, one dispatcher with a timer, and workers that retry what fails. */
module DelayQueue {
  import opened Sequences
  import opened DelayHeap

  const MAX_TASK_RETRY := 3

  /** Where the dispatcher stands in its loop, and what it holds there. */
  datatype Hand =
    | Top
    | Holding(task: nat)
    | Waiting(task: nat)
    | Both(task: nat, incoming: nat)
    | Idle
    | Got(incoming: nat)
    | Handing(task: nat)
    | Gone
  {
    function Holds(t: nat): nat {
      match this
      case Holding(x) => One(x, t)
      case Waiting(x) => One(x, t)
      case Both(x, y) => One(x, t) + One(y, t)
      case Got(x) => One(x, t)
      case Handing(x) => One(x, t)
      case _ => 0
    }

    function Held(): multiset<nat> {
      if Waiting? || Handing? then multiset{task} else multiset{}
    }

    predicate Receiving() {
      Waiting? || Idle?
    }
  }

  /**
   * buffer and execute are channels; direct holds tasks whose pushers found the buffer full and are
   * on their way to the heap. starts records each start of a task with its time.
   */
  datatype State = State(
    now: int,
    pushed: set<nat>,
    buffer: seq<nat>,
    direct: multiset<nat>,
    heap: seq<nat>,
    hand: Hand,
    execute: seq<nat>,
    running: multiset<nat>,
    done: multiset<nat>,
    dropped: multiset<nat>,
    lost: multiset<nat>,
    retries: map<nat, nat>,
    starts: seq<(nat, int)>,
    stopped: bool,
    order: Order)

  /**
   * What is known of the heap: it is one; or it is one but for the task at its end, appended without
   * sifting; or a pusher came in between that append and the dispatcher's next look.
   */
  datatype Order = Sifted | Appended | Mixed

  /** at fixes when each task is to run: the time of its push plus any delay. */
  datatype Config = Config(at: RunAt, buffer: nat, workers: nat)

  function New(now: int): State {
    State(now, {}, [], multiset{}, [], Top, [], multiset{}, multiset{}, multiset{}, multiset{}, map[], [], false,
          Sifted)
  }

  function Retries(s: State, t: nat): nat {
    if t in s.retries then s.retries[t] else 0
  }

  // ---------------------------------------------------------------------------------------------
  // Steps

  datatype Step =
    | Tick(to: int)
    | Push(task: nat, direct: bool)
    | Lock(task: nat)
    | Look
    | Check
    | Receive
    | PutBack
    | Fire
    | HandOver
    | Stop
    | Quit
    | Start
    | Succeed(task: nat)
    | Fail(task: nat, direct: bool)

  /** A send takes room in the buffer, or meets a receiver; otherwise the pusher goes to the heap. */
  predicate CanSend(c: Config, s: State, direct: bool) {
    if direct then |s.buffer| >= c.buffer
    else |s.buffer| < c.buffer || (c.buffer == 0 && s.buffer == [] && s.hand.Receiving())
  }

  function Sent(s: State, t: nat, direct: bool): State {
    if direct then s.(direct := s.direct + multiset{t}) else s.(buffer := s.buffer + [t])
  }

  predicate Enabled(c: Config, s: State, step: Step) {
    match step
    case Tick(to) => s.now <= to
    case Push(t, direct) => t !in s.pushed && CanSend(c, s, direct)
    case Lock(t) => t in s.direct
    case Look => s.hand.Top?
    case Check => s.hand.Holding?
    case Receive => s.hand.Receiving() && s.buffer != []
    case PutBack => s.hand.Both? || s.hand.Got?
    case Fire => s.hand.Waiting? && c.at(s.hand.task) <= s.now
    case HandOver => s.hand.Handing?
    case Stop => true
    case Quit => s.stopped && (s.hand.Receiving() || s.hand.Handing?)
    case Start => s.execute != [] && |s.running| < c.workers
    case Succeed(t) => t in s.running
    case Fail(t, direct) => t in s.running && (Retries(s, t) < MAX_TASK_RETRY ==> CanSend(c, s, direct))
  }

  function After(c: Config, s: State, step: Step): State
    requires Enabled(c, s, step)
  {
    match step
    case Tick(to) => s.(now := to)
    case Push(t, direct) => Sent(s.(pushed := s.pushed + {t}), t, direct)
    case Lock(t) =>
      s.(direct := s.direct - multiset{t}, heap := HeapPush(c.at, s.heap, t),
         order := if s.order.Sifted? then Sifted else Mixed)
    case Look =>
      if s.heap == [] then s.(hand := Idle, order := Sifted)
      else
        s.(hand := Holding(s.heap[0]), heap := HeapPop(c.at, s.heap), order := if s.order.Mixed? then Mixed else Sifted)
    case Check => s.(hand := if c.at(s.hand.task) <= s.now then Handing(s.hand.task) else Waiting(s.hand.task))
    case Receive =>
      s.(hand := if s.hand.Waiting? then Both(s.hand.task, s.buffer[0]) else Got(s.buffer[0]), buffer := s.buffer[1..])
    case PutBack =>
      if s.hand.Both? then
        s.(hand := Top, heap := HeapPush(c.at, HeapPush(c.at, s.heap, s.hand.incoming), s.hand.task))
      else
        s.(hand := Top, heap := s.heap + [s.hand.incoming],
           order := if AppendsInOrder(c.at, s.heap, s.hand.incoming) then Sifted else Appended)
    case Fire => s.(hand := Handing(s.hand.task))
    case HandOver => s.(hand := Top, execute := s.execute + [s.hand.task])
    case Stop => s.(stopped := true)
    case Quit => s.(hand := Gone, lost := s.lost + s.hand.Held())
    case Start =>
      s.(execute := s.execute[1..], running := s.running + multiset{s.execute[0]},
         starts := s.starts + [(s.execute[0], s.now)])
    case Succeed(t) => s.(running := s.running - multiset{t}, done := s.done + multiset{t})
    case Fail(t, direct) =>
      var s' := s.(running := s.running - multiset{t});
      if Retries(s, t) < MAX_TASK_RETRY then Sent(s'.(retries := s.retries[t := Retries(s, t) + 1]), t, direct)
      else s'.(dropped := s.dropped + multiset{t})
  }

  ghost predicate IsRun(c: Config, run: seq<State>, steps: seq<Step>) {
    IsChain(Next(c), run, steps) && run[0] == New(run[0].now)
  }

  ghost function Next(c: Config): (State, Step, State) -> bool {
    (s, step, s') => Enabled(c, s, step) && s' == After(c, s, step)
  }

  // ---------------------------------------------------------------------------------------------
  // What every step keeps

  /** How often t is among all that the queue holds or has held. */
  function Places(s: State, t: nat): nat {
    Waits(s, t) + Ran(s, t) + s.lost[t]
  }

  function Waits(s: State, t: nat): nat {
    Count(s.buffer, t) + s.direct[t] + Count(s.heap, t) + s.hand.Holds(t) + Count(s.execute, t)
  }

  /** Past its latest start: running, done or given up. */
  function Ran(s: State, t: nat): nat {
    s.running[t] + s.done[t] + s.dropped[t]
  }

  function Runs(starts: seq<(nat, int)>, t: nat): nat {
    if starts == [] then 0
    else Runs(starts[..|starts| - 1], t) + if starts[|starts| - 1].0 == t then 1 else 0
  }

  ghost predicate Kept(s: State) {
    forall t :: Places(s, t) == if t in s.pushed then 1 else 0
  }

  ghost predicate Due(c: Config, s: State) {
    && (forall n :: 0 <= n < |s.execute| ==> c.at(s.execute[n]) <= s.now)
    && (s.hand.Handing? ==> c.at(s.hand.task) <= s.now)
    && (forall n :: 0 <= n < |s.starts| ==> c.at(s.starts[n].0) <= s.starts[n].1)
  }

  ghost predicate Counted(s: State) {
    forall t :: CountedOne(s, t)
  }

  predicate CountedOne(s: State, t: nat) {
    && Runs(s.starts, t) == Retries(s, t) + Ran(s, t)
    && Retries(s, t) <= MAX_TASK_RETRY
    && (s.dropped[t] > 0 ==> Retries(s, t) == MAX_TASK_RETRY)
  }

  lemma LookMoves(c: Config, s: State, t: nat)
    requires Enabled(c, s, Look)
    ensures Places(After(c, s, Look), t) == Places(s, t)
  {
    if s.heap != [] {
      PopCounts(c.at, s.heap, t);
    }
  }

  lemma LockMoves(c: Config, s: State, x: nat, t: nat)
    requires Enabled(c, s, Lock(x))
    ensures Places(After(c, s, Lock(x)), t) == Places(s, t)
  {
    PushCounts(c.at, s.heap, x, t);
  }

  lemma PutBackMoves(c: Config, s: State, t: nat)
    requires Enabled(c, s, PutBack)
    ensures Places(After(c, s, PutBack), t) == Places(s, t)
  {
    if s.hand.Both? {
      PushTwiceCounts(c.at, s.heap, s.hand.incoming, s.hand.task, t);
    } else {
      CountSnoc(s.heap, s.hand.incoming, t);
    }
  }

  lemma ChannelMoves(c: Config, s: State, step: Step, t: nat)
    requires Enabled(c, s, step) && (step.Receive? || step.HandOver? || step.Start?)
    ensures Places(After(c, s, step), t) == Places(s, t)
  {
    match step
    case Receive => CountRest(s.buffer, t);
    case HandOver => CountSnoc(s.execute, s.hand.task, t);
    case Start => CountRest(s.execute, t);
  }

  lemma SentAdds(s: State, x: nat, direct: bool, t: nat)
    ensures Places(Sent(s, x, direct), t) == Places(s, t) + One(x, t)
  {
    if !direct {
      CountSnoc(s.buffer, x, t);
    }
  }

  lemma FailMoves(c: Config, s: State, x: nat, direct: bool, t: nat)
    requires Enabled(c, s, Fail(x, direct))
    ensures Places(After(c, s, Fail(x, direct)), t) == Places(s, t)
  {
    var s' := s.(running := s.running - multiset{x});
    assert Places(s', t) + One(x, t) == Places(s, t);
    if Retries(s, x) < MAX_TASK_RETRY {
      SentAdds(s'.(retries := s.retries[x := Retries(s, x) + 1]), x, direct, t);
    }
  }

  /** A step moves tasks from place to place; only a push brings one in. */
  lemma StepMoves(c: Config, s: State, step: Step, t: nat)
    requires Enabled(c, s, step)
    ensures Places(After(c, s, step), t) == Places(s, t) + if step.Push? then One(step.task, t) else 0
  {
    if step.Look? {
      LookMoves(c, s, t);
    } else if step.Lock? {
      LockMoves(c, s, step.task, t);
    } else if step.PutBack? {
      PutBackMoves(c, s, t);
    } else if step.Receive? || step.HandOver? || step.Start? {
      ChannelMoves(c, s, step, t);
    } else if step.Fail? {
      FailMoves(c, s, step.task, step.direct, t);
    } else if step.Push? {
      SentAdds(s.(pushed := s.pushed + {step.task}), step.task, step.direct, t);
    } else if step.Quit? {
      QuitMoves(c, s, t);
    } else if step.Succeed? {
      SucceedMoves(c, s, step.task, t);
    }
  }

  lemma QuitMoves(c: Config, s: State, t: nat)
    requires Enabled(c, s, Quit)
    ensures Places(After(c, s, Quit), t) == Places(s, t)
  {
  }

  lemma SucceedMoves(c: Config, s: State, task: nat, t: nat)
    requires Enabled(c, s, Succeed(task))
    ensures Places(After(c, s, Succeed(task)), t) == Places(s, t)
  {
  }

  lemma StepKeeps(c: Config, s: State, step: Step)
    requires Kept(s) && Enabled(c, s, step)
    ensures Kept(After(c, s, step))
  {
    var s' := After(c, s, step);
    forall t ensures Places(s', t) == if t in s'.pushed then 1 else 0 {
      StepMoves(c, s, step, t);
    }
  }

  lemma StepKeepsDue(c: Config, s: State, step: Step)
    requires Due(c, s) && Enabled(c, s, step)
    ensures Due(c, After(c, s, step))
  {
    if step.Start? {
      StartKeepsDue(c, s);
    } else if step.HandOver? {
      HandOverKeepsDue(c, s);
    } else if step.Tick? {
      TickKeepsDue(c, s, step.to);
    } else {
      RestLeavesDue(c, s, step);
    }
  }

  lemma StartKeepsDue(c: Config, s: State)
    requires Due(c, s) && Enabled(c, s, Start)
    ensures Due(c, After(c, s, Start))
  {
  }

  lemma HandOverKeepsDue(c: Config, s: State)
    requires Due(c, s) && Enabled(c, s, HandOver)
    ensures Due(c, After(c, s, HandOver))
  {
  }

  lemma TickKeepsDue(c: Config, s: State, to: int)
    requires Due(c, s) && Enabled(c, s, Tick(to))
    ensures Due(c, After(c, s, Tick(to)))
  {
  }

  lemma RestLeavesDue(c: Config, s: State, step: Step)
    requires Enabled(c, s, step) && !step.Start? && !step.HandOver? && !step.Tick?
    ensures
      var s' := After(c, s, step);
      && s'.now == s.now && s'.execute == s.execute && s'.starts == s.starts
      && (s'.hand.Handing? ==> s.hand == s'.hand || c.at(s'.hand.task) <= s.now)
  {
    if IsHeapStep(step) {
      HeapStepLeaves(c, s, step);
    }
  }

  /** Steps that change the heap. */
  predicate IsHeapStep(step: Step) {
    step.Lock? || step.Look? || step.PutBack?
  }

  lemma HeapStepLeaves(c: Config, s: State, step: Step)
    requires Enabled(c, s, step) && IsHeapStep(step)
    ensures
      var s' := After(c, s, step);
      && s' == s.(direct := s'.direct, heap := s'.heap, hand := s'.hand, order := s'.order)
      && (s'.hand.Handing? ==> s'.hand == s.hand)
  {
  }

  lemma StartCounts(c: Config, s: State, t: nat)
    requires CountedOne(s, t) && Places(s, t) <= 1 && Enabled(c, s, Start)
    ensures CountedOne(After(c, s, Start), t)
  {
    var s' := After(c, s, Start);
    assert s'.starts[..|s'.starts| - 1] == s.starts;
    CountRest(s.execute, t);
  }

  lemma FailCounts(c: Config, s: State, x: nat, direct: bool, t: nat)
    requires CountedOne(s, t) && Places(s, t) <= 1 && Enabled(c, s, Fail(x, direct))
    ensures CountedOne(After(c, s, Fail(x, direct)), t)
  {
    var s' := After(c, s, Fail(x, direct));
    assert s'.starts == s.starts;
    assert Ran(s', t) == Ran(s, t) - if Retries(s, x) < MAX_TASK_RETRY then One(x, t) else 0;
  }

  lemma StepCounts(c: Config, s: State, step: Step, t: nat)
    requires CountedOne(s, t) && Places(s, t) <= 1 && Enabled(c, s, step)
    ensures CountedOne(After(c, s, step), t)
  {
    if step.Start? {
      StartCounts(c, s, t);
    } else if step.Fail? {
      FailCounts(c, s, step.task, step.direct, t);
    } else if step.Succeed? {
      SucceedCounts(c, s, step.task, t);
    } else {
      RestLeavesRuns(c, s, step);
    }
  }

  lemma SucceedCounts(c: Config, s: State, task: nat, t: nat)
    requires CountedOne(s, t) && Enabled(c, s, Succeed(task))
    ensures CountedOne(After(c, s, Succeed(task)), t)
  {
  }

  lemma RestLeavesRuns(c: Config, s: State, step: Step)
    requires Enabled(c, s, step) && !step.Start? && !step.Fail? && !step.Succeed?
    ensures
      var s' := After(c, s, step);
      && s'.starts == s.starts && s'.retries == s.retries && s'.dropped == s.dropped
      && s'.running == s.running && s'.done == s.done
  {
    if IsHeapStep(step) {
      HeapStepLeaves(c, s, step);
    }
  }

  lemma StepKeepsCount(c: Config, s: State, step: Step)
    requires Counted(s) && Kept(s) && Enabled(c, s, step)
    ensures Counted(After(c, s, step))
  {
    forall t ensures CountedOne(After(c, s, step), t) {
      assert CountedOne(s, t) && Places(s, t) <= 1;
      StepCounts(c, s, step, t);
    }
  }

  /** Between an idle look and the append that ends it, pushers only sift: the append meets a heap. */
  ghost predicate WellOrdered(c: Config, s: State) {
    && (s.order.Sifted? ==> IsHeap(c.at, s.heap))
    && (s.order.Appended? ==> s.hand.Top? && |s.heap| > 1 && IsHeap(c.at, s.heap[..|s.heap| - 1]))
    && (s.hand.Idle? || s.hand.Got? ==> s.order.Sifted?)
  }

  lemma LookKeepsOrder(c: Config, s: State)
    requires WellOrdered(c, s) && Enabled(c, s, Look)
    ensures WellOrdered(c, After(c, s, Look))
  {
    if s.heap != [] {
      PopIsHeap(c.at, s.heap);
      if s.order.Appended? {
        var n := |s.heap| - 1;
        assert s.heap == s.heap[..n] + [s.heap[n]];
        PopMendsAppend(c.at, s.heap[..n], s.heap[n]);
      }
    }
  }

  lemma PutBackKeepsOrder(c: Config, s: State)
    requires WellOrdered(c, s) && Enabled(c, s, PutBack)
    ensures WellOrdered(c, After(c, s, PutBack))
  {
    if s.hand.Both? {
      PushIsHeap(c.at, s.heap, s.hand.incoming);
      PushIsHeap(c.at, HeapPush(c.at, s.heap, s.hand.incoming), s.hand.task);
    } else {
      PlainAppendKeepsHeapIff(c.at, s.heap, s.hand.incoming);
      assert (s.heap + [s.hand.incoming])[..|s.heap|] == s.heap;
    }
  }

  lemma LockKeepsOrder(c: Config, s: State, t: nat)
    requires WellOrdered(c, s) && Enabled(c, s, Lock(t))
    ensures WellOrdered(c, After(c, s, Lock(t)))
  {
    PushIsHeap(c.at, s.heap, t);
  }

  lemma StepKeepsOrder(c: Config, s: State, step: Step)
    requires WellOrdered(c, s) && Enabled(c, s, step)
    ensures WellOrdered(c, After(c, s, step))
  {
    match step
    case Lock(t) => LockKeepsOrder(c, s, t);
    case Look => LookKeepsOrder(c, s);
    case PutBack => PutBackKeepsOrder(c, s);
    case _ => RestLeavesOrder(c, s, step);
  }

  lemma RestLeavesOrder(c: Config, s: State, step: Step)
    requires Enabled(c, s, step) && !IsHeapStep(step)
    ensures
      var s' := After(c, s, step);
      && s'.heap == s.heap && s'.order == s.order && (s.hand.Top? ==> s'.hand.Top?)
      && (s'.hand.Idle? || s'.hand.Got? ==> s.hand.Idle? || s.hand.Got?)
  {
  }

  ghost predicate Inv(c: Config, s: State) {
    Kept(s) && Due(c, s) && Counted(s) && (s.stopped || s.lost == multiset{}) && WellOrdered(c, s)
  }

  lemma StepKeepsInv(c: Config, s: State, step: Step)
    requires Inv(c, s) && Enabled(c, s, step)
    ensures Inv(c, After(c, s, step))
  {
    StepKeeps(c, s, step);
    StepKeepsDue(c, s, step);
    StepKeepsCount(c, s, step);
    StepKeepsOrder(c, s, step);
  }

  lemma {:induction false} RunKeeps(c: Config, run: seq<State>, steps: seq<Step>, n: nat)
    requires IsRun(c, run, steps) && n < |run|
    ensures Inv(c, run[n])
  {
    if n > 0 {
      RunKeeps(c, run, steps, n - 1);
      ChainAt(Next(c), run, steps, n - 1);
      StepKeepsInv(c, run[n - 1], steps[n - 1]);
    }
  }

  // ---------------------------------------------------------------------------------------------
  // What the queue promises

  /** How often t was started, read off the steps: a start takes what is first to be executed. */
  function StartsOf(run: seq<State>, steps: seq<Step>, n: nat, t: nat): nat
    requires n <= |steps| && n <= |run|
  {
    if n == 0 then 0
    else
      var m := n - 1;
      StartsOf(run, steps, m, t) +
      if steps[m].Start? && run[m].execute != [] && run[m].execute[0] == t then 1 else 0
  }

  /** A step of a pusher, whichever way it takes. */
  predicate IsPushOf(step: Step, t: nat) {
    step == Push(t, false) || step == Push(t, true)
  }

  ghost predicate WasPushed(steps: seq<Step>, n: nat, t: nat) {
    exists m :: 0 <= m < n && m < |steps| && IsPushOf(steps[m], t)
  }

  ghost predicate WasStopped(steps: seq<Step>, n: nat) {
    exists m :: 0 <= m < n && m < |steps| && steps[m].Stop?
  }

  lemma OneMoreRead(steps: seq<Step>, n: nat, t: nat)
    requires n < |steps|
    ensures WasPushed(steps, n + 1, t) <==> WasPushed(steps, n, t) || IsPushOf(steps[n], t)
    ensures WasStopped(steps, n + 1) <==> WasStopped(steps, n) || steps[n].Stop?
  {
  }

  lemma StepRecords(c: Config, s: State, step: Step)
    requires Enabled(c, s, step)
    ensures
      var s' := After(c, s, step);
      && s'.pushed == s.pushed + (if step.Push? then {step.task} else {})
      && s'.stopped == (s.stopped || step.Stop?)
      && s'.starts == s.starts + (if step.Start? then [(s.execute[0], s.now)] else [])
  {
    if IsHeapStep(step) {
      HeapStepLeaves(c, s, step);
    }
  }

  /** The records of the state after n steps say of t what the steps say. */
  ghost predicate IsRead(run: seq<State>, steps: seq<Step>, n: nat, t: nat)
    requires n < |run| && n <= |steps|
  {
    && (t in run[n].pushed <==> WasPushed(steps, n, t))
    && (run[n].stopped <==> WasStopped(steps, n))
    && Runs(run[n].starts, t) == StartsOf(run, steps, n, t)
  }

  ghost predicate ReadsOneMore(s: State, s': State, step: Step, t: nat) {
    && (t in s'.pushed <==> t in s.pushed || IsPushOf(step, t))
    && (s'.stopped <==> s.stopped || step.Stop?)
    && Runs(s'.starts, t) == Runs(s.starts, t) +
       if step.Start? && s.execute != [] && s.execute[0] == t then 1 else 0
  }

  lemma StaysRead(run: seq<State>, steps: seq<Step>, n: nat, t: nat)
    requires n + 1 < |run| && n < |steps|
    requires IsRead(run, steps, n, t) && ReadsOneMore(run[n], run[n + 1], steps[n], t)
    ensures IsRead(run, steps, n + 1, t)
  {
    OneMoreRead(steps, n, t);
  }

  lemma {:induction false} RunIsRead(c: Config, run: seq<State>, steps: seq<Step>, n: nat, t: nat)
    requires IsRun(c, run, steps) && n < |run|
    ensures IsRead(run, steps, n, t)
  {
    if n > 0 {
      RunIsRead(c, run, steps, n - 1, t);
      StepIsRead(c, run, steps, n - 1, t);
      StaysRead(run, steps, n - 1, t);
    }
  }

  lemma StepIsRead(c: Config, run: seq<State>, steps: seq<Step>, n: nat, t: nat)
    requires IsRun(c, run, steps) && n < |steps|
    ensures ReadsOneMore(run[n], run[n + 1], steps[n], t)
  {
    ChainAt(Next(c), run, steps, n);
    StepRecords(c, run[n], steps[n]);
    RecordsOneMore(run[n], run[n + 1], steps[n], t);
  }

  lemma RecordsOneMore(s: State, s': State, step: Step, t: nat)
    requires s'.pushed == s.pushed + (if step.Push? then {step.task} else {})
    requires step.Start? ==> s.execute != []
    requires s'.starts == s.starts + (if step.Start? then [(s.execute[0], s.now)] else [])
    ensures t in s'.pushed <==> t in s.pushed || IsPushOf(step, t)
    ensures Runs(s'.starts, t) == Runs(s.starts, t) + if step.Start? && s.execute[0] == t then 1 else 0
  {
    if step.Start? {
      assert s'.starts[..|s'.starts| - 1] == s.starts;
    } else {
      assert s'.starts == s.starts;
    }
  }

  /**
   * In every run: each task pushed is in exactly one place, and none is lost before the stop
   * signal; no task starts before its time; a task starts at most once more than the retries
   * allowed, one that is given up exactly that often, and one that is done at least once.
   */
  lemma DelayPromises(c: Config, run: seq<State>, steps: seq<Step>, n: nat, t: nat)
    requires IsRun(c, run, steps) && n < |run|
    ensures
      var s := run[n];
      && Places(s, t) == (if WasPushed(steps, n, t) then 1 else 0)
      && (!WasStopped(steps, n) ==> s.lost == multiset{})
      && (n < |steps| && steps[n].Start? ==> s.execute != [] && c.at(s.execute[0]) <= s.now)
      && StartsOf(run, steps, n, t) <= MAX_TASK_RETRY + 1
      && (t in s.dropped ==> StartsOf(run, steps, n, t) == MAX_TASK_RETRY + 1)
      && (t in s.done ==> StartsOf(run, steps, n, t) > 0)
  {
    RunKeeps(c, run, steps, n);
    RunIsRead(c, run, steps, n, t);
    CountsHold(c, run[n], t);
    if n < |steps| && steps[n].Start? {
      StartIsDue(c, run, steps, n);
    }
  }

  lemma CountsHold(c: Config, s: State, t: nat)
    requires Inv(c, s)
    ensures Places(s, t) == (if t in s.pushed then 1 else 0) && (!s.stopped ==> s.lost == multiset{})
    ensures Runs(s.starts, t) <= MAX_TASK_RETRY + 1
    ensures t in s.dropped ==> Runs(s.starts, t) == MAX_TASK_RETRY + 1
    ensures t in s.done ==> Runs(s.starts, t) > 0
  {
    assert CountedOne(s, t) && Places(s, t) <= 1;
  }

  lemma StartIsDue(c: Config, run: seq<State>, steps: seq<Step>, n: nat)
    requires IsRun(c, run, steps) && n < |steps| && steps[n].Start?
    ensures run[n].execute != [] && c.at(run[n].execute[0]) <= run[n].now
  {
    RunKeeps(c, run, steps, n);
    ChainAt(Next(c), run, steps, n);
  }

  /**
   * In every run, the append without sifting meets a heap; and unless a pusher came in between that
   * append and the look, the task the dispatcher takes up is the soonest in the heap if and only if
   * none was appended out of place, or the head runs no later than the one appended. It then leaves
   * a heap behind.
   */
  lemma SoonestFirstIff(c: Config, run: seq<State>, steps: seq<Step>, n: nat)
    requires IsRun(c, run, steps) && n < |run|
    ensures run[n].hand.Got? ==> IsHeap(c.at, run[n].heap)
    ensures
      var s := run[n];
      s.hand.Top? && s.heap != [] && !s.order.Mixed? ==>
        var s' := After(c, s, Look);
        && s'.hand.Holding? && IsHeap(c.at, s'.heap)
        && (IsSoonest(c.at, s'.hand.task, s.heap) <==>
              s.order.Sifted? || c.at(s.heap[0]) <= c.at(s.heap[|s.heap| - 1]))
  {
    RunKeeps(c, run, steps, n);
    var s := run[n];
    if s.hand.Top? && s.heap != [] && !s.order.Mixed? {
      LookKeepsOrder(c, s);
      LookTakesSoonestIff(c, s);
    }
  }

  lemma LookTakesSoonestIff(c: Config, s: State)
    requires WellOrdered(c, s) && s.heap != [] && !s.order.Mixed?
    ensures IsSoonest(c.at, s.heap[0], s.heap) <==>
              s.order.Sifted? || c.at(s.heap[0]) <= c.at(s.heap[|s.heap| - 1])
  {
    if s.order.Sifted? {
      forall i | 0 <= i < |s.heap| ensures c.at(s.heap[0]) <= c.at(s.heap[i]) {
        HeadIsFirst(c.at, s.heap, i);
      }
    } else {
      var m := |s.heap| - 1;
      assert s.heap == s.heap[..m] + [s.heap[m]];
      PlainAppendKeepsHeadIff(c.at, s.heap[..m], s.heap[m]);
    }
  }

  // ---------------------------------------------------------------------------------------------
  // The append that does not sift

  function LateAt(t: nat): int {
    if t == 0 then 5 else 10
  }

  const LATE := Config(LateAt, 1, 1)
  const L0 := New(0)
  const L1 := L0.(hand := Idle)
  const L2 := L1.(pushed := {0}, buffer := [0])
  const L3 := L2.(pushed := {0, 1}, direct := multiset{1})
  const L4 := L3.(hand := Got(0), buffer := [])
  const L5 := L4.(direct := multiset{}, heap := [1])
  const L6 := L5.(hand := Top, heap := [1, 0], order := Appended)
  const L7 := L6.(hand := Holding(1), heap := [0], order := Sifted)
  const L8 := L7.(hand := Waiting(1))
  const L9 := L8.(now := 5)

  lemma RunMoves(c: Config, run: seq<State>, steps: seq<Step>, step: Step, s': State)
    returns (run': seq<State>, steps': seq<Step>)
    requires IsRun(c, run, steps) && Enabled(c, run[|steps|], step) && After(c, run[|steps|], step) == s'
    ensures IsRun(c, run', steps') && run'[|steps'|] == s'
  {
    run', steps' := ChainMoves(Next(c), run, steps, step, s');
  }

  lemma LateStart() returns (run: seq<State>, steps: seq<Step>)
    ensures IsRun(LATE, run, steps) && run[|steps|] == L4
  {
    run, steps := [L0], [];
    assert L3.pushed == L2.pushed + {1};
    run, steps := RunMoves(LATE, run, steps, Look, L1);
    run, steps := RunMoves(LATE, run, steps, Push(0, false), L2);
    run, steps := RunMoves(LATE, run, steps, Push(1, true), L3);
    run, steps := RunMoves(LATE, run, steps, Receive, L4);
  }

  lemma LateEnd(before: seq<State>, start: seq<Step>) returns (run: seq<State>, steps: seq<Step>)
    requires IsRun(LATE, before, start) && before[|start|] == L4
    ensures IsRun(LATE, run, steps) && run[|steps|] == L9
  {
    assert HeapPush(LateAt, [], 1) == [1];
    assert HeapPop(LateAt, [1, 0]) == [0];
    assert multiset{1} - multiset{1} == multiset{};
    run, steps := RunMoves(LATE, before, start, Lock(1), L5);
    run, steps := RunMoves(LATE, run, steps, PutBack, L6);
    run, steps := RunMoves(LATE, run, steps, Look, L7);
    run, steps := RunMoves(LATE, run, steps, Check, L8);
    run, steps := RunMoves(LATE, run, steps, Tick(5), L9);
  }

  /**
   * A pusher that found the buffer full reaches the heap between the dispatcher's receive and its
   * append: the task due at 5 then lies behind the one due at 10, and at time 5 the dispatcher
   * waits for the later one.
   */
  lemma LateTaskIsReachable() returns (run: seq<State>, steps: seq<Step>)
    ensures IsRun(LATE, run, steps)
    ensures
      var s := run[|steps|];
      s.now == LateAt(0) < LateAt(1) && s.hand == Waiting(1) && s.heap == [0]
  {
    run, steps := LateStart();
    run, steps := LateEnd(run, steps);
  }
}
