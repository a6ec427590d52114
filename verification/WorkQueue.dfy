/** The work queue: many pushers, one worker, and a mark that tells when the first tasks are done. */
module WorkQueue {
  import opened Options
  import opened Sequences

  /** The mark is the task Run pushes to learn that everything before it has been processed. */
  datatype Task = User(id: nat) | SyncMark

  /**
   * accepted lists every task the queue took, oldest first; a task is known by its place there.
   * before is how many were accepted before Run was called; the stop
   * signal may come between that and the push of the mark. retries are failed tasks whose timer
   * has not fired yet.
   */
  datatype Queue = Queue(
    tasks: seq<nat>,
    closing: bool,
    synced: bool,
    accepted: seq<Task>,
    started: seq<nat>,
    running: Option<nat>,
    executed: set<nat>,
    retries: multiset<Task>,
    before: Option<nat>,
    looping: bool,
    closed: bool)

  const NEW := Queue([], false, false, [], [], None, {}, multiset{}, None, false, false)

  function Pushed(q: Queue, t: Task): Queue {
    if q.closing then q else q.(tasks := q.tasks + [|q.accepted|], accepted := q.accepted + [t])
  }

  datatype Step =
    | Push(id: nat)
    | Run
    | PushMark
    | Get
    | Finish(ok: bool)
    | RetryFires(task: Task)
    | StopSignal
    | Exit

  predicate Enabled(q: Queue, step: Step) {
    match step
    case Push(_) => true
    case Run => q.before.None?
    case PushMark => q.before.Some? && !q.looping
    case Get => q.looping && !q.closed && q.running.None? && q.tasks != []
    case Finish(ok) =>
      q.running.Some? && q.running.value < |q.accepted| && (q.accepted[q.running.value].SyncMark? ==> ok)
    case RetryFires(t) => t in q.retries
    case StopSignal => q.before.Some?
    case Exit => q.looping && !q.closed && q.running.None? && q.tasks == [] && q.closing
  }

  function After(q: Queue, step: Step): Queue
    requires Enabled(q, step)
  {
    match step
    case Push(id) => Pushed(q, User(id))
    case Run => q.(before := Some(|q.accepted|))
    case PushMark => Pushed(q.(looping := true), SyncMark)
    case Get => q.(tasks := q.tasks[1..], running := Some(q.tasks[0]), started := q.started + [q.tasks[0]])
    case Finish(ok) =>
      var t := q.accepted[q.running.value];
      q.(running := None, executed := q.executed + {q.running.value},
         synced := q.synced || t.SyncMark?,
         retries := if ok then q.retries else q.retries + multiset{t})
    case RetryFires(t) => Pushed(q.(retries := q.retries - multiset{t}), t)
    case StopSignal => q.(closing := true)
    case Exit => q.(closed := true)
  }

  function RunOf(steps: seq<Step>): Option<Queue> {
    if steps == [] then Some(NEW)
    else
      match RunOf(steps[..|steps| - 1])
      case None => None
      case Some(q) => if Enabled(q, steps[|steps| - 1]) then Some(After(q, steps[|steps| - 1])) else None
  }

  ghost predicate Inv(q: Queue) {
    && IsRange(q.started + q.tasks, |q.accepted|)
    && (q.running.Some? ==> q.started != [] && q.running.value == |q.started| - 1)
    && q.executed == (set i | 0 <= i < |q.started| && q.running != Some(i))
    && (q.before.None? ==> q.started == [] && !q.synced && !q.closing && !q.closed && !q.looping)
    && (q.before.Some? ==>
          && q.before.value <= |q.accepted|
          && forall i :: 0 <= i < |q.accepted| && q.accepted[i].SyncMark? ==> q.before.value <= i)
    && (q.before.None? ==> forall i :: 0 <= i < |q.accepted| ==> !q.accepted[i].SyncMark?)
    && (SyncMark !in q.retries)
    && (q.synced <==> exists i :: i in q.executed && i < |q.accepted| && q.accepted[i].SyncMark?)
    && (q.closed ==> q.closing && q.tasks == [] && q.running.None?)
  }

  lemma PushKeeps(q: Queue, t: Task)
    requires Inv(q) && (t.SyncMark? ==> q.before.Some?)
    ensures Inv(Pushed(q, t))
  {
    var q' := Pushed(q, t);
    if !q.closing {
      assert q'.started + q'.tasks == q.started + q.tasks + [|q.accepted|];
      if q.synced {
        var i :| i in q.executed && i < |q.accepted| && q.accepted[i].SyncMark?;
        assert i in q'.executed && q'.accepted[i].SyncMark?;
      }
    }
  }

  lemma GetKeeps(q: Queue)
    requires Inv(q) && Enabled(q, Get)
    ensures Inv(After(q, Get))
  {
    var q' := After(q, Get);
    assert q.tasks == [q.tasks[0]] + q.tasks[1..];
    assert q'.started + q'.tasks == q.started + q.tasks;
    assert (q.started + q.tasks)[|q.started|] == |q.started|;
    assert q'.executed == set i | 0 <= i < |q'.started| && q'.running != Some(i);
  }

  lemma FinishKeeps(q: Queue, ok: bool)
    requires Inv(q) && Enabled(q, Finish(ok))
    ensures Inv(After(q, Finish(ok)))
  {
    var q' := After(q, Finish(ok));
    assert q'.executed == set i | 0 <= i < |q'.started| && q'.running != Some(i);
    if q.synced {
      var i :| i in q.executed && i < |q.accepted| && q.accepted[i].SyncMark?;
      assert i in q'.executed && q'.accepted[i].SyncMark?;
    } else if q'.synced {
      assert q.running.value in q'.executed;
    }
  }

  lemma StepKeeps(q: Queue, step: Step)
    requires Inv(q) && Enabled(q, step)
    ensures Inv(After(q, step))
  {
    match step
    case Push(id) => PushKeeps(q, User(id));
    case PushMark => PushKeeps(q.(looping := true), SyncMark);
    case RetryFires(t) => PushKeeps(q.(retries := q.retries - multiset{t}), t);
    case Get => GetKeeps(q);
    case Finish(ok) => FinishKeeps(q, ok);
    case _ =>
  }

  lemma {:induction false} RunKeeps(steps: seq<Step>)
    requires RunOf(steps).Some?
    ensures Inv(RunOf(steps).value)
  {
    if steps != [] {
      RunKeeps(steps[..|steps| - 1]);
      StepKeeps(RunOf(steps[..|steps| - 1]).value, steps[|steps| - 1]);
    }
  }

  // ---------------------------------------------------------------------------------------------
  // The account of a run, read off its steps

  /** The task a step hands to the queue. */
  function Offered(step: Step): Option<Task> {
    match step
    case Push(id) => Some(User(id))
    case PushMark => Some(SyncMark)
    case RetryFires(t) => Some(t)
    case _ => None
  }

  /** The tasks handed to the queue before the stop signal, in order. */
  function Taken(steps: seq<Step>): seq<Task> {
    if steps == [] then []
    else
      var init, offered := steps[..|steps| - 1], Offered(steps[|steps| - 1]);
      Taken(init) + if offered.Some? && StopSignal !in init then [offered.value] else []
  }

  function Gets(steps: seq<Step>): nat {
    if steps == [] then 0 else Gets(steps[..|steps| - 1]) + if steps[|steps| - 1].Get? then 1 else 0
  }

  /** Failed tasks that are still to be pushed again; the task that fails is the one got last. */
  function Waiting(steps: seq<Step>): multiset<Task> {
    if steps == [] then multiset{}
    else
      var init, e := steps[..|steps| - 1], steps[|steps| - 1];
      if e == Finish(false) && 0 < Gets(init) <= |Taken(init)| then
        Waiting(init) + multiset{Taken(init)[Gets(init) - 1]}
      else if e.RetryFires? then Waiting(init) - multiset{e.task}
      else Waiting(init)
  }

  ghost predicate Accounts(steps: seq<Step>, q: Queue) {
    && q.accepted == Taken(steps) && |q.started| == Gets(steps) && q.retries == Waiting(steps)
    && (q.closing <==> StopSignal in steps) && (q.before.Some? <==> Run in steps)
    && (q.closed <==> Exit in steps)
  }

  lemma OneMoreStep(steps: seq<Step>, step: Step)
    ensures
      var all, offered := steps + [step], Offered(step);
      && Taken(all) == Taken(steps) + (if offered.Some? && StopSignal !in steps then [offered.value] else [])
      && Gets(all) == Gets(steps) + (if step.Get? then 1 else 0)
      && Waiting(all) ==
           (if step == Finish(false) && 0 < Gets(steps) <= |Taken(steps)|
            then Waiting(steps) + multiset{Taken(steps)[Gets(steps) - 1]}
            else if step.RetryFires? then Waiting(steps) - multiset{step.task}
            else Waiting(steps))
  {
    var all := steps + [step];
    assert all[..|all| - 1] == steps;
  }

  lemma FinishAccounts(steps: seq<Step>, q: Queue, ok: bool)
    requires Inv(q) && Enabled(q, Finish(ok)) && Accounts(steps, q)
    ensures Accounts(steps + [Finish(ok)], After(q, Finish(ok)))
  {
    OneMoreStep(steps, Finish(ok));
  }

  lemma PushAccounts(steps: seq<Step>, q: Queue, step: Step)
    requires Enabled(q, step) && Offered(step).Some? && Accounts(steps, q)
    ensures Accounts(steps + [step], After(q, step))
  {
    OneMoreStep(steps, step);
  }

  lemma StepAccounts(steps: seq<Step>, q: Queue, step: Step)
    requires Inv(q) && Enabled(q, step) && Accounts(steps, q)
    ensures Accounts(steps + [step], After(q, step))
  {
    match step
    case Finish(ok) => FinishAccounts(steps, q, ok);
    case Get => OneMoreStep(steps, step);
    case Run => OneMoreStep(steps, step);
    case StopSignal => OneMoreStep(steps, step);
    case Exit => OneMoreStep(steps, step);
    case _ => PushAccounts(steps, q, step);
  }

  /** The queue takes exactly what it is handed before the stop signal, and remembers exactly what failed. */
  lemma {:induction false} RunAccounts(steps: seq<Step>)
    requires RunOf(steps).Some?
    ensures Accounts(steps, RunOf(steps).value)
  {
    if steps != [] {
      var init, e := steps[..|steps| - 1], steps[|steps| - 1];
      assert steps == init + [e];
      RunAccounts(init);
      RunKeeps(init);
      StepAccounts(init, RunOf(init).value, e);
    }
  }

  lemma {:induction false} TakenBefore(steps: seq<Step>, m: nat)
    requires m < |steps| && Offered(steps[m]).Some? && StopSignal !in steps[..m]
    ensures
      var n := |Taken(steps[..m])|;
      n < |Taken(steps)| && Taken(steps)[n] == Offered(steps[m]).value
    ensures |Taken(steps[..m + 1])| == |Taken(steps[..m])| + 1
    decreases |steps|
  {
    var init := steps[..|steps| - 1];
    assert steps[..m + 1][..m] == steps[..m];
    if m < |steps| - 1 {
      assert init[..m] == steps[..m];
      TakenBefore(init, m);
    } else {
      assert init == steps[..m];
    }
  }

  lemma {:induction false} TakenGrows(steps: seq<Step>, m: nat)
    requires m <= |steps|
    ensures Taken(steps[..m]) <= Taken(steps)
    decreases |steps|
  {
    if m < |steps| {
      var init := steps[..|steps| - 1];
      TakenGrows(init, m);
      assert init[..m] == steps[..m];
    } else {
      assert steps[..m] == steps;
    }
  }

  /** Run was called after r steps: what it found accepted is what had been taken by then. */
  lemma {:induction false} BeforeIsTaken(steps: seq<Step>, r: nat)
    requires RunOf(steps).Some? && r < |steps| && steps[r] == Run
    ensures RunOf(steps).value.before == Some(|Taken(steps[..r])|)
    decreases |steps|
  {
    var init, e := steps[..|steps| - 1], steps[|steps| - 1];
    if r < |steps| - 1 {
      assert init[..r] == steps[..r];
      BeforeIsTaken(init, r);
    } else {
      assert init == steps[..r];
      RunAccounts(init);
    }
  }

  lemma {:induction false} NoStopBeforeRun(steps: seq<Step>, r: nat)
    requires RunOf(steps).Some? && r < |steps| && steps[r] == Run
    ensures StopSignal !in steps[..r]
    decreases |steps|
  {
    var init := steps[..|steps| - 1];
    if r < |steps| - 1 {
      assert init[..r] == steps[..r];
      NoStopBeforeRun(init, r);
    } else {
      assert init == steps[..r];
      RunKeeps(init);
      RunAccounts(init);
    }
  }

  /**
   * In every interleaving of pushers, timers, the stop signal and the worker: tasks start in the
   * order in which they were handed over, once each; the queue reports synced only when every task
   * pushed before Run has been executed; it reports closed only when everything handed over before
   * the stop signal has been. A task is known by its place in Taken(steps).
   */
  lemma QueuePromises(steps: seq<Step>)
    requires RunOf(steps).Some?
    ensures
      var q := RunOf(steps).value;
      && IsRange(q.started, Gets(steps)) && q.accepted == Taken(steps) && q.retries == Waiting(steps)
      && (q.synced <==> exists i :: i in q.executed && i < |Taken(steps)| && Taken(steps)[i].SyncMark?)
      && (q.synced ==>
            Run in steps && forall m, r :: 0 <= m < r < |steps| && steps[m].Push? && steps[r] == Run ==>
              && |Taken(steps[..m])| < |Taken(steps)| && Taken(steps)[|Taken(steps[..m])|] == User(steps[m].id)
              && |Taken(steps[..m])| in q.executed)
      && (Exit in steps ==> q.closed && forall i :: 0 <= i < |Taken(steps)| ==> i in q.executed)
      && (q.closed ==> Exit in steps)
      && q.executed == set i | 0 <= i < Gets(steps) && q.running != Some(i)
  {
    RunKeeps(steps);
    RunAccounts(steps);
    var q := RunOf(steps).value;
    assert forall i :: 0 <= i < |q.started| ==> (q.started + q.tasks)[i] == q.started[i];
    if q.synced {
      var m :| m in q.executed && m < |q.accepted| && q.accepted[m].SyncMark?;
      assert q.before.value <= m;
      forall m, r | 0 <= m < r < |steps| && steps[m].Push? && steps[r] == Run
        ensures |Taken(steps[..m])| < |Taken(steps)| && Taken(steps)[|Taken(steps[..m])|] == User(steps[m].id)
        ensures |Taken(steps[..m])| in q.executed
      {
        PushedIsExecuted(steps, q, m, r);
      }
    }
  }

  lemma PushedIsExecuted(steps: seq<Step>, q: Queue, m: nat, r: nat)
    requires RunOf(steps) == Some(q) && m < r < |steps| && steps[m].Push? && steps[r] == Run
    requires q.before.Some? && forall i :: 0 <= i < q.before.value ==> i in q.executed
    ensures |Taken(steps[..m])| < |Taken(steps)| && Taken(steps)[|Taken(steps[..m])|] == User(steps[m].id)
    ensures |Taken(steps[..m])| in q.executed
  {
    NoStopBeforeRun(steps, r);
    BeforeIsTaken(steps, r);
    assert forall s :: s in steps[..m] ==> s in steps[..r];
    TakenBefore(steps, m);
    assert steps[..r][..m + 1] == steps[..m + 1];
    TakenGrows(steps[..r], m + 1);
  }

  /** The queue as an object. The condition the worker waits for is what Get requires. */
  class QueueImpl {
    var tasks: seq<(nat, Task)>
    var closing: bool
    var initialSync: bool
    var taken: nat
    ghost var past: Queue

    /** The fields agree with the account of the run so far. */
    ghost predicate Valid()
      reads this
    {
      && Inv(past) && closing == past.closing && initialSync == past.synced && taken == |past.accepted|
      && |tasks| == |past.tasks|
      && forall n :: 0 <= n < |tasks| ==>
           past.tasks[n] == tasks[n].0 && tasks[n].0 < |past.accepted| && past.accepted[tasks[n].0] == tasks[n].1
    }

    constructor ()
      ensures Valid() && past == NEW
    {
      tasks, closing, initialSync, taken, past := [], false, false, 0, NEW;
    }

    method Push(id: nat)
      requires Valid()
      modifies this
      ensures Valid() && past == After(old(past), Step.Push(id))
      ensures tasks == if closing then old(tasks) else old(tasks) + [(old(taken), User(id))]
      ensures closing == old(closing) && initialSync == old(initialSync)
    {
      StepKeeps(past, Step.Push(id));
      if !closing {
        tasks := tasks + [(taken, User(id))];
        taken := taken + 1;
      }
      past := After(past, Step.Push(id));
    }

    /** The oldest task, or None once the queue is closing and empty; then the worker is done. */
    method Get() returns (task: Option<Task>)
      requires Valid() && past.looping && !past.closed && past.running.None? && (tasks != [] || closing)
      modifies this
      ensures Valid()
      ensures
        if old(tasks) == [] then task.None? && past == After(old(past), Step.Exit)
        else
          && past == After(old(past), Step.Get)
          && past.running.Some? && past.running.value < |past.accepted|
          && task == Some(past.accepted[past.running.value])
    {
      if tasks == [] {
        StepKeeps(past, Step.Exit);
        past := After(past, Step.Exit);
        return None;
      }
      StepKeeps(past, Step.Get);
      task := Some(tasks[0].1);
      tasks := tasks[1..];
      past := After(past, Step.Get);
    }

    /** The worker has run the task it holds; a failed one will be pushed again later. */
    method Finish(task: Task, ok: bool)
      requires Valid() && Enabled(past, Step.Finish(ok)) && task == past.accepted[past.running.value]
      modifies this
      ensures Valid() && past == After(old(past), Step.Finish(ok))
      ensures tasks == old(tasks) && closing == old(closing)
      ensures initialSync <==> old(initialSync) || task == SyncMark
      ensures past.retries == if ok then old(past.retries) else old(past.retries) + multiset{task}
    {
      StepKeeps(past, Step.Finish(ok));
      if task == SyncMark {
        initialSync := true;
      }
      past := After(past, Step.Finish(ok));
    }
  }
}
