/** What a behaviour of a collection is about, read off its steps: its inputs, and what its handlers were sent. */
module KrtAccount {
  import opened Sequences
  import opened KrtTypes
  import opened KrtSystem

  /** The parent's objects after some steps. */
  function ParentAfter(p: map<Key, Obj>, steps: seq<Step>): map<Key, Obj> {
    if steps == [] then p
    else
      match steps[|steps| - 1]
      case ParentChange(p', _) => p'
      case _ => ParentAfter(p, steps[..|steps| - 1])
  }

  /** The fetched collections after some steps. */
  function WorldAfter(w: World, steps: seq<Step>): World {
    if steps == [] then w
    else
      var before := WorldAfter(w, steps[..|steps| - 1]);
      match steps[|steps| - 1]
      case DepChange(id, c, _) => before[id := c]
      case _ => before
  }

  /** The events that commits among some steps sent. */
  function EventsSent(steps: seq<Step>): seq<Event> {
    if steps == [] then []
    else
      EventsSent(steps[..|steps| - 1]) +
      match steps[|steps| - 1]
      case Commit(events) => events
      case _ => []
  }

  /** A step of the worker, or of the way to it. */
  predicate IsInner(step: Step) {
    !step.ParentChange? && !step.DepChange? && !step.AddHandler? && !step.Commit?
  }

  predicate IsComputing(step: Step) {
    step.SkipDelete? || step.Begin? || step.Register? || step.ReadAll? || step.BeginKeys? || step.ReadKey? ||
    step.EndKeys? || step.Finish?
  }

  predicate SameAccount(s: Sys, s': Sys) {
    s'.parent == s.parent && s'.world == s.world && s'.handlers == s.handlers
  }

  lemma ComputingLeaves(cfg: Config, s: Sys, step: Step)
    requires Enabled(cfg, s, step) && IsComputing(step)
    ensures SameAccount(s, After(cfg, s, step))
  {
  }

  lemma ReadingLeaves(cfg: Config, s: Sys, step: Step)
    requires Enabled(cfg, s, step) && IsInner(step) && !IsComputing(step)
    ensures SameAccount(s, After(cfg, s, step))
  {
  }

  lemma CommitSends(cfg: Config, s: Sys, events: seq<Event>)
    requires Enabled(cfg, s, Commit(events))
    ensures
      var s' := After(cfg, s, Commit(events));
      s'.parent == s.parent && s'.world == s.world && s'.handlers == Hear(s.handlers, events)
  {
  }

  /** One step changes the inputs, and sends to the handlers, as it says. */
  lemma StepAccount(cfg: Config, s: Sys, step: Step)
    requires Enabled(cfg, s, step)
    ensures
      var s' := After(cfg, s, step);
      && s'.parent == (if step.ParentChange? then step.parent else s.parent)
      && s'.world == (if step.DepChange? then s.world[step.id := step.contents] else s.world)
      && (step.AddHandler? ==>
            step.h !in s.handlers && s'.handlers == s.handlers[step.h :=
              if step.runExistingState then Handler(map[], step.events) else Handler(s.c.outputs, [])])
      && (step.Commit? ==> s'.handlers == Hear(s.handlers, step.events))
      && (!step.AddHandler? && !step.Commit? ==> s'.handlers == s.handlers)
  {
    if step.Commit? {
      CommitSends(cfg, s, step.events);
    } else if IsInner(step) {
      if IsComputing(step) {
        ComputingLeaves(cfg, s, step);
      } else {
        ReadingLeaves(cfg, s, step);
      }
    }
  }

  lemma {:induction false} InputsAreRead(cfg: Config, states: seq<Sys>, steps: seq<Step>, n: nat)
    requires IsBehavior(cfg, states, steps) && n < |states|
    ensures states[n].parent == ParentAfter(states[0].parent, steps[..n])
    ensures states[n].world == WorldAfter(states[0].world, steps[..n])
  {
    if n > 0 {
      InputsAreRead(cfg, states, steps, n - 1);
      AccountAt(cfg, states, steps, n - 1);
      assert steps[..n][..n - 1] == steps[..n - 1];
    }
  }

  /** The handler that step m added, after step n: what it knew at first, and what it was sent since. */
  ghost function Known(states: seq<Sys>, steps: seq<Step>, m: nat): map<Key, Obj>
    requires m < |steps| && m < |states| && steps[m].AddHandler?
  {
    if steps[m].runExistingState then map[] else states[m].c.outputs
  }

  function Heard(steps: seq<Step>, m: nat, n: nat): seq<Event>
    requires m < n <= |steps| && steps[m].AddHandler?
  {
    (if steps[m].runExistingState then steps[m].events else []) + EventsSent(steps[m + 1..n])
  }

  lemma AccountAt(cfg: Config, states: seq<Sys>, steps: seq<Step>, n: nat)
    requires IsBehavior(cfg, states, steps) && n < |steps|
    ensures
      var s, s', step := states[n], states[n + 1], steps[n];
      && s'.parent == (if step.ParentChange? then step.parent else s.parent)
      && s'.world == (if step.DepChange? then s.world[step.id := step.contents] else s.world)
      && (step.AddHandler? ==>
            step.h !in s.handlers && s'.handlers == s.handlers[step.h :=
              if step.runExistingState then Handler(map[], step.events) else Handler(s.c.outputs, [])])
      && (step.Commit? ==> s'.handlers == Hear(s.handlers, step.events))
      && (!step.AddHandler? && !step.Commit? ==> s'.handlers == s.handlers)
  {
    ChainAt(Next(cfg), states, steps, n);
    StepAccount(cfg, states[n], steps[n]);
  }

  lemma EventsSentOneMore(steps: seq<Step>, m: nat, n: nat)
    requires m < n < |steps|
    ensures EventsSent(steps[m + 1..n + 1]) ==
            EventsSent(steps[m + 1..n]) + if steps[n].Commit? then steps[n].events else []
  {
    var all := steps[m + 1..n + 1];
    assert all[..|all| - 1] == steps[m + 1..n] && all[|all| - 1] == steps[n];
  }

  lemma {:induction false} HandlerIsRead(cfg: Config, states: seq<Sys>, steps: seq<Step>, m: nat, n: nat)
    requires IsBehavior(cfg, states, steps) && m < n < |states| && steps[m].AddHandler?
    ensures steps[m].h in states[n].handlers
    ensures states[n].handlers[steps[m].h] == Handler(Known(states, steps, m), Heard(steps, m, n))
  {
    if n == m + 1 {
      AccountAt(cfg, states, steps, m);
      assert steps[m + 1..n] == [];
    } else {
      HandlerIsRead(cfg, states, steps, m, n - 1);
      HandlerHears(cfg, states, steps, m, n - 1);
    }
  }

  lemma HandlerHears(cfg: Config, states: seq<Sys>, steps: seq<Step>, m: nat, n: nat)
    requires IsBehavior(cfg, states, steps) && m < n < |steps| && steps[m].AddHandler?
    requires steps[m].h in states[n].handlers
    requires states[n].handlers[steps[m].h].heard == Heard(steps, m, n)
    ensures steps[m].h in states[n + 1].handlers
    ensures states[n + 1].handlers[steps[m].h] ==
            Handler(states[n].handlers[steps[m].h].known, Heard(steps, m, n + 1))
  {
    AccountAt(cfg, states, steps, n);
    EventsSentOneMore(steps, m, n);
    HearOneMore(steps, m, n, states[n].handlers, states[n + 1].handlers);
  }

  lemma HearOneMore(
      steps: seq<Step>, m: nat, n: nat, handlers: map<nat, Handler>, handlers': map<nat, Handler>)
    requires m < n < |steps| && steps[m].AddHandler? && steps[m].h in handlers
    requires handlers[steps[m].h].heard == Heard(steps, m, n)
    requires EventsSent(steps[m + 1..n + 1]) ==
             EventsSent(steps[m + 1..n]) + if steps[n].Commit? then steps[n].events else []
    requires steps[n].AddHandler? ==> steps[m].h in handlers' && handlers'[steps[m].h] == handlers[steps[m].h]
    requires steps[n].Commit? ==> handlers' == Hear(handlers, steps[n].events)
    requires !steps[n].AddHandler? && !steps[n].Commit? ==> handlers' == handlers
    ensures steps[m].h in handlers'
    ensures handlers'[steps[m].h] == Handler(handlers[steps[m].h].known, Heard(steps, m, n + 1))
  {
  }
}
