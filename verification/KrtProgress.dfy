/** Left alone, a derived collection comes to rest: its own steps cannot go on forever. */
module KrtProgress {
  import opened Sequences
  import opened KrtTypes
  import opened KrtSystem
  import opened KrtAccount
  import opened KrtConvergence
  import opened KrtSync

  /** How far a transformation is from returning, given the results of its fetches so far. */
  type Distance = (Obj, seq<map<Key, Obj>>) -> nat

  /** Every fetch brings a transformation closer to its return, whatever the fetch gives. */
  ghost predicate Terminates(cfg: Config, dist: Distance) {
    forall i, rs, r :: cfg.next(i, rs).Fetch? ==> dist(i, rs + [r]) < dist(i, rs)
  }

  /** What is left to do, most significant first. */
  datatype Rank = Rank(
    unstarted: nat, flight: nat, queue: nat, stage: nat, items: nat, ready: nat, fetches: nat, part: nat, keys: nat)
  {
    predicate Above(o: Rank) {
      if unstarted != o.unstarted then unstarted > o.unstarted
      else if flight != o.flight then flight > o.flight
      else if queue != o.queue then queue > o.queue
      else if stage != o.stage then stage > o.stage
      else if items != o.items then items > o.items
      else if ready != o.ready then ready > o.ready
      else if fetches != o.fetches then fetches > o.fetches
      else if part != o.part then part > o.part
      else keys > o.keys
    }
  }

  function Left(a: nat, b: nat): nat {
    if a >= b then a - b else 0
  }

  /** The part of the rank that tells how far the running transformation is. */
  ghost function CurRank(cfg: Config, dist: Distance, registered: set<Uid>, e: Event, cur: Cur): (nat, nat, nat, nat) {
    if !e.Valid() then (0, 0, 0, 0)
    else
      match cur
      case Ready => (1, 0, 0, 0)
      case Running(tr) =>
        var next := cfg.next(e.Latest(), Results(tr));
        (0, dist(e.Latest(), Results(tr)), if next.Fetch? && next.dep.id !in registered then 2 else 1, 0)
      case Fetching(tr, _, left, _) => (0, dist(e.Latest(), Results(tr)), 0, |left|)
  }

  ghost function RankOf(cfg: Config, dist: Distance, s: Sys): Rank {
    var unstarted := if s.sync.started then 0 else 1;
    match s.phase
    case Idle => Rank(unstarted, |s.flight|, |s.queue|, 0, 0, 0, 0, 0, 0)
    case Refresh(_, todo) => Rank(unstarted, |s.flight|, |s.queue|, 2, |todo|, 0, 0, 0, 0)
    case Gather(keys, _) => Rank(unstarted, |s.flight|, |s.queue|, 2, |keys|, 0, 0, 0, 0)
    case Compute(items, comps, cur) =>
      var n := Left(|items|, |comps|);
      if n == 0 then Rank(unstarted, |s.flight|, |s.queue|, 1, 0, 0, 0, 0, 0)
      else
        var r := CurRank(cfg, dist, s.registered, items[|comps|], cur);
        Rank(unstarted, |s.flight|, |s.queue|, 1, n, r.0, r.1, r.2, r.3)
  }

  predicate IsQueueStep(step: Step) {
    step.Deliver? || step.StartQueue? || step.Pop?
  }

  predicate IsReadingStep(step: Step) {
    step.RefreshOne? || step.GatherOne? || step.EndReading? || step.Commit?
  }

  lemma QueueStepDescends(cfg: Config, dist: Distance, s: Sys, step: Step)
    requires Enabled(cfg, s, step) && IsQueueStep(step)
    ensures RankOf(cfg, dist, s).Above(RankOf(cfg, dist, After(cfg, s, step)))
  {
  }

  lemma ReadingStepDescends(cfg: Config, dist: Distance, s: Sys, step: Step)
    requires Enabled(cfg, s, step) && IsReadingStep(step)
    ensures RankOf(cfg, dist, s).Above(RankOf(cfg, dist, After(cfg, s, step)))
  {
    if step.Commit? {
      CommitDescends(cfg, dist, s, step.events);
    } else if step.EndReading? {
      EndReadingDescends(cfg, dist, s);
    }
  }

  lemma CommitDescends(cfg: Config, dist: Distance, s: Sys, events: seq<Event>)
    requires Enabled(cfg, s, Commit(events))
    ensures RankOf(cfg, dist, s).Above(RankOf(cfg, dist, After(cfg, s, Commit(events))))
  {
  }

  lemma EndReadingDescends(cfg: Config, dist: Distance, s: Sys)
    requires Enabled(cfg, s, EndReading)
    ensures RankOf(cfg, dist, s).Above(RankOf(cfg, dist, After(cfg, s, EndReading)))
  {
  }

  lemma ItemStepDescends(cfg: Config, dist: Distance, s: Sys, step: Step)
    requires GoodPhase(cfg, s) && Enabled(cfg, s, step) && (step.SkipDelete? || step.Begin? || step.Finish?)
    ensures RankOf(cfg, dist, s).Above(RankOf(cfg, dist, After(cfg, s, step)))
  {
    assert GoodCur(cfg, s, Item(s.phase), s.phase.cur);
  }

  lemma ResultsSnoc(tr: seq<Read>, r: Read)
    ensures Results(tr + [r]) == Results(tr) + [r.res]
  {
  }

  lemma FetchStepDescends(cfg: Config, dist: Distance, s: Sys, step: Step)
    requires Terminates(cfg, dist) && GoodPhase(cfg, s) && Enabled(cfg, s, step)
    requires step.Register? || step.ReadAll? || step.BeginKeys? || step.ReadKey? || step.EndKeys?
    ensures RankOf(cfg, dist, s).Above(RankOf(cfg, dist, After(cfg, s, step)))
  {
    var s' := After(cfg, s, step);
    assert GoodCur(cfg, s, Item(s.phase), s.phase.cur);
    if step.ReadAll? || step.EndKeys? {
      ResultsSnoc(s.phase.cur.tr, s'.phase.cur.tr[|s.phase.cur.tr|]);
    }
  }

  /** Every step of the machinery itself, by whatever schedule, lowers what is left to do. */
  lemma WorkerStepDescends(cfg: Config, dist: Distance, s: Sys, step: Step)
    requires Terminates(cfg, dist) && Inv(cfg, s) && Enabled(cfg, s, step) && IsWorkerStep(step)
    ensures RankOf(cfg, dist, s).Above(RankOf(cfg, dist, After(cfg, s, step)))
  {
    if IsQueueStep(step) {
      QueueStepDescends(cfg, dist, s, step);
    } else if IsReadingStep(step) {
      ReadingStepDescends(cfg, dist, s, step);
    } else if step.SkipDelete? || step.Begin? || step.Finish? {
      ItemStepDescends(cfg, dist, s, step);
    } else {
      FetchStepDescends(cfg, dist, s, step);
    }
  }

  lemma MovesOn(cfg: Config, dist: Distance, states: seq<Sys>, steps: seq<Step>) returns (step: Step, s': Sys)
    requires Good(cfg) && Terminates(cfg, dist) && IsBehavior(cfg, states, steps) && !Quiet(states[|steps|])
    ensures IsWorkerStep(step) && IsBehavior(cfg, states + [s'], steps + [step])
    ensures RankOf(cfg, dist, states[|steps|]).Above(RankOf(cfg, dist, s'))
    ensures s'.parent == states[|steps|].parent && s'.world == states[|steps|].world
  {
    var s := states[|steps|];
    step := NeverStuck(cfg, states, steps, |steps|);
    s' := After(cfg, s, step);
    BehaviorKeeps(cfg, states, steps, |steps|);
    WorkerStepDescends(cfg, dist, s, step);
    StepAccount(cfg, s, step);
    ChainExtends(Next(cfg), states, steps, step, s');
  }

  /** last is at rest and synced, with the inputs of s and the outputs of a transformation from scratch. */
  ghost predicate AtRest(cfg: Config, s: Sys, last: Sys) {
    && Quiet(last) && last.sync.synced && last.parent == s.parent && last.world == s.world
    && IsFromScratch(cfg, last.parent, last.world, last.c.outputs)
  }

  lemma {:induction false} SettlesFrom(cfg: Config, dist: Distance, states: seq<Sys>, steps: seq<Step>, r: Rank)
    returns (states': seq<Sys>, own: seq<Step>)
    requires Good(cfg) && Terminates(cfg, dist) && IsBehavior(cfg, states, steps)
    requires r == RankOf(cfg, dist, states[|steps|])
    ensures IsBehavior(cfg, states', steps + own) && states <= states'
    ensures forall n :: 0 <= n < |own| ==> IsWorkerStep(own[n])
    ensures AtRest(cfg, states[|steps|], states'[|steps + own|])
    decreases r.unstarted, r.flight, r.queue, r.stage, r.items, r.ready, r.fetches, r.part, r.keys
  {
    var s := states[|steps|];
    if Quiet(s) {
      states', own := states, [];
      assert steps + own == steps;
      Convergence(cfg, states, steps, |steps|);
      QuietMeansSynced(cfg, states, steps, |steps|);
    } else {
      var step, s' := MovesOn(cfg, dist, states, steps);
      var rest;
      states', rest := SettlesFrom(cfg, dist, states + [s'], steps + [step], RankOf(cfg, dist, s'));
      own := [step] + rest;
      assert steps + [step] + rest == steps + own;
      assert states <= states + [s'];
    }
  }

  /**
   * From every reachable state, when its inputs change no more, the collection comes to rest and
   * reports that it is synced; its outputs are then those of the transformation run from scratch on
   * the inputs as they were left.
   */
  lemma Settles(cfg: Config, dist: Distance, states: seq<Sys>, steps: seq<Step>)
    returns (states': seq<Sys>, own: seq<Step>)
    requires Good(cfg) && Terminates(cfg, dist) && IsBehavior(cfg, states, steps)
    ensures IsBehavior(cfg, states', steps + own) && states <= states'
    ensures forall n :: 0 <= n < |own| ==> IsWorkerStep(own[n])
    ensures AtRest(cfg, states[|steps|], states'[|steps + own|])
  {
    states', own := SettlesFrom(cfg, dist, states, steps, RankOf(cfg, dist, states[|steps|]));
  }
}
