/** Sequences of positions. */
module Sequences {

  /** s is 0, 1, 2 and so on up to n. */
  ghost predicate IsRange(s: seq<nat>, n: nat) {
    |s| == n && forall i :: 0 <= i < n ==> s[i] == i
  }

  /** Each step leads from one state to the next. */
  ghost predicate IsChain<S, A>(next: (S, A, S) -> bool, states: seq<S>, steps: seq<A>) {
    |states| == |steps| + 1 &&
    forall n {:trigger steps[n]} :: 0 <= n < |steps| ==> next(states[n], steps[n], states[n + 1])
  }

  lemma ChainExtends<S, A>(next: (S, A, S) -> bool, states: seq<S>, steps: seq<A>, step: A, s': S)
    requires IsChain(next, states, steps) && next(states[|steps|], step, s')
    ensures IsChain(next, states + [s'], steps + [step])
  {
    var all, more := states + [s'], steps + [step];
    forall n | 0 <= n < |more| ensures next(all[n], more[n], all[n + 1]) {
      if n < |steps| {
        assert all[n] == states[n] && all[n + 1] == states[n + 1] && more[n] == steps[n];
      }
    }
  }

  /** One more step, and where the chain then ends. */
  lemma ChainMoves<S, A>(next: (S, A, S) -> bool, states: seq<S>, steps: seq<A>, step: A, s': S)
    returns (states': seq<S>, steps': seq<A>)
    requires IsChain(next, states, steps) && next(states[|steps|], step, s')
    ensures IsChain(next, states', steps') && states'[0] == states[0] && states'[|steps'|] == s'
  {
    ChainExtends(next, states, steps, step, s');
    states', steps' := states + [s'], steps + [step];
  }

  lemma ChainAt<S, A>(next: (S, A, S) -> bool, states: seq<S>, steps: seq<A>, n: nat)
    requires IsChain(next, states, steps) && n < |steps|
    ensures next(states[n], steps[n], states[n + 1])
  {
  }
}
