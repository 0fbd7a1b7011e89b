/** Sequences of states in which each follows from the one before by a step on an input. */
module Chains {

  ghost predicate IsChain<S(!new), U(!new)>(step: (S, U, S) -> bool, states: seq<S>, inputs: seq<U>) {
    |states| == |inputs| + 1 && forall i :: 0 <= i < |inputs| ==> step(states[i], inputs[i], states[i + 1])
  }

  ghost predicate CanStep<S(!new), U(!new)>(step: (S, U, S) -> bool, kept: S -> bool, s: S, u: U) {
    kept(s) ==> exists s' :: step(s, u, s') && kept(s')
  }

  lemma ChainOneMore<S(!new), U(!new)>(step: (S, U, S) -> bool, before: seq<S>, inputs: seq<U>, next: S)
    requires inputs != [] && IsChain(step, before, inputs[..|inputs| - 1])
    requires step(before[|inputs| - 1], inputs[|inputs| - 1], next)
    ensures IsChain(step, before + [next], inputs)
  {
    var n, states := |inputs| - 1, before + [next];
    forall i | 0 <= i < |inputs|
      ensures step(states[i], inputs[i], states[i + 1])
    {
      assert i < n ==> step(before[i], inputs[..n][i], before[i + 1]);
    }
  }

  /** A relation with a next state for every kept state and input has a chain for every input sequence. */
  lemma {:induction false} ChainExists<S(!new), U(!new)>(step: (S, U, S) -> bool, kept: S -> bool, start: S,
                                                         inputs: seq<U>) returns (states: seq<S>)
    requires kept(start) && forall s, u :: CanStep(step, kept, s, u)
    ensures IsChain(step, states, inputs) && states[0] == start && kept(states[|inputs|])
    decreases |inputs|
  {
    if inputs == [] {
      states := [start];
    } else {
      var n := |inputs| - 1;
      var before := ChainExists(step, kept, start, inputs[..n]);
      assert CanStep(step, kept, before[n], inputs[n]);
      var next :| step(before[n], inputs[n], next) && kept(next);
      states := before + [next];
      ChainOneMore(step, before, inputs, next);
    }
  }
}
