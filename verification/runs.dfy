/** A left fold that can stop: a state is threaded through a sequence by a
    step that either yields the next state or fails, and the first failure
    is the result. The replay of the transaction log is one instance; the
    facts about where such a fold stops hold whatever the step does. */
module Runs {
  import opened Wrappers

  /** The state after every element of `xs`, or the first failure. */
  function Run<S, X, E>(step: (S, X) -> Result<S, E>, s: S, xs: seq<X>): Result<S, E>
    decreases |xs|
  {
    if |xs| == 0 then Success(s)
    else
      var b :- Run(step, s, xs[..|xs| - 1]);
      step(b, xs[|xs| - 1])
  }

  /** The fold stops at element `i` with `e`: the elements before it ran,
      and `i` itself failed. */
  ghost predicate StopsAt<S, X, E>(step: (S, X) -> Result<S, E>, s: S, xs: seq<X>, i: int, e: E) {
    0 <= i < |xs| && Run(step, s, xs[..i]).Success?
    && step(Run(step, s, xs[..i]).value, xs[i]) == Failure(e)
  }

  /** A non-empty sequence steps its last element from the state of the
      others, or keeps their failure. */
  lemma RunLast<S, X, E>(step: (S, X) -> Result<S, E>, s: S, xs: seq<X>)
    requires |xs| > 0
    ensures Run(step, s, xs) == if Run(step, s, xs[..|xs| - 1]).Success?
      then step(Run(step, s, xs[..|xs| - 1]).value, xs[|xs| - 1])
      else Failure(Run(step, s, xs[..|xs| - 1]).error)
  {
  }

  /** A failed fold has an element at which it stopped with its error,
      found by walking back from the end. */
  lemma {:induction false} StoppingRow<S, X, E>(step: (S, X) -> Result<S, E>, s: S, xs: seq<X>) returns (i: int)
    requires Run(step, s, xs).Failure?
    ensures StopsAt(step, s, xs, i, Run(step, s, xs).error)
    decreases |xs|
  {
    var init := xs[..|xs| - 1];
    RunLast(step, s, xs);
    if Run(step, s, init).Failure? {
      i := StoppingRow(step, s, init);
      assert init[..i] == xs[..i] && init[i] == xs[i];
    } else {
      i := |xs| - 1;
    }
  }
}
