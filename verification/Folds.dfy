/** A state threaded through a sequence of inputs, and the answers given on the way. */
module Folds {

  function Folded<S, I>(step: (S, I) -> S, s: S, xs: seq<I>): S {
    if xs == [] then s else step(Folded(step, s, xs[..|xs| - 1]), xs[|xs| - 1])
  }

  function Answered<S, I, D>(step: (S, I) -> S, answer: (S, I) -> D, s: S, xs: seq<I>): (ds: seq<D>)
    ensures |ds| == |xs|
  {
    if xs == [] then []
    else
      var n := |xs| - 1;
      Answered(step, answer, s, xs[..n]) + [answer(Folded(step, s, xs[..n]), xs[n])]
  }

  lemma FoldStep<S, I, D>(step: (S, I) -> S, answer: (S, I) -> D, s: S, xs: seq<I>, n: nat)
    requires n < |xs|
    ensures Folded(step, s, xs[..n + 1]) == step(Folded(step, s, xs[..n]), xs[n])
    ensures Answered(step, answer, s, xs[..n + 1])
         == Answered(step, answer, s, xs[..n]) + [answer(Folded(step, s, xs[..n]), xs[n])]
  {
    assert xs[..n + 1][..n] == xs[..n];
  }

  /** Each answer is given on the state that the inputs before it left. */
  lemma {:induction false} AnsweredAt<S, I, D>(step: (S, I) -> S, answer: (S, I) -> D, s: S, xs: seq<I>, i: nat)
    requires i < |xs|
    ensures Answered(step, answer, s, xs)[i] == answer(Folded(step, s, xs[..i]), xs[i])
  {
    var n := |xs| - 1;
    if i < n {
      AnsweredAt(step, answer, s, xs[..n], i);
      assert xs[..n][..i] == xs[..i];
    }
  }
}
