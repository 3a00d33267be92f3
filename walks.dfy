/** A walk over a sequence of steps: the state after the steps of `t`, taken
    in order, the last one last. */
module Walks {
  function Fold<S, L>(step: (S, L) -> S, s: S, t: seq<L>): S
    decreases |t|
  {
    if t == [] then s else step(Fold(step, s, t[..|t| - 1]), t[|t| - 1])
  }

  /** One more step at the end. */
  lemma FoldSnoc<S, L>(step: (S, L) -> S, s: S, t: seq<L>, l: L)
    ensures Fold(step, s, t + [l]) == step(Fold(step, s, t), l)
  {
    assert (t + [l])[..|t|] == t;
  }

  /** Walking `a + b` is walking `a`, then `b` from where `a` ended. */
  lemma {:induction false} FoldConcat<S, L>(step: (S, L) -> S, s: S, a: seq<L>, b: seq<L>)
    ensures Fold(step, s, a + b) == Fold(step, Fold(step, s, a), b)
    decreases |b|
  {
    if b == [] {
      assert a + b == a;
    } else {
      var b' := b[..|b| - 1];
      var last := b[|b| - 1];
      assert b == b' + [last];
      assert a + b == (a + b') + [last];
      FoldSnoc(step, s, a + b', last);
      FoldConcat(step, s, a, b');
      FoldSnoc(step, Fold(step, s, a), b', last);
    }
  }
}
