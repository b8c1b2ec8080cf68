/** The running minimum / maximum that the reindexer keeps per shard and across
    shards: a value seeded with a sentinel and replaced whenever a strictly
    better candidate turns up. */
module RunningBounds {

  /** Which end of the observed range a running bound tracks. */
  datatype Dir = Lower | Upper

  /** `a` lies on the bound's side of `b`, ties included. */
  predicate Dominates(d: Dir, a: int, b: int) {
    match d
    case Lower => a <= b
    case Upper => a >= b
  }

  /** One update of the running bound: the candidate `x` replaces `acc` only
      when it is strictly better (`x < acc` for a minimum, `x > acc` for a
      maximum). */
  function Step(d: Dir, acc: int, x: int): int {
    match d
    case Lower => if x < acc then x else acc
    case Upper => if x > acc then x else acc
  }

  /** `v` is the bound of `seed` together with every element of `xs`: it
      dominates all of them and is one of them. */
  predicate IsBound(d: Dir, v: int, seed: int, xs: seq<int>) {
    && Dominates(d, v, seed)
    && (forall i :: 0 <= i < |xs| ==> Dominates(d, v, xs[i]))
    && (v == seed || v in xs)
  }

  /** The running bound after visiting `xs` left to right, starting from `acc`. */
  function Fold(d: Dir, acc: int, xs: seq<int>): (r: int)
    ensures IsBound(d, r, acc, xs)
    decreases |xs|
  {
    if |xs| == 0 then acc else Fold(d, Step(d, acc, xs[0]), xs[1..])
  }

  /** The bound is determined by the seed and the SET of candidates alone. */
  lemma BoundIsUnique(d: Dir, v: int, w: int, seed: int, xs: seq<int>, ys: seq<int>)
    requires IsBound(d, v, seed, xs)
    requires IsBound(d, w, seed, ys)
    requires forall x :: x in xs <==> x in ys
    ensures v == w
  {
  }

  /** Folding a reordering of the same candidates gives the same bound. */
  lemma FoldIgnoresOrder(d: Dir, seed: int, xs: seq<int>, ys: seq<int>)
    requires multiset(xs) == multiset(ys)
    ensures Fold(d, seed, xs) == Fold(d, seed, ys)
  {
    forall x
      ensures x in xs <==> x in ys
    {
      assert x in xs <==> x in multiset(xs);
      assert x in ys <==> x in multiset(ys);
    }
    BoundIsUnique(d, Fold(d, seed, xs), Fold(d, seed, ys), seed, xs, ys);
  }

  /** Combining two bounds taken with the same seed by one more update gives
      the bound of both candidate sequences together. */
  lemma StepJoins(d: Dir, v: int, w: int, seed: int, xs: seq<int>, ys: seq<int>)
    requires IsBound(d, v, seed, xs)
    requires IsBound(d, w, seed, ys)
    ensures IsBound(d, Step(d, v, w), seed, xs + ys)
  {
  }
}
