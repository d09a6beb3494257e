/** Sums and arithmetic means over transaction counts. */
module SeqMath {

  /** Sum of a sequence, peeled from the end so that a loop that appends can keep it as an invariant. */
  function Sum(xs: seq<int>): int
  {
    if xs == [] then 0 else Sum(xs[..|xs| - 1]) + xs[|xs| - 1]
  }

  lemma {:induction false} SumNonNegative(xs: seq<int>)
    requires forall i :: 0 <= i < |xs| ==> xs[i] >= 0
    ensures Sum(xs) >= 0
  {
    if xs != [] {
      SumNonNegative(xs[..|xs| - 1]);
    }
  }

  /** `np.mean`: the arithmetic mean, defined for a non-empty sequence. */
  function Mean(xs: seq<int>): (m: real)
    requires |xs| > 0
    ensures m * |xs| as real == Sum(xs) as real
  {
    Sum(xs) as real / |xs| as real
  }
}
