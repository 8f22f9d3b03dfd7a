// First-match search over a sequence, shared by the configuration lookups
// and the channel-name splitting: each walks a list in order and stops at
// the first element that passes a test.

module Seqs {
  import opened Wrappers

  /** The index of the first element of `xs` satisfying `p`. */
  function First<T>(xs: seq<T>, p: T -> bool): (r: Option<nat>)
    ensures r.Some? ==> r.value < |xs|
    decreases |xs|
  {
    if xs == [] then None
    else if p(xs[0]) then Some(0)
    else match First(xs[1..], p)
      case None => None
      case Some(i) => Some(i + 1)
  }

  /** The index found satisfies `p` and no earlier one does; when none is found, no element satisfies `p`. */
  lemma {:induction false} FirstSpec<T>(xs: seq<T>, p: T -> bool)
    ensures var r := First(xs, p);
      && (r.Some? ==> p(xs[r.value]) && forall j | 0 <= j < r.value :: !p(xs[j]))
      && (r.None? ==> forall j | 0 <= j < |xs| :: !p(xs[j]))
    decreases |xs|
  {
    if xs != [] && !p(xs[0]) {
      FirstSpec(xs[1..], p);
      assert forall k | 1 <= k < |xs| :: xs[k] == xs[1..][k - 1];
    }
  }

  /** Skipping a first element that fails `p` shifts the index found by one. */
  lemma FirstTail<T>(xs: seq<T>, p: T -> bool)
    requires xs != [] && !p(xs[0])
    ensures First(xs, p) == match First(xs[1..], p) case None => None case Some(i) => Some(i + 1)
  {
  }
}
