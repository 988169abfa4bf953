/** First-match search, the shape shared by `Array.prototype.find` and by the
    "ask again until the answer is valid" prompt loops. */
module Search {
  import opened Wrappers

  /** `i` is the position of the first element of `xs` that satisfies `p`. */
  ghost predicate IsFirst<T>(xs: seq<T>, p: T -> bool, i: nat)
  {
    i < |xs| && p(xs[i]) && forall j :: 0 <= j < i ==> !p(xs[j])
  }

  /** Visits `xs` from the front and stops at the first element satisfying `p`;
      `None` when no element does. */
  function FindFirst<T>(xs: seq<T>, p: T -> bool): (r: Option<nat>)
    ensures r.Some? ==> IsFirst(xs, p, r.value)
    ensures r.None? <==> forall j :: 0 <= j < |xs| ==> !p(xs[j])
    decreases |xs|
  {
    if |xs| == 0 then None
    else if p(xs[0]) then Some(0)
    else
      match FindFirst(xs[1..], p)
      case None => None
      case Some(i) => Some(i + 1)
  }

  /** `FindFirst` finds exactly the first match, so it agrees with `IsFirst`
      in both directions. */
  lemma FindFirstExactly<T>(xs: seq<T>, p: T -> bool, i: nat)
    ensures FindFirst(xs, p) == Some(i) <==> IsFirst(xs, p, i)
  {
  }
}
