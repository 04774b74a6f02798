/** The occlusion decision for one point of interest: the ray cast from the
    camera through the point reports the distances of everything it hits,
    nearest first, and the label is hidden only when the nearest hit lies
    strictly in front of the point. */
module Occlusion {

  /** Hit distances ordered nearest first, as the ray caster reports them. */
  predicate Sorted(hits: seq<real>) {
    forall i :: 0 < i < |hits| ==> hits[i - 1] <= hits[i]
  }

  /** Reference definition: some hit lies strictly nearer than the point. */
  predicate Occluded(hits: seq<real>, pointDistance: real) {
    exists i :: 0 <= i < |hits| && hits[i] < pointDistance
  }

  /** The label's visibility: no hit at all, or a nearest hit that is not nearer than the point. */
  function IsVisible(hits: seq<real>, pointDistance: real): bool {
    if |hits| == 0 then true
    else if hits[0] < pointDistance then false
    else true
  }

  /** The three cases of the rule, with a tie counted as visible. */
  lemma VisibilityRule(hits: seq<real>, pointDistance: real)
    ensures |hits| == 0 ==> IsVisible(hits, pointDistance)
    ensures |hits| > 0 && hits[0] < pointDistance ==> !IsVisible(hits, pointDistance)
    ensures |hits| > 0 && hits[0] >= pointDistance ==> IsVisible(hits, pointDistance)
    ensures |hits| > 0 && hits[0] == pointDistance ==> IsVisible(hits, pointDistance)
  {
  }

  /** In a sorted list the first distance is the smallest. */
  lemma {:induction false} FirstIsNearest(hits: seq<real>, k: nat)
    requires Sorted(hits) && k < |hits|
    ensures hits[0] <= hits[k]
    decreases k
  {
    if k > 0 {
      FirstIsNearest(hits, k - 1);
    }
  }

  /** On sorted hits, a label is visible exactly when nothing lies strictly in front of its point. */
  lemma VisibleIffNotOccluded(hits: seq<real>, pointDistance: real)
    requires Sorted(hits)
    ensures IsVisible(hits, pointDistance) <==> !Occluded(hits, pointDistance)
  {
    if |hits| > 0 && hits[0] >= pointDistance {
      forall i | 0 <= i < |hits| ensures hits[i] >= pointDistance {
        FirstIsNearest(hits, i);
      }
    }
  }

  /** A visible point stays visible when it is moved nearer the camera, and a hidden one stays
      hidden when moved farther away. */
  lemma VisibilityMonotone(hits: seq<real>, d: real, e: real)
    requires e <= d
    ensures IsVisible(hits, d) ==> IsVisible(hits, e)
    ensures !IsVisible(hits, e) ==> !IsVisible(hits, d)
  {
  }
}
