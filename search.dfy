/** Sorted search, as numpy's `searchsorted(a, v)` with the default left side. */
module Search {

  /** The first index whose element is at least `v`, or `|s|` when there is
      none. On sorted input this is where `v` would be inserted to the left of
      any equal elements. */
  function SearchLeft(s: seq<real>, v: real): (r: nat)
    ensures r <= |s|
    ensures forall j :: 0 <= j < r ==> s[j] < v
    ensures r < |s| ==> s[r] >= v
  {
    if |s| == 0 || s[0] >= v then 0 else 1 + SearchLeft(s[1..], v)
  }

  /** A larger probe value is inserted no earlier. */
  lemma SearchLeftMonotone(s: seq<real>, v1: real, v2: real)
    requires v1 <= v2
    ensures SearchLeft(s, v1) <= SearchLeft(s, v2)
  {
  }

  /** On strictly increasing input, searching for an element finds that element. */
  lemma SearchLeftFindsElement(s: seq<real>, j: nat)
    requires forall a, b :: 0 <= a < b < |s| ==> s[a] < s[b]
    requires j < |s|
    ensures SearchLeft(s, s[j]) == j
  {
  }

  /** On sorted input, a probe above the last element goes past the end. */
  lemma SearchLeftPastEnd(s: seq<real>, v: real)
    requires forall a, b :: 0 <= a < b < |s| ==> s[a] < s[b]
    requires |s| > 0 && s[|s| - 1] < v
    ensures SearchLeft(s, v) == |s|
  {
  }
}
