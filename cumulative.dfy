/** Running sums, as numpy's `hstack((0, cumsum(s)))`. */
module Cumulative {

  function Sum(s: seq<real>): real
  {
    if |s| == 0 then 0.0 else Sum(s[..|s| - 1]) + s[|s| - 1]
  }

  /** `hstack((0, cumsum(s)))`: entry i is the sum of the first i steps. */
  function Running(s: seq<real>): (r: seq<real>)
    ensures |r| == |s| + 1
    ensures r[0] == 0.0 && r[|s|] == Sum(s)
  {
    assert s[..|s|] == s;
    seq(|s| + 1, i requires 0 <= i <= |s| => Sum(s[..i]))
  }

  /** Consecutive running sums differ by the step between them. */
  lemma RunningStep(s: seq<real>, i: nat)
    requires i < |s|
    ensures Running(s)[i + 1] == Running(s)[i] + s[i]
  {
    assert s[..i + 1][..i] == s[..i];
  }

  /** Positive steps give strictly increasing running sums. */
  lemma {:induction false} RunningIncreasing(s: seq<real>)
    requires forall i :: 0 <= i < |s| ==> s[i] > 0.0
    ensures forall a, b :: 0 <= a < b < |s| + 1 ==> Running(s)[a] < Running(s)[b]
  {
    var r := Running(s);
    forall a, b | 0 <= a < b < |s| + 1
      ensures r[a] < r[b]
    {
      var k := a;
      while k < b
        invariant a <= k <= b
        invariant k > a ==> r[a] < r[k]
      {
        RunningStep(s, k);
        k := k + 1;
      }
    }
  }

  /** Non-negative steps give non-decreasing running sums. */
  lemma RunningOrdered(s: seq<real>, a: nat, b: nat)
    requires forall i :: 0 <= i < |s| ==> s[i] >= 0.0
    requires a <= b <= |s|
    ensures Running(s)[a] <= Running(s)[b]
  {
    var k := a;
    while k < b
      invariant a <= k <= b
      invariant Running(s)[a] <= Running(s)[k]
    {
      RunningStep(s, k);
      k := k + 1;
    }
  }

  /** Non-negative steps keep every running sum between 0 and the total. */
  lemma RunningNonDecreasing(s: seq<real>)
    requires forall i :: 0 <= i < |s| ==> s[i] >= 0.0
    ensures forall a, b :: 0 <= a <= b < |s| + 1 ==> 0.0 <= Running(s)[a] <= Running(s)[b] <= Sum(s)
  {
    forall a, b | 0 <= a <= b < |s| + 1
      ensures 0.0 <= Running(s)[a] <= Running(s)[b] <= Sum(s)
    {
      RunningOrdered(s, 0, a);
      RunningOrdered(s, a, b);
      RunningOrdered(s, b, |s|);
    }
  }
}
