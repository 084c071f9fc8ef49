/** `count_inflections` and `inflections` from refl1d/mono.py: count the sign
    changes of the non-zero deviations of each interior point from the chord
    through its two neighbours. */
module Inflections {
  import opened Cumulative

  /** Every chord has distinct end positions: the source divides by
      `x[k+2] - x[k]`. */
  predicate ChordsDefined(x: seq<real>)
  {
    forall k :: 0 <= k < |x| - 2 ==> x[k + 2] != x[k]
  }

  /** Slope `m` of the chord through points `k` and `k + 2`. */
  function ChordSlope(x: seq<real>, y: seq<real>, k: nat): real
    requires |x| == |y| && k + 2 < |x| && x[k + 2] != x[k]
  {
    (y[k + 2] - y[k]) / (x[k + 2] - x[k])
  }

  /** `delta[k] = y[k+1] - (m*x[k+1] + b)` with `b = y[k+2] - m*x[k+2]`. */
  function Deviation(x: seq<real>, y: seq<real>, k: nat): real
    requires |x| == |y| && k + 2 < |x| && x[k + 2] != x[k]
  {
    var m := ChordSlope(x, y, k);
    var b := y[k + 2] - m * x[k + 2];
    y[k + 1] - (m * x[k + 1] + b)
  }

  /** The deviation of every interior point; empty below three points, as
      numpy's slices are. */
  function Deviations(x: seq<real>, y: seq<real>): (delta: seq<real>)
    requires |x| == |y| && ChordsDefined(x)
    ensures |delta| == if |x| >= 2 then |x| - 2 else 0
    ensures forall k :: 0 <= k < |delta| ==> delta[k] == Deviation(x, y, k)
  {
    if |x| < 3 then [] else seq(|x| - 2, k requires 0 <= k < |x| - 2 => Deviation(x, y, k))
  }

  /** `delta[nonzero(delta)]`: the non-zero entries, in order. */
  function NonZero(s: seq<real>): (r: seq<real>)
    ensures |r| <= |s|
    ensures forall i :: 0 <= i < |r| ==> r[i] != 0.0
    ensures forall i :: 0 <= i < |r| ==> r[i] in s
    ensures forall i :: 0 <= i < |s| && s[i] != 0.0 ==> s[i] in r
    ensures |r| == 0 <==> forall i :: 0 <= i < |s| ==> s[i] == 0.0
    ensures multiset(r) == multiset(s)[0.0 := 0]
  {
    if |s| == 0 then []
    else
      assert s == [s[0]] + s[1..];
      assert multiset(s) == multiset([s[0]]) + multiset(s[1..]);
      if s[0] == 0.0 then NonZero(s[1..])
      else [s[0]] + NonZero(s[1..])
  }

  /** Filtering distributes over concatenation: the kept entries stay in
      their original order, each as often as it occurs. */
  lemma {:induction false} NonZeroAppend(a: seq<real>, b: seq<real>)
    ensures NonZero(a + b) == NonZero(a) + NonZero(b)
  {
    if |a| > 0 {
      assert (a + b)[1..] == a[1..] + b;
      NonZeroAppend(a[1..], b);
    } else {
      assert a + b == b;
    }
  }

  /** Filtering a single entry keeps it exactly when it is non-zero. */
  lemma NonZeroSingle(x: real)
    ensures NonZero([x]) == if x == 0.0 then [] else [x]
  {
    assert [x][1..] == [];
  }

  /** Neighbours of opposite sign: `delta[1:]*delta[:-1] < 0`. */
  predicate Opposite(a: real, b: real)
  {
    a * b < 0.0
  }

  /** `sum(delta[1:]*delta[:-1] < 0)`. */
  function SignChanges(s: seq<real>): (n: nat)
    ensures n <= if |s| >= 1 then |s| - 1 else 0
  {
    if |s| < 2 then 0
    else (if Opposite(s[0], s[1]) then 1 else 0) + SignChanges(s[1..])
  }

  /** `count_inflections(x, y)`: none below four points, and at most one per
      interior point after the first. */
  function CountInflections(x: seq<real>, y: seq<real>): (n: nat)
    requires |x| == |y| && ChordsDefined(x)
    ensures |x| < 4 ==> n == 0
    ensures |x| >= 3 ==> n <= |x| - 3
  {
    SignChanges(NonZero(Deviations(x, y)))
  }

  /** `inflections(dx, dy)`: count on the running sums of the steps. */
  function InflectionsOf(dx: seq<real>, dy: seq<real>): (n: nat)
    requires |dx| == |dy| && ChordsDefined(Running(dx))
    ensures |dx| < 3 ==> n == 0
    ensures |dx| >= 2 ==> n <= |dx| - 2
  {
    CountInflections(Running(dx), Running(dy))
  }

  /** Positive position steps give chords that are all defined. */
  lemma PositiveStepsDefineChords(dx: seq<real>)
    requires forall i :: 0 <= i < |dx| ==> dx[i] > 0.0
    ensures ChordsDefined(Running(dx))
  {
    RunningIncreasing(dx);
  }

  /** Points on one line deviate from every chord by exactly zero. */
  lemma DeviationOnLine(x: seq<real>, y: seq<real>, a: real, c: real, k: nat)
    requires |x| == |y| && k + 2 < |x| && x[k + 2] != x[k]
    requires y[k] == a * x[k] + c && y[k + 1] == a * x[k + 1] + c && y[k + 2] == a * x[k + 2] + c
    ensures Deviation(x, y, k) == 0.0
  {
    var run := x[k + 2] - x[k];
    assert y[k + 2] - y[k] == a * run;
    assert ChordSlope(x, y, k) == a;
  }

  /** Collinear points have no inflections: every deviation is zero and
      zero deviations are dropped. */
  lemma CollinearHasNoInflections(x: seq<real>, y: seq<real>, a: real, c: real)
    requires |x| == |y| && ChordsDefined(x)
    requires forall i :: 0 <= i < |x| ==> y[i] == a * x[i] + c
    ensures CountInflections(x, y) == 0
  {
    var delta := Deviations(x, y);
    forall k | 0 <= k < |delta|
      ensures delta[k] == 0.0
    {
      DeviationOnLine(x, y, a, c, k);
    }
    assert NonZero(delta) == [];
  }

  /** Entries all of one sign never change sign. */
  lemma {:induction false} OneSignHasNoChanges(s: seq<real>)
    requires (forall i :: 0 <= i < |s| ==> s[i] > 0.0) || (forall i :: 0 <= i < |s| ==> s[i] < 0.0)
    ensures SignChanges(s) == 0
  {
    if |s| >= 2 {
      assert !Opposite(s[0], s[1]) by {
        if s[0] > 0.0 {
          assert s[0] * s[1] > 0.0;
        } else {
          assert s[0] * s[1] > 0.0;
        }
      }
      OneSignHasNoChanges(s[1..]);
    }
  }

  /** Points all on the same side of their chords (a strictly convex or
      strictly concave sample) have no inflections. */
  lemma OneSidedHasNoInflections(x: seq<real>, y: seq<real>)
    requires |x| == |y| && ChordsDefined(x)
    requires (forall k :: 0 <= k < |x| - 2 ==> Deviation(x, y, k) > 0.0) ||
             (forall k :: 0 <= k < |x| - 2 ==> Deviation(x, y, k) < 0.0)
    ensures CountInflections(x, y) == 0
  {
    var delta := Deviations(x, y);
    assert NonZero(delta) == delta by {
      NonZeroKeepsNonZero(delta);
    }
    OneSignHasNoChanges(delta);
  }

  /** Filtering a sequence with no zero entries changes nothing. */
  lemma {:induction false} NonZeroKeepsNonZero(s: seq<real>)
    requires forall i :: 0 <= i < |s| ==> s[i] != 0.0
    ensures NonZero(s) == s
  {
    if |s| > 0 {
      NonZeroKeepsNonZero(s[1..]);
    }
  }

  /** The zig-zag 0, 1, 0, 1, 0 has two inflections. */
  lemma ZigZagHasTwoInflections()
    ensures ChordsDefined([0.0, 1.0, 2.0, 3.0, 4.0])
    ensures CountInflections([0.0, 1.0, 2.0, 3.0, 4.0], [0.0, 1.0, 0.0, 1.0, 0.0]) == 2
  {
    var x, y := [0.0, 1.0, 2.0, 3.0, 4.0], [0.0, 1.0, 0.0, 1.0, 0.0];
    assert ChordsDefined(x);
    assert Deviation(x, y, 0) == 1.0;
    assert Deviation(x, y, 1) == -1.0;
    assert Deviation(x, y, 2) == 1.0;
    var delta := Deviations(x, y);
    assert delta == [1.0, -1.0, 1.0];
    NonZeroKeepsNonZero(delta);
    assert Opposite(1.0, -1.0) && Opposite(-1.0, 1.0);
  }

  /** `inflections([1]*4, [1, -1, 1, -1])`: the same zig-zag given by its steps. */
  lemma ZigZagStepsHaveTwoInflections()
    ensures ChordsDefined(Running([1.0, 1.0, 1.0, 1.0]))
    ensures InflectionsOf([1.0, 1.0, 1.0, 1.0], [1.0, -1.0, 1.0, -1.0]) == 2
  {
    var dx, dy := [1.0, 1.0, 1.0, 1.0], [1.0, -1.0, 1.0, -1.0];
    assert Running(dx) == [0.0, 1.0, 2.0, 3.0, 4.0] by {
      RunningStep(dx, 0); RunningStep(dx, 1); RunningStep(dx, 2); RunningStep(dx, 3);
    }
    assert Running(dy) == [0.0, 1.0, 0.0, 1.0, 0.0] by {
      RunningStep(dy, 0); RunningStep(dy, 1); RunningStep(dy, 2); RunningStep(dy, 3);
    }
    ZigZagHasTwoInflections();
  }
}
