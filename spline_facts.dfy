/** What `monospline` and `hermite` guarantee, proved about the model in
    module Spline. */
module SplineFacts {
  import opened Search
  import opened Spline

  // ---------------------------------------------------------------------------
  // The cubic on one segment

  /** At offset `h` the cubic reaches the right knot's value, whatever the tangents. */
  lemma CubicAtRightKnot(y0: real, y1: real, m0: real, m1: real, h: real)
    requires h != 0.0
    ensures Cubic(y0, y1, m0, m1, h, h) == y1
  {
    var s := (y1 - y0) / h;
    var c3 := (m0 + m1 - 2.0 * s) / (h * h);
    var c2 := (3.0 * s - 2.0 * m0 - m1) / h;
    assert c3 * (h * h) == m0 + m1 - 2.0 * s;
    assert c3 * h * h == m0 + m1 - 2.0 * s;
    assert c2 * h == 3.0 * s - 2.0 * m0 - m1;
    assert (c3 * h + c2) * h == s - m0;
    assert ((c3 * h + c2) * h + m0) * h == s * h;
    assert s * h == y1 - y0;
    assert Cubic(y0, y1, m0, m1, h, h) == ((c3 * h + c2) * h + m0) * h + y0;
  }

  /** Between equal values with zero tangents the cubic is constant. */
  lemma CubicOnFlatSegment(y0: real, h: real, v: real)
    requires h != 0.0
    ensures Cubic(y0, y0, 0.0, 0.0, h, v) == y0
  {
    var s := (y0 - y0) / h;
    var c3 := (0.0 + 0.0 - 2.0 * s) / (h * h);
    var c2 := (3.0 * s - 2.0 * 0.0 - 0.0) / h;
    assert s == 0.0;
    assert h * h != 0.0;
    assert c3 == 0.0 / (h * h) == 0.0;
    assert c2 == 0.0 / h == 0.0;
  }

  // ---------------------------------------------------------------------------
  // Segment selection

  /** Knots more than the floor apart are strictly increasing. */
  lemma {:induction false} SpacedIsIncreasing(x: seq<real>)
    requires Spaced(x)
    ensures Increasing(x)
  {
    forall i, j | 0 <= i < j < |x|
      ensures x[i] < x[j]
    {
      var k := i + 1;
      while k < j
        invariant i < k <= j
        invariant x[i] < x[k]
      {
        k := k + 1;
      }
    }
  }

  /** Querying at original knot `j` selects the segment that ends at that knot. */
  lemma SegmentAtKnot(x: seq<real>, j: nat)
    requires |x| >= 1 && Increasing(x) && j < |x|
    ensures SegmentIndex(Widen(x), x[j]) == j
  {
    SearchLeftFindsElement(x, j);
  }

  /** Querying beyond the last original knot selects the synthetic last segment. */
  lemma SegmentPastEnd(x: seq<real>, t: real)
    requires |x| >= 1 && Increasing(x) && x[|x| - 1] < t
    ensures SegmentIndex(Widen(x), t) == |x|
  {
    SearchLeftPastEnd(x, t);
  }

  // ---------------------------------------------------------------------------
  // The limiter loop

  /** Iteration `i` writes only entries `i` and `i + 1`. */
  lemma StepTouchesOnlyPair(f: Fit, root: real -> real, m: seq<real>, i: nat, k: nat)
    requires f.Valid() && IsSqrt(root) && |m| == |f.x| && i < |f.delta|
    requires k < |m| && k != i && k != i + 1
    ensures f.Step(m, i, root)[k] == m[k]
  {
  }

  /** A flat segment gets zero tangents at both of its knots. */
  lemma StepZeroesFlat(f: Fit, root: real -> real, m: seq<real>, i: nat)
    requires f.Valid() && IsSqrt(root) && |m| == |f.x| && i < |f.delta| && f.Flat(i)
    ensures f.Step(m, i, root)[i] == 0.0 && f.Step(m, i, root)[i + 1] == 0.0
  {
  }

  /** A pair of tangents too steep for the secant (squared ratios summing to
      more than 9) is rescaled onto the circle of radius 3: afterwards the
      squared ratios of the new tangents to the secant sum to exactly 9. */
  lemma StepCapsSteep(f: Fit, root: real -> real, m: seq<real>, i: nat)
    requires f.Valid() && f.Derived() && IsSqrt(root) && |m| == |f.x| && i < |f.delta|
    requires !f.Flat(i) && f.d[i] > 9.0
    ensures f.delta[i] != 0.0
    ensures SumOfSquares(f.Step(m, i, root)[i] / f.delta[i], f.Step(m, i, root)[i + 1] / f.delta[i]) == 9.0
  {
    assert f.delta[i] != 0.0;
    assert f.d[i] == SumOfSquares(f.alpha[i], f.beta[i]);
    StepRescales(f, root, m, i);
    RescaledRatios(f.alpha[i], f.beta[i], f.delta[i], root, f.Step(m, i, root)[i], f.Step(m, i, root)[i + 1]);
  }

  /** The rescaled pair: both tangents become `3/sqrt(d)` times their ratio
      times the secant. */
  lemma StepRescales(f: Fit, root: real -> real, m: seq<real>, i: nat)
    requires f.Valid() && IsSqrt(root) && |m| == |f.x| && i < |f.delta|
    requires !f.Flat(i) && f.d[i] > 9.0
    ensures f.Step(m, i, root)[i] == 3.0 / root(f.d[i]) * f.alpha[i] * f.delta[i]
    ensures f.Step(m, i, root)[i + 1] == 3.0 / root(f.d[i]) * f.beta[i] * f.delta[i]
  {
  }

  /** A non-flat pair within the circle of radius 3 is left unchanged. */
  lemma StepKeepsModerate(f: Fit, root: real -> real, m: seq<real>, i: nat)
    requires f.Valid() && IsSqrt(root) && |m| == |f.x| && i < |f.delta|
    requires !f.Flat(i) && f.d[i] <= 9.0
    ensures f.Step(m, i, root) == m
  {
  }

  /** Rescaling a pair of ratios by `3/sqrt(a² + b²)` puts them on the circle of radius 3. */
  lemma RescaledRatios(a: real, b: real, dl: real, root: real -> real, ma: real, mb: real)
    requires dl != 0.0 && IsSqrt(root) && SumOfSquares(a, b) > 0.0
    requires ma == 3.0 / root(SumOfSquares(a, b)) * a * dl
    requires mb == 3.0 / root(SumOfSquares(a, b)) * b * dl
    ensures SumOfSquares(ma / dl, mb / dl) == 9.0
  {
    var r := root(SumOfSquares(a, b));
    assert r > 0.0 && r * r == SumOfSquares(a, b);
    var tau := 3.0 / r;
    assert ma / dl == tau * a;
    assert mb / dl == tau * b;
    assert SumOfSquares(tau * a, tau * b) == tau * tau * SumOfSquares(a, b);
    assert tau * tau * (r * r) == 9.0;
  }

  /** Entry `i` is final once iteration `i` has run: later iterations write
      only higher entries. */
  lemma {:induction false} Settled(f: Fit, root: real -> real, i: nat, k: nat)
    requires f.Valid() && IsSqrt(root) && i < k <= |f.delta|
    ensures f.Limited(k, root)[i] == f.Limited(i + 1, root)[i]
    decreases k
  {
    if k > i + 1 {
      Settled(f, root, i, k - 1);
    }
  }

  /** A segment the loop finds flat (zero step, or a zero ratio) leaves a zero
      tangent at its left knot in the final array. */
  lemma ZeroWhereFlat(f: Fit, root: real -> real, i: nat)
    requires f.Valid() && IsSqrt(root) && i < |f.delta| && f.Flat(i)
    ensures f.Tangents(root)[i] == 0.0
  {
    Settled(f, root, i, |f.delta|);
  }

  /** The final tangent is zero at the left synthetic knot, at the last original
      knot and at the right synthetic knot: both synthetic segments are flat. */
  lemma EndTangentsVanish(x: seq<real>, y: seq<real>, root: real -> real)
    requires |x| == |y| >= 1 && Increasing(x) && IsSqrt(root)
    ensures var m := Prepare(x, y).Tangents(root);
      m[0] == 0.0 && m[|x|] == 0.0 && m[|x| + 1] == 0.0
  {
    EndsVanish(Prepare(x, y), root);
  }

  /** A fit whose first and last steps are flat ends with zero tangents at
      its first knot and at its last two. */
  lemma EndsVanish(f: Fit, root: real -> real)
    requires f.Valid() && IsSqrt(root)
    requires f.dy[0] == 0.0 && f.dy[|f.dy| - 1] == 0.0
    ensures var m := f.Tangents(root);
      m[0] == 0.0 && m[|f.x| - 2] == 0.0 && m[|f.x| - 1] == 0.0
  {
    var last := |f.delta| - 1;
    ZeroWhereFlat(f, root, 0);
    StepZeroesFlat(f, root, f.Limited(last, root), last);
  }

  /** The left end is not protected the same way: for knots (0,0), (1,1),
      (2,11) iteration 1 rescales the tangent at the first original knot
      after iteration 0 has zeroed it, so the curve leaves the first knot
      with a non-zero slope. */
  lemma LeftEndTangentMayBeNonZero(root: real -> real)
    requires IsSqrt(root)
    ensures Prepare([0.0, 1.0, 2.0], [0.0, 1.0, 11.0]).Tangents(root)[1] != 0.0
  {
    var f := Prepare([0.0, 1.0, 2.0], [0.0, 1.0, 11.0]);
    ExampleRatios();
    RescaledFirstKnot(f, root);
  }

  /** The widened knots and the value steps of the example. */
  lemma ExampleSteps()
    ensures Increasing([0.0, 1.0, 2.0])
    ensures var f := Prepare([0.0, 1.0, 2.0], [0.0, 1.0, 11.0]);
      f.dy[1] == 1.0 && f.dy[2] == 10.0
  {
    var x, y := [0.0, 1.0, 2.0], [0.0, 1.0, 11.0];
    assert Increasing(x);
    var f := Prepare(x, y);
    assert f.y[1..4] == y;
    assert f.y[1] == 0.0 && f.y[2] == 1.0 && f.y[3] == 11.0;
  }

  /** The secants of the example. */
  lemma ExampleSecants()
    ensures Increasing([0.0, 1.0, 2.0])
    ensures var f := Prepare([0.0, 1.0, 2.0], [0.0, 1.0, 11.0]);
      f.delta[1] == 1.0 && f.delta[2] == 10.0
  {
    var x, y := [0.0, 1.0, 2.0], [0.0, 1.0, 11.0];
    assert Increasing(x);
    var xe, ye := Widen(x), Pad(y);
    assert xe[1..4] == x && ye[1..4] == y;
    WidenIncreasing(x);
    SecantIsSlope(xe, ye, 1);
    SecantIsSlope(xe, ye, 2);
    assert Derive(xe, ye).delta[1] == 1.0;
    assert Derive(xe, ye).delta[2] == 10.0;
    assert Prepare(x, y) == Derive(xe, ye);
  }

  /** Each secant is the slope of its segment. */
  lemma SecantIsSlope(xe: seq<real>, ye: seq<real>, i: nat)
    requires |xe| == |ye| >= 3 && Increasing(xe) && i < |xe| - 1
    ensures Derive(xe, ye).delta[i] == (ye[i + 1] - ye[i]) / (xe[i + 1] - xe[i])
  {
    DeriveSecants(xe, ye);
    SecantsAreSlopes(xe, ye, i);
  }

  /** The secants `Derive` stores are those of the steps of its knots. */
  lemma DeriveSecants(xe: seq<real>, ye: seq<real>)
    requires |xe| == |ye| >= 3 && Increasing(xe)
    ensures forall j :: 0 <= j < |xe| - 1 ==> Diff(xe)[j] > 0.0
    ensures Derive(xe, ye).delta == Secants(Diff(ye), Diff(xe))
  {
  }

  lemma SecantsAreSlopes(xe: seq<real>, ye: seq<real>, i: nat)
    requires |xe| == |ye| >= 3 && Increasing(xe) && i < |xe| - 1
    ensures forall j :: 0 <= j < |xe| - 1 ==> Diff(xe)[j] > 0.0
    ensures Secants(Diff(ye), Diff(xe))[i] == (ye[i + 1] - ye[i]) / (xe[i + 1] - xe[i])
  {
  }

  /** The initial tangents of the example. */
  lemma ExampleTangents()
    ensures Increasing([0.0, 1.0, 2.0])
    ensures var f := Prepare([0.0, 1.0, 2.0], [0.0, 1.0, 11.0]);
      f.delta[1] == 1.0 && f.m0[1] == 0.5 && f.m0[2] == 5.5
  {
    ExampleSecants();
  }

  /** The ratios the limiter reads on segment 1 of the example. */
  lemma ExampleRatios()
    ensures Increasing([0.0, 1.0, 2.0])
    ensures var f := Prepare([0.0, 1.0, 2.0], [0.0, 1.0, 11.0]);
      f.dy[1] == 1.0 && f.delta[1] == 1.0 && f.alpha[1] == 0.5 && f.beta[1] == 5.5 && f.d[1] == 30.5
  {
    ExampleSteps();
    ExampleTangents();
    var f := Prepare([0.0, 1.0, 2.0], [0.0, 1.0, 11.0]);
    assert f.alpha[1] == 0.5 && f.beta[1] == 5.5;
    assert f.d[1] == SumOfSquares(0.5, 5.5);
  }

  /** When segment 1 is steep enough to be rescaled, the tangent at knot 1
      ends up a non-zero multiple of the secant. */
  lemma RescaledFirstKnot(f: Fit, root: real -> real)
    requires f.Valid() && IsSqrt(root) && |f.delta| >= 2
    requires f.dy[1] != 0.0 && f.delta[1] != 0.0 && f.alpha[1] != 0.0 && f.d[1] > 9.0
    requires f.beta[1] != 0.0
    ensures f.Tangents(root)[1] != 0.0
  {
    var r := root(f.d[1]);
    assert (3.0 / r) * f.alpha[1] != 0.0;
    assert f.Limited(2, root)[1] == (3.0 / r) * f.alpha[1] * f.delta[1];
    Settled(f, root, 1, |f.delta|);
  }

  // ---------------------------------------------------------------------------
  // The interpolant

  /** The curve passes exactly through every original knot, whatever the
      limiter did to the tangents. */
  lemma ExactAtKnots(x: seq<real>, y: seq<real>, root: real -> real, j: nat)
    requires |x| == |y| >= 1 && Spaced(x) && IsSqrt(root) && j < |x|
    ensures Increasing(x) && InterpolantAt(x, y, root, x[j]) == y[j]
  {
    SpacedIsIncreasing(x);
    var f := Prepare(x, y);
    HermiteAtKnot(x, f.y, f.Tangents(root), j);
    assert f.y[j + 1] == y[j];
  }

  /** On spaced widened knots, evaluating at original knot `j` returns the
      value stored at that knot, whatever the tangents. */
  lemma HermiteAtKnot(x: seq<real>, ye: seq<real>, m: seq<real>, j: nat)
    requires |x| >= 1 && Spaced(x) && j < |x| && |ye| == |m| == |x| + 2
    ensures HermiteAt(Widen(x), ye, m, x[j]) == ye[j + 1]
  {
    SpacedIsIncreasing(x);
    KnotWidth(x, j);
    SegmentAtKnot(x, j);
    CubicAtRightKnot(ye[j], ye[j + 1], m[j], m[j + 1], Width(Widen(x), j));
  }

  /** With spaced knots the segment ending at original knot `j` keeps its
      true width. */
  lemma KnotWidth(x: seq<real>, j: nat)
    requires |x| >= 1 && Spaced(x) && j < |x|
    ensures Widen(x)[j + 1] == x[j] && Width(Widen(x), j) == x[j] - Widen(x)[j]
  {
    var xe := Widen(x);
    assert xe[j + 1] == x[j];
    if j > 0 {
      assert xe[j] == x[j - 1];
    }
  }

  /** A segment with equal end values and zero end tangents evaluates to its value. */
  lemma HermiteOnFlatSegment(xe: seq<real>, ye: seq<real>, m: seq<real>, t: real)
    requires |xe| == |ye| == |m| >= 3
    requires var idx := SegmentIndex(xe, t);
      ye[idx] == ye[idx + 1] && m[idx] == 0.0 && m[idx + 1] == 0.0
    ensures HermiteAt(xe, ye, m, t) == ye[SegmentIndex(xe, t)]
  {
    var idx := SegmentIndex(xe, t);
    CubicOnFlatSegment(ye[idx], Width(xe, idx), t - xe[idx]);
  }

  /** Beyond the last original knot the curve is flat at the last value. */
  lemma FlatPastLastKnot(x: seq<real>, y: seq<real>, root: real -> real, t: real)
    requires |x| == |y| >= 1 && Increasing(x) && IsSqrt(root)
    requires x[|x| - 1] < t
    ensures InterpolantAt(x, y, root, t) == y[|y| - 1]
  {
    var f := Prepare(x, y);
    var m := f.Tangents(root);
    SegmentPastEnd(x, t);
    EndTangentsVanish(x, y, root);
    assert f.y[|x|] == y[|y| - 1] && f.y[|x| + 1] == y[|y| - 1];
    HermiteOnFlatSegment(f.x, f.y, m, t);
  }

  /** At or beyond the last original knot the curve is flat at the last
      value; at the knot itself this needs the knots spaced. */
  lemma FlatBeyondLastKnot(x: seq<real>, y: seq<real>, root: real -> real, t: real)
    requires |x| == |y| >= 1 && Increasing(x) && IsSqrt(root)
    requires x[|x| - 1] <= t
    requires x[|x| - 1] < t || Spaced(x)
    ensures InterpolantAt(x, y, root, t) == y[|y| - 1]
  {
    if t == x[|x| - 1] {
      ExactAtKnots(x, y, root, |x| - 1);
    } else {
      FlatPastLastKnot(x, y, root, t);
    }
  }

  /** Padding equal values gives equal values. */
  lemma PadConstant(y: seq<real>)
    requires |y| >= 1 && forall i :: 0 <= i < |y| ==> y[i] == y[0]
    ensures forall i :: 0 <= i < |Pad(y)| ==> Pad(y)[i] == y[0]
  {
  }

  /** When every value step is zero, every final tangent is zero. */
  lemma FlatFitTangents(f: Fit, root: real -> real)
    requires f.Valid() && IsSqrt(root)
    requires forall i :: 0 <= i < |f.dy| ==> f.dy[i] == 0.0
    ensures forall i :: 0 <= i < |f.x| ==> f.Tangents(root)[i] == 0.0
  {
    forall i | 0 <= i < |f.x|
      ensures f.Tangents(root)[i] == 0.0
    {
      if i < |f.delta| {
        ZeroWhereFlat(f, root, i);
      } else {
        assert f.Limited(i, root)[i] == 0.0;
      }
    }
  }

  /** Equal values at every knot give a zero step everywhere. */
  lemma ConstantFit(f: Fit)
    requires f.Valid() && f.Derived()
    requires forall i :: 0 <= i < |f.y| ==> f.y[i] == f.y[0]
    ensures forall i :: 0 <= i < |f.dy| ==> f.dy[i] == 0.0
  {
    forall i | 0 <= i < |f.dy|
      ensures f.dy[i] == 0.0
    {
      assert f.dy[i] == f.y[i + 1] - f.y[i];
    }
  }

  /** Equal values everywhere give zero tangents everywhere. */
  lemma ConstantValuesGiveZeroTangents(x: seq<real>, y: seq<real>, root: real -> real)
    requires |x| == |y| >= 1 && Increasing(x) && IsSqrt(root)
    requires forall i :: 0 <= i < |y| ==> y[i] == y[0]
    ensures forall i :: 0 <= i < |x| + 2 ==> Prepare(x, y).Tangents(root)[i] == 0.0
  {
    var f := Prepare(x, y);
    PadConstant(y);
    assert f.y[0] == y[0];
    ConstantFit(f);
    FlatFitTangents(f, root);
  }

  /** Equal values everywhere give a constant curve. */
  lemma ConstantValuesGiveConstantCurve(x: seq<real>, y: seq<real>, root: real -> real, t: real)
    requires |x| == |y| >= 1 && Increasing(x) && IsSqrt(root)
    requires forall i :: 0 <= i < |y| ==> y[i] == y[0]
    ensures InterpolantAt(x, y, root, t) == y[0]
  {
    PadConstant(y);
    FlatCurve(Prepare(x, y), root, t);
  }

  /** A fit with equal values at every knot evaluates to that value everywhere. */
  lemma FlatCurve(f: Fit, root: real -> real, t: real)
    requires f.Valid() && f.Derived() && IsSqrt(root)
    requires forall i :: 0 <= i < |f.y| ==> f.y[i] == f.y[0]
    ensures HermiteAt(f.x, f.y, f.Tangents(root), t) == f.y[0]
  {
    ConstantFit(f);
    FlatFitTangents(f, root);
    HermiteOnFlatSegment(f.x, f.y, f.Tangents(root), t);
  }
}
