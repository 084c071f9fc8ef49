/** Monotone cubic Hermite interpolation with Fritsch–Carlson slope limiting,
    as `monospline` and `hermite` in refl1d/mono.py compute it, over exact
    reals. */
module Spline {
  import opened Search

  /** The floor on a segment's width (1e-10 in the source), as an exact real. */
  const WidthFloor: real := 0.0000000001

  /** Knot positions strictly increasing. */
  predicate Increasing(x: seq<real>)
  {
    forall i, j :: 0 <= i < j < |x| ==> x[i] < x[j]
  }

  /** Neighbouring knots are more than the width floor apart. */
  predicate Spaced(x: seq<real>)
  {
    forall i :: 0 < i < |x| ==> x[i] - x[i - 1] > WidthFloor
  }

  /** `root` is a square root on the positive reals. Dafny's reals have no
      square root, so the limiter's `sqrt` is supplied by the caller. */
  ghost predicate IsSqrt(root: real -> real)
  {
    forall r: real :: 0.0 < r ==> 0.0 < root(r) && root(r) * root(r) == r
  }

  /** `hstack((x[0]-1, x, x[-1]+1))`: one synthetic knot a unit beyond each end. */
  function Widen(x: seq<real>): (xe: seq<real>)
    requires |x| >= 1
    ensures |xe| == |x| + 2 && xe[1..|x| + 1] == x
  {
    [x[0] - 1.0] + x + [x[|x| - 1] + 1.0]
  }

  /** `hstack((y[0], y, y[-1]))`: the synthetic knots repeat the end values. */
  function Pad(y: seq<real>): (ye: seq<real>)
    requires |y| >= 1
    ensures |ye| == |y| + 2 && ye[1..|y| + 1] == y
  {
    [y[0]] + y + [y[|y| - 1]]
  }

  /** `numpy.diff`. */
  function Diff(s: seq<real>): (d: seq<real>)
    requires |s| >= 1
    ensures |d| == |s| - 1
  {
    seq(|s| - 1, i requires 0 <= i < |s| - 1 => s[i + 1] - s[i])
  }

  /** `a / b` as numpy computes it for the ratios. Where the secant `b` is
      zero numpy yields nan or inf; the loop never reads those entries (its
      `dy[i] == 0` test comes first), so 0 stands in for them here. */
  function Ratio(a: real, b: real): real
  {
    if b == 0.0 then 0.0 else a / b
  }

  /** The arrays `monospline` derives before its limiter loop: the widened
      knots `x`, `y`, the value steps `dy`, the secants `delta`, the initial
      tangents `m0` and the ratios `alpha`, `beta`, `d` taken from them. */
  datatype Fit = Fit(x: seq<real>, y: seq<real>, dy: seq<real>, delta: seq<real>, m0: seq<real>,
                     alpha: seq<real>, beta: seq<real>, d: seq<real>)
  {
    /** The array lengths `monospline` produces. */
    predicate Valid()
    {
      |x| == |y| == |m0| >= 3 && |dy| == |delta| == |alpha| == |beta| == |d| == |x| - 1
    }

    /** How the secants and ratios are derived from the knots and tangents. */
    predicate Derived()
      requires Valid()
    {
      (forall i :: 0 <= i < |dy| ==> dy[i] == y[i + 1] - y[i]) &&
      (forall i :: 0 <= i < |delta| ==> (delta[i] == 0.0 <==> dy[i] == 0.0)) &&
      (forall i :: 0 <= i < |delta| ==> alpha[i] == Ratio(m0[i], delta[i])) &&
      (forall i :: 0 <= i < |delta| ==> beta[i] == Ratio(m0[i + 1], delta[i])) &&
      (forall i :: 0 <= i < |delta| ==> d[i] == SumOfSquares(alpha[i], beta[i]))
    }

    /** The loop's first test: a flat segment or a vanishing ratio. */
    predicate Flat(i: nat)
      requires Valid() && i < |delta|
    {
      dy[i] == 0.0 || alpha[i] == 0.0 || beta[i] == 0.0
    }

    /** Iteration `i` of the limiter loop, applied to the tangents `m`. The
        ratios were taken from the initial tangents, not from `m`. */
    function Step(m: seq<real>, i: nat, root: real -> real): (m': seq<real>)
      requires Valid() && IsSqrt(root) && |m| == |x| && i < |delta|
      ensures |m'| == |m|
    {
      if dy[i] == 0.0 || alpha[i] == 0.0 || beta[i] == 0.0 then
        m[i := 0.0][i + 1 := 0.0]
      else if d[i] > 9.0 then
        var tau := 3.0 / root(d[i]);
        m[i := tau * alpha[i] * delta[i]][i + 1 := tau * beta[i] * delta[i]]
      else
        m
    }

    /** The tangents after iterations 0 .. k-1 of the limiter loop. */
    function Limited(k: nat, root: real -> real): (m: seq<real>)
      requires Valid() && IsSqrt(root) && k <= |delta|
      ensures |m| == |x|
    {
      if k == 0 then m0 else Step(Limited(k - 1, root), k - 1, root)
    }

    /** The tangents once the loop is over. */
    function Tangents(root: real -> real): (m: seq<real>)
      requires Valid() && IsSqrt(root)
      ensures |m| == |x|
    {
      Limited(|delta|, root)
    }
  }

  /** `delta = dy/dx`. Where every width is positive, a secant vanishes
      exactly on a flat step. */
  function Secants(dy: seq<real>, dx: seq<real>): (delta: seq<real>)
    requires |dy| == |dx|
    requires forall i :: 0 <= i < |dx| ==> dx[i] > 0.0
    ensures |delta| == |dx|
    ensures forall i :: 0 <= i < |delta| ==> (delta[i] == 0.0 <==> dy[i] == 0.0)
  {
    var delta := seq(|dx|, i requires 0 <= i < |dx| => dy[i] / dx[i]);
    assert forall i :: 0 <= i < |dx| ==> delta[i] * dx[i] == dy[i];
    delta
  }

  /** `hstack((0, (delta[1:]+delta[:-1])/2, 0))`: each interior knot takes the
      mean of its two secants, and both synthetic knots get 0. */
  function InitialTangents(delta: seq<real>): (m0: seq<real>)
    requires |delta| >= 1
    ensures |m0| == |delta| + 1 && m0[0] == 0.0 && m0[|delta|] == 0.0
  {
    [0.0] + seq(|delta| - 1, k requires 0 <= k < |delta| - 1 => (delta[k + 1] + delta[k]) / 2.0) + [0.0]
  }

  /** `m[:-1]/delta` (`alpha`, shift 0) and `m[1:]/delta` (`beta`, shift 1). */
  function Ratios(m: seq<real>, delta: seq<real>, shift: nat): (r: seq<real>)
    requires shift <= 1 && |m| == |delta| + 1
    ensures |r| == |delta|
    ensures forall i :: 0 <= i < |r| ==> r[i] == Ratio(m[i + shift], delta[i])
  {
    seq(|delta|, i requires 0 <= i < |delta| => Ratio(m[i + shift], delta[i]))
  }

  function SumOfSquares(a: real, b: real): real
  {
    a * a + b * b
  }

  /** `d = alpha**2 + beta**2`. */
  function SquareSums(alpha: seq<real>, beta: seq<real>): (d: seq<real>)
    requires |alpha| == |beta|
    ensures |d| == |alpha|
    ensures forall i :: 0 <= i < |d| ==> d[i] == SumOfSquares(alpha[i], beta[i])
  {
    seq(|alpha|, i requires 0 <= i < |alpha| => SumOfSquares(alpha[i], beta[i]))
  }

  /** The widened knots of strictly increasing positions are strictly increasing. */
  lemma WidenIncreasing(x: seq<real>)
    requires |x| >= 1 && Increasing(x)
    ensures Increasing(Widen(x))
  {
    var xe := Widen(x);
    forall i, j | 0 <= i < j < |xe|
      ensures xe[i] < xe[j]
    {
      if i > 0 && j < |xe| - 1 {
        assert xe[i] == x[i - 1] && xe[j] == x[j - 1];
      } else if i == 0 {
        assert x[0] <= xe[j];
      } else {
        assert xe[i] <= x[|x| - 1];
      }
    }
  }

  /** The secants, initial tangents and ratios of widened knots `xe` and
      values `ye`. */
  function Derive(xe: seq<real>, ye: seq<real>): (f: Fit)
    requires |xe| == |ye| >= 3 && Increasing(xe)
    ensures f.Valid() && f.Derived()
    ensures f.x == xe && f.y == ye
  {
    var dx := Diff(xe);
    var dy := Diff(ye);
    assert forall i :: 0 <= i < |dx| ==> dx[i] > 0.0;
    var delta := Secants(dy, dx);
    var m0 := InitialTangents(delta);
    var alpha := Ratios(m0, delta, 0);
    var beta := Ratios(m0, delta, 1);
    var d := SquareSums(alpha, beta);
    Fit(xe, ye, dy, delta, m0, alpha, beta, d)
  }

  /** Lines 257-265 of `monospline`: widen the knots, take secants and the
      averaged tangents, with 0 at both synthetic ends, and their ratios. */
  function Prepare(x: seq<real>, y: seq<real>): (f: Fit)
    requires |x| == |y| >= 1 && Increasing(x)
    ensures f.Valid() && f.Derived()
    ensures f.x == Widen(x) && f.y == Pad(y)
    ensures f.dy[0] == 0.0 && f.dy[|x|] == 0.0
  {
    WidenIncreasing(x);
    Derive(Widen(x), Pad(y))
  }

  /** The Hermite cubic on one segment of width `h`, at offset `v` from its
      left knot, in the Horner form of `hermite`. */
  function Cubic(y0: real, y1: real, m0: real, m1: real, h: real, v: real): real
    requires h != 0.0
  {
    var s := (y1 - y0) / h;
    var c3 := (m0 + m1 - 2.0 * s) / (h * h);
    var c2 := (3.0 * s - 2.0 * m0 - m1) / h;
    ((c3 * v + c2) * v + m0) * v + y0
  }

  /** `searchsorted(x[1:-1], t)`: the segment `hermite` evaluates, which
      always has a right knot inside the widened arrays. */
  function SegmentIndex(xe: seq<real>, t: real): (idx: nat)
    requires |xe| >= 3
    ensures idx + 1 <= |xe| - 1
    ensures forall j :: 1 <= j <= idx ==> xe[j] < t
    ensures idx + 1 < |xe| - 1 ==> xe[idx + 1] >= t
  {
    var inner := xe[1..|xe| - 1];
    assert forall j :: 1 <= j < |xe| - 1 ==> xe[j] == inner[j - 1];
    SearchLeft(inner, t)
  }

  /** The width of segment `idx`, floored at 1e-10. */
  function Width(xe: seq<real>, idx: nat): (h: real)
    requires idx + 1 < |xe|
    ensures h >= WidthFloor
  {
    if xe[idx + 1] - xe[idx] <= WidthFloor then WidthFloor else xe[idx + 1] - xe[idx]
  }

  /** `hermite` at one query position. */
  function HermiteAt(xe: seq<real>, ye: seq<real>, m: seq<real>, t: real): real
    requires |xe| == |ye| == |m| >= 3
  {
    var idx := SegmentIndex(xe, t);
    Cubic(ye[idx], ye[idx + 1], m[idx], m[idx + 1], Width(xe, idx), t - xe[idx])
  }

  /** `hermite` over a vector of query positions. */
  function Hermite(xe: seq<real>, ye: seq<real>, m: seq<real>, xt: seq<real>): (r: seq<real>)
    requires |xe| == |ye| == |m| >= 3
    ensures |r| == |xt|
  {
    seq(|xt|, k requires 0 <= k < |xt| => HermiteAt(xe, ye, m, xt[k]))
  }

  /** What `monospline(x, y, [t])` returns. */
  function InterpolantAt(x: seq<real>, y: seq<real>, root: real -> real, t: real): real
    requires |x| == |y| >= 1 && Increasing(x) && IsSqrt(root)
  {
    var f := Prepare(x, y);
    HermiteAt(f.x, f.y, f.Tangents(root), t)
  }

  /** What `monospline(x, y, xt)` returns. */
  function Interpolant(x: seq<real>, y: seq<real>, root: real -> real, xt: seq<real>): (r: seq<real>)
    requires |x| == |y| >= 1 && Increasing(x) && IsSqrt(root)
    ensures |r| == |xt|
  {
    seq(|xt|, k requires 0 <= k < |xt| => InterpolantAt(x, y, root, xt[k]))
  }

  /** One pass of the loop body at lines 268-273, on the tangent array. */
  method StepInPlace(f: Fit, m: array<real>, i: nat, root: real -> real)
    requires f.Valid() && IsSqrt(root) && m.Length == |f.x| && i < |f.delta|
    modifies m
    ensures m[..] == f.Step(old(m[..]), i, root)
  {
    if f.dy[i] == 0.0 || f.alpha[i] == 0.0 || f.beta[i] == 0.0 {
      m[i] := 0.0;
      m[i + 1] := 0.0;
    } else if f.d[i] > 9.0 {
      var tau := 3.0 / root(f.d[i]);
      m[i] := tau * f.alpha[i] * f.delta[i];
      m[i + 1] := tau * f.beta[i] * f.delta[i];
      assert f.Step(old(m[..]), i, root)[i] == m[i];
      assert f.Step(old(m[..]), i, root)[i + 1] == m[i + 1];
    }
  }

  /** Lines 267-273 of `monospline`: the loop rewrites the tangent array in
      place, reading the ratios computed before it. */
  method Limit(f: Fit, root: real -> real) returns (tangents: seq<real>)
    requires f.Valid() && IsSqrt(root)
    ensures tangents == f.Tangents(root)
  {
    var m := new real[|f.m0|](i requires 0 <= i < |f.m0| => f.m0[i]);
    assert m[..] == f.Limited(0, root);
    for i := 0 to m.Length - 1
      invariant m[..] == f.Limited(i, root)
    {
      StepInPlace(f, m, i, root);
    }
    tangents := m[..];
  }

  /** `monospline`: derive the secants and initial tangents, limit the
      tangents, then evaluate the cubic pieces at the query positions. */
  method Monospline(x: seq<real>, y: seq<real>, xt: seq<real>, root: real -> real) returns (r: seq<real>)
    requires |x| == |y| >= 1 && Increasing(x) && IsSqrt(root)
    ensures r == Interpolant(x, y, root, xt)
  {
    var f := Prepare(x, y);
    var m := Limit(f, root);
    r := Hermite(f.x, f.y, m, xt);
  }
}
