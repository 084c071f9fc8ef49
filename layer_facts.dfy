/** What the render rules of refl1d/mono.py guarantee: the shape of the
    volume-fraction knots, the stretched depths, where the interface records
    start and stop, and what `FreeLayer.render` computes given the order in
    which it passes its arguments to `monospline`. */
module LayerFacts {
  import opened Cumulative
  import opened Search
  import opened Spline
  import opened SplineFacts
  import opened Slabs
  import opened Layers

  /** A volume-fraction profile: from 0 to 1, never decreasing. */
  predicate FractionShape(p: seq<real>)
  {
    |p| >= 2 && p[0] == 0.0 && p[|p| - 1] == 1.0 &&
    forall a, b :: 0 <= a <= b < |p| ==> 0.0 <= p[a] <= p[b] <= 1.0
  }

  /** Dividing both sides of an order by a positive divisor keeps it. */
  lemma QuotientOrder(u: real, v: real, pu: real, pv: real, c: real)
    requires c > 0.0 && pu * c == u && pv * c == v && u <= v
    ensures pu <= pv
  {
    assert pu == u / c && pv == v / c;
  }

  /** A quotient is unique. */
  lemma SameQuotient(u: real, pu: real, pv: real, c: real)
    requires c != 0.0 && pu * c == u && pv * c == u
    ensures pu == pv
  {
    assert pu == u / c && pv == u / c;
  }

  /** Every normalised knot but the last is its running sum over the divisor. */
  lemma NormalizedEntries(s: seq<real>)
    requires |s| >= 1
    ensures forall i :: 0 <= i < |s| - 1 ==> Normalized(s)[i] * Divisor(s) == s[i]
  {
    var n := |s| - 1;
    var q := Patched(s);
    forall i | 0 <= i < n
      ensures Normalized(s)[i] * Divisor(s) == s[i]
    {
      assert q[i] == q[..n][i] == s[..n][i] == s[i];
    }
  }

  /** The normalisation shared by both interfaces turns a non-negative,
      non-decreasing running sum from 0 into a fraction profile, whether or
      not the zero-total patch applies. */
  lemma NormalizedShape(s: seq<real>)
    requires |s| >= 2 && s[0] == 0.0
    requires forall a, b :: 0 <= a <= b < |s| ==> 0.0 <= s[a] <= s[b]
    ensures FractionShape(Normalized(s))
  {
    NormalizedEntries(s);
    if s[|s| - 1] == 0.0 {
      NormalizedZeroTotal(s);
    } else {
      NormalizedPositiveTotal(s);
    }
  }

  /** A zero total: the patch divides by 1, so every knot but the last stays 0. */
  lemma NormalizedZeroTotal(s: seq<real>)
    requires |s| >= 2 && s[|s| - 1] == 0.0
    requires forall a, b :: 0 <= a <= b < |s| ==> 0.0 <= s[a] <= s[b]
    ensures forall i :: 0 <= i < |s| - 1 ==> Normalized(s)[i] == 0.0
  {
    NormalizedEntries(s);
    forall i | 0 <= i < |s| - 1
      ensures Normalized(s)[i] == 0.0
    {
      assert 0.0 <= s[i] <= s[|s| - 1];
    }
  }

  /** A positive total: every knot is its running sum over the total. */
  lemma NormalizedPositiveTotal(s: seq<real>)
    requires |s| >= 2 && s[|s| - 1] != 0.0
    requires forall a, b :: 0 <= a <= b < |s| ==> 0.0 <= s[a] <= s[b]
    ensures forall a, b :: 0 <= a <= b < |s| ==> 0.0 <= Normalized(s)[a] <= Normalized(s)[b] <= 1.0
  {
    var n := |s| - 1;
    var c := s[n];
    var p := Normalized(s);
    NormalizedEntries(s);
    assert p[n] * c == s[n];
    forall a, b | 0 <= a <= b < |s|
      ensures 0.0 <= p[a] <= p[b] <= 1.0
    {
      QuotientOrder(0.0, s[a], 0.0, p[a], c);
      QuotientOrder(s[a], s[b], p[a], p[b], c);
      QuotientOrder(s[b], s[n], p[b], p[n], c);
    }
  }

  /** `p *= 1/p[-1]` and `p /= p[-1]` normalise alike. */
  lemma ReciprocatedIsNormalized(s: seq<real>)
    requires |s| >= 1
    ensures Reciprocated(s) == Normalized(s)
  {
    var c := Divisor(s);
    var q := Patched(s);
    var r, p := Reciprocated(s), Normalized(s);
    forall i | 0 <= i < |s|
      ensures r[i] == p[i]
    {
      assert r[i] == Times(q[i], 1.0 / c);
      assert r[i] * c == q[i];
      SameQuotient(q[i], r[i], p[i], c);
    }
  }

  /** With non-negative fraction steps, `FreeInterfaceW`'s knot values run
      from 0 to 1 without decreasing. */
  lemma InterfaceWFractionsShape(layer: FreeInterfaceW)
    requires |layer.dp| >= 1
    requires forall i :: 0 <= i < |layer.dp| ==> layer.dp[i] >= 0.0
    ensures FractionShape(layer.Fractions())
  {
    RunningNonDecreasing(layer.dp);
    NormalizedShape(Running(layer.dp));
  }

  /** The same for `FreeInterface`. */
  lemma InterfaceFractionsShape(layer: FreeInterface)
    requires |layer.dp| >= 1
    requires forall i :: 0 <= i < |layer.dp| ==> layer.dp[i] >= 0.0
    ensures FractionShape(layer.Fractions())
  {
    RunningNonDecreasing(layer.dp);
    ReciprocatedIsNormalized(Running(layer.dp));
    NormalizedShape(Running(layer.dp));
  }

  /** Fraction steps that are all zero: the patch leaves every knot at 0
      except the last, which jumps to 1. */
  lemma ZeroStepsJumpAtEnd(layer: FreeInterfaceW)
    requires forall i :: 0 <= i < |layer.dp| ==> layer.dp[i] == 0.0
    ensures layer.Fractions() == Fill(|layer.dp|, 0.0) + [1.0]
  {
    var s := Running(layer.dp);
    var n := |layer.dp|;
    RunningNonDecreasing(layer.dp);
    SumFill(n, 0.0);
    assert layer.dp == Fill(n, 0.0);
    var p := layer.Fractions();
    forall i | 0 <= i < n
      ensures p[i] == 0.0
    {
      assert 0.0 <= s[i] <= Sum(layer.dp);
      assert Patched(s)[i] == Patched(s)[..n][i] == s[..n][i] == s[i];
      assert p[i] * Divisor(s) == 0.0;
    }
    assert p == Fill(n, 0.0) + [1.0];
  }

  /** `FreeInterface` stretches its cumulative depths to start at 0 and end
      at its thickness, strictly increasing when it can be rendered. */
  lemma DepthsSpanThickness(layer: FreeInterface)
    requires Sum(layer.dz) != 0.0
    ensures layer.Depths()[0] == 0.0 && layer.Depths()[|layer.dz|] == layer.thickness
    ensures layer.Renderable() ==> Increasing(layer.Depths())
  {
    var c := layer.thickness / Sum(layer.dz);
    assert Times(Sum(layer.dz), c) == layer.thickness;
    if layer.Renderable() {
      layer.KnotsIncrease();
    }
  }

  /** A fraction in [0, 1] blends to a value between the two neighbours,
      0 giving the layer below and 1 the layer above. */
  lemma MixBetween(left: real, right: real, f: real)
    requires 0.0 <= f <= 1.0
    ensures left <= right ==> left <= Mix(left, right, f) <= right
    ensures right <= left ==> right <= Mix(left, right, f) <= left
    ensures f == 0.0 ==> Mix(left, right, f) == left
    ensures f == 1.0 ==> Mix(left, right, f) == right
  {
    assert Mix(left, right, f) == left + f * (right - left);
    if left <= right {
      FractionOfGap(f, right - left);
    } else {
      FractionOfGap(f, left - right);
    }
  }

  /** A fraction of a non-negative gap lies within the gap. */
  lemma FractionOfGap(f: real, d: real)
    requires 0.0 <= f <= 1.0 && d >= 0.0
    ensures 0.0 <= f * d <= d
  {
    assert f * d >= 0.0;
    assert (1.0 - f) * d >= 0.0;
  }

  /** The three interface records: the layer below, without roughness, up to
      the first grid point at 1%; the blended grid points from there up to
      (not including) the first at 99%, or the last grid point; then the
      layer above carrying the interface roughness over what remains of the
      thickness. */
  lemma InterfaceSlabsLayout(profile: seq<real>, below: Sld, above: Sld, grid: Grid,
                             thickness: real, interface: real)
    requires grid.Valid() && |profile| == |grid.z|
    requires LowerCrossing(profile) < |grid.z|
    ensures var slabs := InterfaceSlabs(profile, below, above, grid, thickness, interface);
            var lidx, ridx := LowerCrossing(profile), UpperCrossing(profile);
            (forall i :: 0 <= i < lidx ==> profile[i] < 0.01) && profile[lidx] >= 0.01 &&
            lidx <= ridx < |profile| &&
            (forall i :: 0 <= i < ridx ==> profile[i] < 0.99) &&
            (ridx < |profile| - 1 ==> profile[ridx] >= 0.99) &&
            slabs[0] == Extent([below.rho], [below.irho], [grid.z[lidx]], 0.0) &&
            slabs[2] == Extent([above.rho], [above.irho], [thickness - grid.z[ridx]], interface) &&
            slabs[1].sigma == 0.0 && slabs[1].w == grid.w[lidx..ridx] &&
            |slabs[1].rho| == |slabs[1].irho| == ridx - lidx &&
            forall k :: 0 <= k < ridx - lidx ==>
              slabs[1].rho[k] == Mix(below.rho, above.rho, profile[lidx + k]) &&
              slabs[1].irho[k] == Mix(below.irho, above.irho, profile[lidx + k])
  {
    var ridx := UpperCrossing(profile);
    var r := SearchLeft(profile, 0.99);
    assert ridx <= r;
  }

  /** On a non-decreasing profile the blended records are the grid points
      whose fraction is at least 1% and below 99%, except that the last grid
      point is never blended: the 99% crossing is clamped to it. */
  lemma BlendedPointsAreTransition(profile: seq<real>)
    requires |profile| >= 1 && LowerCrossing(profile) < |profile|
    requires forall a, b :: 0 <= a <= b < |profile| ==> profile[a] <= profile[b]
    ensures forall k :: LowerCrossing(profile) <= k < UpperCrossing(profile) ==>
      0.01 <= profile[k] < 0.99
    ensures forall k :: 0 <= k < |profile| - 1 && 0.01 <= profile[k] < 0.99 ==>
      LowerCrossing(profile) <= k < UpperCrossing(profile)
  {
    var lidx, ridx := LowerCrossing(profile), UpperCrossing(profile);
    var r := SearchLeft(profile, 0.99);
    assert ridx <= r;
    forall k | lidx <= k < ridx
      ensures 0.01 <= profile[k] < 0.99
    {
      assert profile[lidx] <= profile[k];
    }
  }

  /** `v` lies between `a` and `b`, whichever of them is larger. */
  predicate Between(v: real, a: real, b: real)
  {
    (a <= b ==> a <= v <= b) && (b <= a ==> b <= v <= a)
  }

  /** Blending a profile within [0, 1] keeps every blended record between
      the SLDs of the two neighbours, real and imaginary, whether the SLD
      rises or falls across the interface. */
  lemma BlendStaysBetween(profile: seq<real>, below: Sld, above: Sld, grid: Grid,
                          thickness: real, interface: real)
    requires grid.Valid() && |profile| == |grid.z|
    requires LowerCrossing(profile) < |grid.z|
    requires forall i :: 0 <= i < |profile| ==> 0.0 <= profile[i] <= 1.0
    ensures var middle := InterfaceSlabs(profile, below, above, grid, thickness, interface)[1];
            (forall k :: 0 <= k < |middle.rho| ==> Between(middle.rho[k], below.rho, above.rho)) &&
            (forall k :: 0 <= k < |middle.irho| ==> Between(middle.irho[k], below.irho, above.irho))
  {
    var middle := InterfaceSlabs(profile, below, above, grid, thickness, interface)[1];
    InterfaceSlabsLayout(profile, below, above, grid, thickness, interface);
    var lidx := LowerCrossing(profile);
    forall k | 0 <= k < |middle.rho|
      ensures Between(middle.rho[k], below.rho, above.rho)
      ensures Between(middle.irho[k], below.irho, above.irho)
    {
      MixBetween(below.rho, above.rho, profile[lidx + k]);
      MixBetween(below.irho, above.irho, profile[lidx + k]);
    }
  }

  /** `FreeLayer.render` hands the SLD values to `monospline` as knot
      positions and the depths `[0, rhoz, 1]` as values, and does not scale
      the grid positions: any position strictly past the SLD of the layer on
      the right yields 1, whatever the control points. */
  lemma FreeLayerPastRightSld(layer: FreeLayer, left: Sld, right: Sld,
                              depths: seq<real>, root: real -> real, k: nat)
    requires layer.RhoRenderable(left, right) && IsSqrt(root)
    requires k < |depths| && right.rho < depths[k]
    ensures layer.RhoProfile(left, right, depths, root)[k] == 1.0
  {
    var x := Bracket(left.rho, layer.rho, right.rho);
    var y := Bracket(0.0, layer.rhoz, 1.0);
    FlatPastLastKnot(x, y, root, depths[k]);
  }

  /** ... and a position equal to the SLD of the layer on the left yields 0
      when the knots are separated by more than the width floor. */
  lemma FreeLayerAtLeftSld(layer: FreeLayer, left: Sld, right: Sld,
                           depths: seq<real>, root: real -> real, k: nat)
    requires layer.RhoRenderable(left, right) && IsSqrt(root)
    requires Spaced(Bracket(left.rho, layer.rho, right.rho))
    requires k < |depths| && depths[k] == left.rho
    ensures layer.RhoProfile(left, right, depths, root)[k] == 0.0
  {
    var x := Bracket(left.rho, layer.rho, right.rho);
    var y := Bracket(0.0, layer.rhoz, 1.0);
    ExactAtKnots(x, y, root, 0);
  }

  /** A grid that starts at the left SLD and whose other points all lie past
      the right SLD gives 0 and then 1 everywhere. */
  lemma FreeLayerStepProfile(layer: FreeLayer, left: Sld, right: Sld,
                             depths: seq<real>, root: real -> real)
    requires layer.RhoRenderable(left, right) && IsSqrt(root)
    requires Spaced(Bracket(left.rho, layer.rho, right.rho))
    requires |depths| >= 1 && depths[0] == left.rho
    requires forall k :: 1 <= k < |depths| ==> right.rho < depths[k]
    ensures var r := layer.RhoProfile(left, right, depths, root);
            r[0] == 0.0 && forall k :: 1 <= k < |r| ==> r[k] == 1.0
  {
    FreeLayerAtLeftSld(layer, left, right, depths, root, 0);
    FreeLayerPastRightSlds(layer, left, right, depths, root);
  }

  /** Every grid point past the right SLD yields 1. */
  lemma FreeLayerPastRightSlds(layer: FreeLayer, left: Sld, right: Sld,
                               depths: seq<real>, root: real -> real)
    requires layer.RhoRenderable(left, right) && IsSqrt(root)
    ensures var r := layer.RhoProfile(left, right, depths, root);
            forall k :: 0 <= k < |r| && right.rho < depths[k] ==> r[k] == 1.0
  {
    forall k | 0 <= k < |depths| && right.rho < depths[k]
      ensures layer.RhoProfile(left, right, depths, root)[k] == 1.0
    {
      FreeLayerPastRightSld(layer, left, right, depths, root, k);
    }
  }

  /** The knots of the example below: SLDs 0, 2, 4, 6. */
  lemma ExampleKnots()
    ensures Bracket(0.0, [2.0, 4.0], 6.0) == [0.0, 2.0, 4.0, 6.0]
    ensures Spaced([0.0, 2.0, 4.0, 6.0]) && Increasing([0.0, 2.0, 4.0, 6.0])
  {
    SpacedIsIncreasing([0.0, 2.0, 4.0, 6.0]);
  }

  /** A 100-unit layer between SLDs 0 and 6 with control SLDs 2 and 4 at
      relative depths 0.25 and 0.75: on the grid 0, 25, 50, 75, 100 the SLD
      profile as computed is 0 and then 1 everywhere, not a curve from 0 to 6
      through 2 and 4. */
  lemma FreeLayerSwappedExample(root: real -> real)
    requires IsSqrt(root)
    ensures var layer := FreeLayer(100.0, [2.0, 4.0], [], [0.25, 0.75], []);
            layer.RhoRenderable(Sld(0.0, 0.0), Sld(6.0, 0.0)) &&
            layer.RhoProfile(Sld(0.0, 0.0), Sld(6.0, 0.0), [0.0, 25.0, 50.0, 75.0, 100.0], root)
              == [0.0, 1.0, 1.0, 1.0, 1.0]
  {
    var layer := FreeLayer(100.0, [2.0, 4.0], [], [0.25, 0.75], []);
    var left, right := Sld(0.0, 0.0), Sld(6.0, 0.0);
    var depths := [0.0, 25.0, 50.0, 75.0, 100.0];
    ExampleKnots();
    FreeLayerStepProfile(layer, left, right, depths, root);
    ZeroThenOnes(layer.RhoProfile(left, right, depths, root));
  }

  /** Five entries read 0, 1, 1, 1, 1. */
  lemma ZeroThenOnes(r: seq<real>)
    requires |r| == 5 && r[0] == 0.0 && r[1] == 1.0 && r[2] == 1.0 && r[3] == 1.0 && r[4] == 1.0
    ensures r == [0.0, 1.0, 1.0, 1.0, 1.0]
  {
  }

  /** A `FreeInterfaceW` built without `dz` is 10 thick, and when its
      fraction steps are non-negative its knots run from depth 0 to 10 with
      values from 0 to 1. */
  lemma DefaultInterfaceW(interface: real, dp: seq<real>)
    requires |dp| >= 1 && forall i :: 0 <= i < |dp| ==> dp[i] >= 0.0
    ensures NewFreeInterfaceW(interface, None, Some(dp)).Ok?
    ensures var layer := NewFreeInterfaceW(interface, None, Some(dp)).value;
            layer.Depths()[0] == 0.0 && layer.Depths()[|dp|] == 10.0 &&
            FractionShape(layer.Fractions())
  {
    var layer := NewFreeInterfaceW(interface, None, Some(dp)).value;
    InterfaceWFractionsShape(layer);
  }
}
