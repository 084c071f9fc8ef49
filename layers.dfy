/** The three freeform layers of refl1d/mono.py: `FreeLayer`, whose SLD runs
    through control points, and the two monotone interfaces `FreeInterfaceW`
    and `FreeInterface`, which blend the SLDs of the layers below and above
    along a cumulative volume fraction. Parameters are plain reals; the
    neighbours' SLDs and the microslab grid are inputs. */
module Layers {
  import opened Cumulative
  import opened Search
  import opened Spline
  import opened Inflections
  import opened Slabs

  datatype Option<T> = None | Some(value: T)

  /** The `ValueError`s the constructors and the thickness setter raise, and
      the `ZeroDivisionError` of `10./len(dp)` on an empty `dp`. */
  datatype ConfigError = OneZPerRho | OneZPerIrho | OneDzPerDp | DivisionByZero | ThicknessNotSettable

  datatype Result<T> = Ok(value: T) | Err(error: ConfigError)

  /** A neighbouring layer's `sld(probe)`: real and imaginary SLD. */
  datatype Sld = Sld(rho: real, irho: real)

  // ---------------------------------------------------------------------------
  // Array helpers

  /** `[c]*n`. */
  function Fill(n: nat, c: real): (s: seq<real>)
    ensures |s| == n
    ensures forall i :: 0 <= i < n ==> s[i] == c
  {
    seq(n, _ => c)
  }

  /** `n` copies of `c` add up to `n * c`. */
  lemma {:induction false} SumFill(n: nat, c: real)
    ensures Sum(Fill(n, c)) == n as real * c
  {
    if n > 0 {
      assert Fill(n, c)[..n - 1] == Fill(n - 1, c);
      SumFill(n - 1, c);
    }
  }

  /** `hstack((a, s, b))`. */
  function Bracket(a: real, s: seq<real>, b: real): (r: seq<real>)
    ensures |r| == |s| + 2 && r[0] == a && r[|s| + 1] == b && r[1..|s| + 1] == s
  {
    [a] + s + [b]
  }

  /** `s / c`, element-wise. */
  function Divided(s: seq<real>, c: real): (r: seq<real>)
    requires c != 0.0
    ensures |r| == |s|
    ensures forall i :: 0 <= i < |s| ==> r[i] * c == s[i]
  {
    seq(|s|, i requires 0 <= i < |s| => s[i] / c)
  }

  /** `s * c`, element-wise. */
  function Scaled(s: seq<real>, c: real): (r: seq<real>)
    ensures |r| == |s|
    ensures forall i :: 0 <= i < |s| ==> r[i] == Times(s[i], c)
  {
    seq(|s|, i requires 0 <= i < |s| => Times(s[i], c))
  }

  function Times(a: real, b: real): real
  {
    a * b
  }

  /** `s[-1]`, or 1 where it is zero: the `if p[-1] == 0: p[-1] = 1` patch. */
  function Divisor(s: seq<real>): (c: real)
    requires |s| >= 1
    ensures c != 0.0
    ensures s[|s| - 1] != 0.0 ==> c == s[|s| - 1]
  {
    if s[|s| - 1] == 0.0 then 1.0 else s[|s| - 1]
  }

  /** The patched array itself. */
  function Patched(s: seq<real>): (r: seq<real>)
    requires |s| >= 1
    ensures |r| == |s| && r[..|s| - 1] == s[..|s| - 1] && r[|s| - 1] == Divisor(s)
  {
    s[|s| - 1 := Divisor(s)]
  }

  /** `if p[-1] == 0: p[-1] = 1; p /= p[-1]`, as `FreeInterfaceW` normalises. */
  function Normalized(s: seq<real>): (p: seq<real>)
    requires |s| >= 1
    ensures |p| == |s| && p[|s| - 1] == 1.0
  {
    Divided(Patched(s), Divisor(s))
  }

  /** `if p[-1] == 0: p[-1] = 1; p *= 1/p[-1]`, as `FreeInterface` normalises. */
  function Reciprocated(s: seq<real>): (p: seq<real>)
    requires |s| >= 1
    ensures |p| == |s|
  {
    Scaled(Patched(s), 1.0 / Divisor(s))
  }

  /** `a /= c` on an array in place. */
  method DivideInPlace(a: array<real>, c: real)
    requires c != 0.0
    modifies a
    ensures a[..] == Divided(old(a[..]), c)
  {
    ghost var a0 := a[..];
    for i := 0 to a.Length
      invariant a[..i] == Divided(a0[..i], c)
      invariant a[i..] == a0[i..]
    {
      assert a[i] == a0[i];
      a[i] := a[i] / c;
      assert a[..i + 1] == a[..i] + [a[i]];
      assert a0[..i + 1] == a0[..i] + [a0[i]];
    }
    assert a0[..a.Length] == a0;
  }

  /** `a *= c` on an array in place. */
  method ScaleInPlace(a: array<real>, c: real)
    modifies a
    ensures a[..] == Scaled(old(a[..]), c)
  {
    ghost var a0 := a[..];
    for i := 0 to a.Length
      invariant a[..i] == Scaled(a0[..i], c)
      invariant a[i..] == a0[i..]
    {
      assert a[i] == a0[i];
      a[i] := Times(a[i], c);
      assert a[..i + 1] == a[..i] + [a[i]];
      assert a0[..i + 1] == a0[..i] + [a0[i]];
    }
    assert a0[..a.Length] == a0;
  }

  /** `if p[-1] == 0: p[-1] = 1; p /= p[-1]` on the array. */
  method NormalizeInPlace(p: array<real>)
    requires p.Length >= 1
    modifies p
    ensures p[..] == Normalized(old(p[..]))
  {
    ghost var p0 := p[..];
    var n := p.Length - 1;
    if p[n] == 0.0 {
      p[n] := 1.0;
    }
    assert p[..] == Patched(p0);
    DivideInPlace(p, p[n]);
  }

  /** `if p[-1] == 0: p[-1] = 1; p *= 1/p[-1]` on the array. */
  method ReciprocateInPlace(p: array<real>)
    requires p.Length >= 1
    modifies p
    ensures p[..] == Reciprocated(old(p[..]))
  {
    ghost var p0 := p[..];
    var n := p.Length - 1;
    if p[n] == 0.0 {
      p[n] := 1.0;
    }
    assert p[..] == Patched(p0);
    ScaleInPlace(p, 1.0 / p[n]);
  }

  /** A fresh array holding `s`. */
  method ToArray(s: seq<real>) returns (a: array<real>)
    ensures fresh(a) && a[..] == s
  {
    a := new real[|s|](i requires 0 <= i < |s| => s[i]);
  }

  // ---------------------------------------------------------------------------
  // Interface slabs

  /** `(1-f)*left + f*right`: the SLD at volume fraction `f` of the upper layer. */
  function Mix(left: real, right: real, f: real): real
  {
    (1.0 - f) * left + f * right
  }

  /** The blended SLD over a whole fraction profile. */
  function Blend(profile: seq<real>, left: real, right: real): (r: seq<real>)
    ensures |r| == |profile|
    ensures forall i :: 0 <= i < |r| ==> r[i] == Mix(left, right, profile[i])
  {
    seq(|profile|, i requires 0 <= i < |profile| => Mix(left, right, profile[i]))
  }

  /** `lidx`, the first grid point whose fraction reaches 1%. */
  function LowerCrossing(profile: seq<real>): (lidx: nat)
    ensures lidx <= |profile|
  {
    SearchLeft(profile, 0.01)
  }

  /** `ridx`: the first grid point whose fraction reaches 99%, clamped to the
      last grid point. */
  function UpperCrossing(profile: seq<real>): (ridx: nat)
    requires |profile| >= 1
    ensures ridx <= |profile| - 1
    ensures LowerCrossing(profile) < |profile| ==> LowerCrossing(profile) <= ridx
  {
    SearchLeftMonotone(profile, 0.01, 0.99);
    var r := SearchLeft(profile, 0.99);
    if r < |profile| - 1 then r else |profile| - 1
  }

  /** The three records an interface render appends, in order: the layer
      below up to the 1% crossing, the blended microslabs between the
      crossings, and the layer above carrying the interface roughness. */
  function InterfaceSlabs(profile: seq<real>, below: Sld, above: Sld, grid: Grid,
                          thickness: real, interface: real): (slabs: seq<Extent>)
    requires grid.Valid() && |profile| == |grid.z|
    requires LowerCrossing(profile) < |grid.z|
    ensures |slabs| == 3
  {
    var lidx, ridx := LowerCrossing(profile), UpperCrossing(profile);
    [Extent([below.rho], [below.irho], [grid.z[lidx]], 0.0),
     Extent(Blend(profile, below.rho, above.rho)[lidx..ridx],
            Blend(profile, below.irho, above.irho)[lidx..ridx],
            grid.w[lidx..ridx], 0.0),
     Extent([above.rho], [above.irho], [thickness - grid.z[ridx]], interface)]
  }

  /** Lines 129-139 (and 204-214): locate the crossings and append the three
      records. */
  method WriteInterface(buf: SlabBuffer, profile: seq<real>, below: Sld, above: Sld, grid: Grid,
                        thickness: real, interface: real)
    requires grid.Valid() && |profile| == |grid.z|
    requires LowerCrossing(profile) < |grid.z|
    modifies buf
    ensures buf.written == old(buf.written) + InterfaceSlabs(profile, below, above, grid, thickness, interface)
  {
    var lidx := SearchLeft(profile, 0.01);
    var ridx := SearchLeft(profile, 0.99);
    ridx := if ridx < |profile| - 1 then ridx else |profile| - 1;
    var prho := Blend(profile, below.rho, above.rho);
    var pirho := Blend(profile, below.irho, above.irho);
    buf.Extend(Extent([below.rho], [below.irho], [grid.z[lidx]], 0.0));
    buf.Extend(Extent(prho[lidx..ridx], pirho[lidx..ridx], grid.w[lidx..ridx], 0.0));
    buf.Extend(Extent([above.rho], [above.irho], [thickness - grid.z[ridx]], interface));
  }

  // ---------------------------------------------------------------------------
  // FreeLayer

  /** A spline-controlled SLD section: control values `rho`/`irho` at
      optional depths `rhoz`/`irhoz`. */
  datatype FreeLayer = FreeLayer(thickness: real, rho: seq<real>, irho: seq<real>,
                                 rhoz: seq<real>, irhoz: seq<real>)
  {
    /** What the constructor checks: each z list is empty or matches its values. */
    predicate Valid()
    {
      (|rhoz| == 0 || |rhoz| == |rho|) && (|irhoz| == 0 || |irhoz| == |irho|)
    }

    /** What `monospline(rho, rhoz, Pz)` needs: one z per value (the
        documented default spacing does not exist in the code) and the
        bracketed SLD knots strictly increasing. */
    predicate RhoRenderable(left: Sld, right: Sld)
    {
      |rhoz| == |rho| && Increasing(Bracket(left.rho, rho, right.rho))
    }

    /** The same for `monospline(irho, irhoz, Pz)`. */
    predicate IrhoRenderable(left: Sld, right: Sld)
    {
      |irhoz| == |irho| && Increasing(Bracket(left.irho, irho, right.irho))
    }

    /** `monospline(rho, rhoz, Pz)` exactly as called: the bracketed SLDs are
        the knot positions and the bracketed depths `[0, rhoz, 1]` the values. */
    function RhoProfile(left: Sld, right: Sld, depths: seq<real>, root: real -> real): (r: seq<real>)
      requires RhoRenderable(left, right) && IsSqrt(root)
      ensures |r| == |depths|
    {
      Interpolant(Bracket(left.rho, rho, right.rho), Bracket(0.0, rhoz, 1.0), root, depths)
    }

    /** `monospline(irho, irhoz, Pz)`, with the same argument order. */
    function IrhoProfile(left: Sld, right: Sld, depths: seq<real>, root: real -> real): (r: seq<real>)
      requires IrhoRenderable(left, right) && IsSqrt(root)
      ensures |r| == |depths|
    {
      Interpolant(Bracket(left.irho, irho, right.irho), Bracket(0.0, irhoz, 1.0), root, depths)
    }

    /** `render`: one record spanning the whole layer. */
    method Render(left: Sld, right: Sld, grid: Grid, buf: SlabBuffer, root: real -> real)
      requires RhoRenderable(left, right) && IrhoRenderable(left, right) && IsSqrt(root)
      modifies buf
      ensures buf.written == old(buf.written) +
        [Extent(RhoProfile(left, right, grid.z, root), IrhoProfile(left, right, grid.z, root), grid.w, 0.0)]
    {
      var rhoKnots := Bracket(left.rho, rho, right.rho);
      var rhoValues := Bracket(0.0, rhoz, 1.0);
      var prho := Monospline(rhoKnots, rhoValues, grid.z, root);
      var irhoKnots := Bracket(left.irho, irho, right.irho);
      var irhoValues := Bracket(0.0, irhoz, 1.0);
      var pirho := Monospline(irhoKnots, irhoValues, grid.z, root);
      buf.Extend(Extent(prho, pirho, grid.w, 0.0));
    }
  }

  /** `FreeLayer.__init__`: the z lists are checked against their values, rho first. */
  function NewFreeLayer(thickness: real, rho: seq<real>, irho: seq<real>,
                        rhoz: seq<real>, irhoz: seq<real>): (r: Result<FreeLayer>)
    ensures r.Ok? <==> FreeLayer(thickness, rho, irho, rhoz, irhoz).Valid()
    ensures r.Ok? ==> r.value == FreeLayer(thickness, rho, irho, rhoz, irhoz)
    ensures r.Err? ==> r.error == (if |rhoz| > 0 && |rhoz| != |rho| then OneZPerRho else OneZPerIrho)
  {
    if |rhoz| > 0 && |rhoz| != |rho| then Err(OneZPerRho)
    else if |irhoz| > 0 && |irhoz| != |irho| then Err(OneZPerIrho)
    else Ok(FreeLayer(thickness, rho, irho, rhoz, irhoz))
  }

  // ---------------------------------------------------------------------------
  // FreeInterfaceW

  /** An interface whose width is the sum of its depth steps `dz`; `dp` are
      the volume-fraction steps. */
  datatype FreeInterfaceW = FreeInterfaceW(interface: real, dz: seq<real>, dp: seq<real>)
  {
    predicate Valid()
    {
      |dz| == |dp|
    }

    /** The `thickness` property: `sum(dz)`, the last cumulative depth. */
    function Thickness(): (t: real)
      ensures t == Running(dz)[|dz|]
      ensures (forall i :: 0 <= i < |dz| ==> dz[i] >= 0.0) ==> t >= 0.0
    {
      if forall i :: 0 <= i < |dz| ==> dz[i] >= 0.0 then
        RunningNonDecreasing(dz);
        Sum(dz)
      else
        Sum(dz)
    }

    /** Assigning `thickness`: a no-op for 0, an error for anything else. */
    function SetThickness(v: real): (r: Result<FreeInterfaceW>)
      ensures r.Ok? <==> v == 0.0
      ensures r.Ok? ==> r.value == this
      ensures r.Err? ==> r.error == ThicknessNotSettable
    {
      if v != 0.0 then Err(ThicknessNotSettable) else Ok(this)
    }

    /** What `render` needs: one dz per dp and strictly positive depth steps,
        so that the cumulative depths are strictly increasing knots. */
    predicate Renderable()
    {
      Valid() && forall i :: 0 <= i < |dz| ==> dz[i] > 0.0
    }

    /** `z`: the cumulative depths, from 0. */
    function Depths(): (z: seq<real>)
      ensures |z| == |dz| + 1 && z[0] == 0.0
    {
      Running(dz)
    }

    /** `p`: the cumulative fractions, normalised to end at 1. */
    function Fractions(): (p: seq<real>)
      ensures |p| == |dp| + 1 && p[|dp|] == 1.0
    {
      Normalized(Running(dp))
    }

    /** `monospline(z, p, Pz)`. */
    function Profile(depths: seq<real>, root: real -> real): (r: seq<real>)
      requires Renderable() && IsSqrt(root)
      ensures |r| == |depths|
    {
      RunningIncreasing(dz);
      Interpolant(Depths(), Fractions(), root, depths)
    }

    /** Lines 121-128 of `render`: the cumulative depths and normalised
        fractions, the fractions normalised in place, interpolated over the
        grid positions. */
    method ComputeProfile(depths: seq<real>, root: real -> real) returns (profile: seq<real>)
      requires Renderable() && IsSqrt(root)
      ensures profile == Profile(depths, root)
    {
      var z := Running(dz);
      var p := ToArray(Running(dp));
      NormalizeInPlace(p);
      RunningIncreasing(dz);
      profile := Monospline(z, p[..], depths, root);
    }

    /** `render`: interpolate the fractions over the grid and write the three
        interface records. */
    method Render(below: Sld, above: Sld, grid: Grid, buf: SlabBuffer, root: real -> real)
      requires Renderable() && IsSqrt(root) && grid.Valid()
      requires LowerCrossing(Profile(grid.z, root)) < |grid.z|
      modifies buf
      ensures buf.written == old(buf.written) +
        InterfaceSlabs(Profile(grid.z, root), below, above, grid, Thickness(), interface)
    {
      var profile := ComputeProfile(grid.z, root);
      WriteInterface(buf, profile, below, above, grid, Running(dz)[|dz|], interface);
    }
  }

  /** The fraction steps after defaulting: `dp` if given, else ones, five of
      them when `dz` is missing too. */
  function DefaultFractionSteps(dz: Option<seq<real>>, dp: Option<seq<real>>): (dp': seq<real>)
    ensures dp.Some? ==> dp' == dp.value
    ensures dp.None? ==> dp' == Fill(if dz.Some? then |dz.value| else 5, 1.0)
  {
    if dp.None? && dz.None? then Fill(5, 1.0) else if dp.None? then Fill(|dz.value|, 1.0) else dp.value
  }

  /** `[10./n]*n`: `n` equal depth steps adding up to 10. */
  function EvenDepthSteps(n: nat): (dz: seq<real>)
    requires n > 0
    ensures |dz| == n && Sum(dz) == 10.0
    ensures forall i :: 0 <= i < n ==> dz[i] == dz[0]
  {
    SumFill(n, 10.0 / n as real);
    Fill(n, 10.0 / n as real)
  }

  /** `FreeInterfaceW.__init__` with its defaults: neither list gives five
      unit fraction steps; a missing `dp` is ones; a missing `dz` spreads a
      total depth of 10 evenly over the fraction steps. */
  function NewFreeInterfaceW(interface: real, dz: Option<seq<real>>, dp: Option<seq<real>>): (r: Result<FreeInterfaceW>)
    ensures r.Ok? <==>
      (dz.Some? || dp.None? || |dp.value| > 0) &&
      (dz.Some? && dp.Some? ==> |dz.value| == |dp.value|)
    ensures r.Err? && dz.None? ==> r.error == DivisionByZero
    ensures r.Err? && dz.Some? ==> r.error == OneDzPerDp
    ensures r.Ok? ==> r.value.Valid() && r.value.interface == interface
    ensures r.Ok? && dz.Some? ==> r.value.dz == dz.value
    ensures r.Ok? ==> r.value.dp == DefaultFractionSteps(dz, dp)
    ensures r.Ok? && dz.None? ==>
      r.value.Thickness() == 10.0 && forall i :: 0 <= i < |r.value.dz| ==> r.value.dz[i] == r.value.dz[0]
  {
    var dp' := DefaultFractionSteps(dz, dp);
    if dz.None? && |dp'| == 0 then Err(DivisionByZero)
    else
      var dz' := if dz.None? then EvenDepthSteps(|dp'|) else dz.value;
      if |dz'| != |dp'| then Err(OneDzPerDp)
      else Ok(FreeInterfaceW(interface, dz', dp'))
  }

  // ---------------------------------------------------------------------------
  // FreeInterface

  /** An interface of given `thickness`; the depth steps `dz` are relative
      and rescaled to that thickness when rendering. */
  datatype FreeInterface = FreeInterface(thickness: real, interface: real, dz: seq<real>, dp: seq<real>)
  {
    predicate Valid()
    {
      |dz| == |dp|
    }

    /** What `render` needs: matching lengths, positive depth steps and
        thickness (so that the rescaled depths are strictly increasing
        knots) and a non-zero `z[-1]`, which the source does not check. */
    predicate Renderable()
    {
      Valid() && thickness > 0.0 && |dz| >= 1 && forall i :: 0 <= i < |dz| ==> dz[i] > 0.0
    }

    /** `z *= thickness/z[-1]`: the cumulative depths stretched to the thickness. */
    function Depths(): (z: seq<real>)
      requires Sum(dz) != 0.0
      ensures |z| == |dz| + 1
    {
      Scaled(Running(dz), thickness / Sum(dz))
    }

    /** `p *= 1/p[-1]` after the zero patch. */
    function Fractions(): (p: seq<real>)
      ensures |p| == |dp| + 1
    {
      Reciprocated(Running(dp))
    }

    /** The `inflections` parameter: inflections of the cumulative profile. */
    function Inflections(): (n: nat)
      requires Valid() && ChordsDefined(Running(dz))
      ensures |dz| < 3 ==> n == 0
    {
      InflectionsOf(dz, dp)
    }

    /** `monospline(z, p, Pz)`. */
    function Profile(depths: seq<real>, root: real -> real): (r: seq<real>)
      requires Renderable() && IsSqrt(root)
      ensures |r| == |depths|
    {
      KnotsIncrease();
      Interpolant(Depths(), Fractions(), root, depths)
    }

    /** The stretched depths are strictly increasing knots. */
    lemma KnotsIncrease()
      requires Renderable()
      ensures Sum(dz) > 0.0 && Increasing(Depths())
    {
      RunningIncreasing(dz);
      RunningNonDecreasing(dz);
      assert Running(dz)[0] < Running(dz)[|dz|];
      ScaledIncreasing(Running(dz), thickness / Sum(dz));
    }

    /** Lines 196-203 of `render`: the normalised fractions and the depths
        stretched to the thickness, both in place, interpolated over the grid
        positions. */
    method ComputeProfile(depths: seq<real>, root: real -> real) returns (profile: seq<real>)
      requires Renderable() && IsSqrt(root)
      ensures profile == Profile(depths, root)
    {
      var z := ToArray(Running(dz));
      var p := ToArray(Running(dp));
      ReciprocateInPlace(p);
      KnotsIncrease();
      assert z[z.Length - 1] == Sum(dz);
      ScaleInPlace(z, thickness / z[z.Length - 1]);
      profile := Monospline(z[..], p[..], depths, root);
    }

    /** `render`: interpolate over the grid and write the three interface
        records. */
    method Render(below: Sld, above: Sld, grid: Grid, buf: SlabBuffer, root: real -> real)
      requires Renderable() && IsSqrt(root) && grid.Valid()
      requires LowerCrossing(Profile(grid.z, root)) < |grid.z|
      modifies buf
      ensures buf.written == old(buf.written) +
        InterfaceSlabs(Profile(grid.z, root), below, above, grid, thickness, interface)
    {
      var profile := ComputeProfile(grid.z, root);
      WriteInterface(buf, profile, below, above, grid, thickness, interface);
    }
  }

  /** Scaling by a positive factor keeps knots strictly increasing. */
  lemma ScaledIncreasing(s: seq<real>, c: real)
    requires Increasing(s) && c > 0.0
    ensures Increasing(Scaled(s, c))
  {
    forall i, j | 0 <= i < j < |s|
      ensures Times(s[i], c) < Times(s[j], c)
    {
      assert s[i] < s[j];
      assert (s[j] - s[i]) * c > 0.0;
    }
  }

  /** `FreeInterface.__init__` with its defaults: neither list gives five
      unit steps of each; a missing list is ones matching the other. */
  function NewFreeInterface(thickness: real, interface: real,
                            dz: Option<seq<real>>, dp: Option<seq<real>>): (r: Result<FreeInterface>)
    ensures r.Ok? <==> (dz.Some? && dp.Some? ==> |dz.value| == |dp.value|)
    ensures r.Err? ==> r.error == OneDzPerDp
    ensures r.Ok? ==> r.value.Valid() && r.value.thickness == thickness && r.value.interface == interface
    ensures r.Ok? && dz.Some? ==> r.value.dz == dz.value
    ensures r.Ok? && dp.Some? ==> r.value.dp == dp.value
    ensures r.Ok? && dz.None? ==> r.value.dz == Fill(|r.value.dp|, 1.0)
    ensures r.Ok? && dp.None? ==> r.value.dp == Fill(|r.value.dz|, 1.0)
    ensures r.Ok? && dz.None? && dp.None? ==> |r.value.dz| == 5
  {
    var dp' := DefaultFractionSteps(dz, dp);
    var dz' := if dz.None? then Fill(|dp'|, 1.0) else dz.value;
    if |dz'| != |dp'| then Err(OneDzPerDp) else Ok(FreeInterface(thickness, interface, dz', dp'))
  }
}
