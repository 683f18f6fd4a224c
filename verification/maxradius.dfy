/** The outer radius recorded after empty bins have been removed. */
module MaxRadius {
  import opened Space
  import opened BinGeometry

  /** The update as the profiler writes it: extrapolate one step past the last
      nominal radius, by the last spacing in linear mode and by the last ratio
      in logarithmic mode. It reads the last two radii, so it needs two bins. */
  function MaxRadiusAsWritten(logBin: bool, radius: seq<real>): (r: real)
    requires |radius| >= 2
    requires logBin ==> radius[|radius| - 2] != 0.0
    ensures !logBin ==> r - radius[|radius| - 1] == radius[|radius| - 1] - radius[|radius| - 2]
    ensures logBin ==> r * radius[|radius| - 2] == radius[|radius| - 1] * radius[|radius| - 1]
  {
    var n := |radius|;
    if logBin then Sq(radius[n - 1]) / radius[n - 2]
    else 2.0 * radius[n - 1] - radius[n - 2]
  }

  /** In linear mode the written update lands on the nominal radius the next
      bin would have, half a bin beyond the outer edge the cells were binned
      against, even when no bin was removed. */
  lemma LinearUpdateOvershoots(rMax: real, drMin: real)
    requires rMax > 0.0 && drMin > 0.0
    requires |LinearGeometry(rMax, drMin).radius| >= 2
    ensures MaxRadiusAsWritten(false, LinearGeometry(rMax, drMin).radius)
         == LinearGeometry(rMax, drMin).maxRadius + 0.5 * drMin
  {
    var g := LinearGeometry(rMax, drMin);
    var n := |g.radius|;
    assert g.radius[n - 1] == ((n - 1) as real + 0.5) * drMin;
    assert g.radius[n - 2] == ((n - 2) as real + 0.5) * drMin;
    assert g.maxRadius == drMin * n as real;
  }

  /** The smallest instance: a requested radius of 2 with bins of width 1 gives
      radii 0.5 and 1.5 and an outer edge of 2, which the update moves to 2.5. */
  lemma LinearUpdateOvershootsExample()
    ensures LinearGeometry(2.0, 1.0).radius == [0.5, 1.5]
    ensures LinearGeometry(2.0, 1.0).maxRadius == 2.0
    ensures MaxRadiusAsWritten(false, LinearGeometry(2.0, 1.0).radius) == 2.5
  {
    var g := LinearGeometry(2.0, 1.0);
    assert 2.0 / 1.0 == 2.0;
    assert |g.radius| == 2;
  }

  /** A requested radius not above the bin width yields a single bin, fewer than
      the two radii the written update reads. */
  lemma SingleBinGeometry(rMax: real, drMin: real)
    requires 0.0 < rMax <= drMin
    ensures |LinearGeometry(rMax, drMin).radius| == 1
  {
    var n := |LinearGeometry(rMax, drMin).radius|;
    if n >= 2 {
      MulMono(1.0, (n - 1) as real, drMin);
    }
  }

  /** The outer radius as evidently intended: the right edge of the last
      remaining bin, half a bin width past its nominal radius. It needs only
      one bin. */
  function LastBinEdge(radius: seq<real>, drMin: real): (r: real)
    requires |radius| >= 1 && drMin > 0.0
    ensures r > radius[|radius| - 1]
    ensures r - radius[|radius| - 1] == 0.5 * drMin
  {
    radius[|radius| - 1] + 0.5 * drMin
  }

  /** Without removed bins the intended update keeps the outer radius the cells
      were binned against, for any number of bins including one. */
  lemma LastBinEdgeOfGeometry(rMax: real, drMin: real)
    requires rMax > 0.0 && drMin > 0.0
    ensures LastBinEdge(LinearGeometry(rMax, drMin).radius, drMin) == LinearGeometry(rMax, drMin).maxRadius
  {
  }

  /** With increasing radii the intended outer radius covers the right edge of
      every remaining bin. */
  lemma LastBinEdgeCovers(radius: seq<real>, drMin: real)
    requires |radius| >= 1 && drMin > 0.0 && StrictlyIncreasing(radius)
    ensures forall b :: 0 <= b < |radius| ==> radius[b] + 0.5 * drMin <= LastBinEdge(radius, drMin)
  {
  }
}
