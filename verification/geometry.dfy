/** Radial bin geometry: how many bins a profile gets, where its outer edge
    lies, the nominal radius of each bin, and which bin a cell falls into. */
module BinGeometry {
  import opened Results
  import opened Space

  /** Bin layout shared by every profile of one call: the bin width, the outer
      radius actually used for binning, and the nominal radius of each bin. */
  datatype Geometry = Geometry(drMin: real, maxRadius: real, radius: seq<real>)

  predicate StrictlyIncreasing(xs: seq<real>) {
    forall i, j :: 0 <= i < j < |xs| ==> xs[i] < xs[j]
  }

  lemma MulStrict(a: real, b: real, c: real)
    requires a < b && c > 0.0
    ensures a * c < b * c
  {
    assert b * c - a * c == (b - a) * c;
  }

  /** Bin edges grow with the bin index, and so do their squares. */
  lemma EdgeOrder(k: nat, n: nat, d: real)
    requires k <= n && d > 0.0
    ensures 0.0 <= k as real * d <= n as real * d
    ensures Sq(k as real * d) <= Sq(n as real * d)
  {
    MulMono(0.0, k as real, d);
    assert 0.0 * d == 0.0;
    MulMono(k as real, n as real, d);
    SqMono(k as real * d, n as real * d);
  }

  /** `n` is the ceiling of `rMax / drMin`, stated without division. */
  lemma CeilBounds(rMax: real, drMin: real, n: int)
    requires rMax > 0.0 && drMin > 0.0
    requires (n - 1) as real < rMax / drMin <= n as real
    ensures n >= 1
    ensures (n - 1) as real * drMin < rMax <= n as real * drMin
  {
    var q := rMax / drMin;
    assert q * drMin == rMax;
    MulMono(q, n as real, drMin);
    MulStrict((n - 1) as real, q, drMin);
    if n < 1 {
      MulMono(n as real, 0.0, drMin);
    }
  }

  /** Number of linear bins: the smallest count whose bins reach the requested radius. */
  function LinearBinCount(rMax: real, drMin: real): (n: nat)
    requires rMax > 0.0 && drMin > 0.0
    ensures n >= 1
    ensures (n - 1) as real * drMin < rMax <= n as real * drMin
  {
    var q := rMax / drMin;
    var f := q.Floor;
    var n: int := if f as real == q then f else f + 1;
    CeilBounds(rMax, drMin, n);
    n
  }

  /** Bin centres `(b + 1/2) * drMin` lie strictly inside their bins and increase. */
  lemma LinearRadii(n: nat, drMin: real, radius: seq<real>)
    requires drMin > 0.0 && |radius| == n
    requires forall b :: 0 <= b < n ==> radius[b] == (b as real + 0.5) * drMin
    ensures forall b :: 0 <= b < n ==> b as real * drMin < radius[b] < (b + 1) as real * drMin
    ensures forall b :: 0 <= b < n ==>
              radius[b] - b as real * drMin == (b + 1) as real * drMin - radius[b]
    ensures StrictlyIncreasing(radius)
  {
    forall b | 0 <= b < n
      ensures b as real * drMin < radius[b] < (b + 1) as real * drMin
      ensures radius[b] - b as real * drMin == (b + 1) as real * drMin - radius[b]
    {
      assert (b + 1) as real * drMin == b as real * drMin + drMin;
      MulStrict(b as real, b as real + 0.5, drMin);
      MulStrict(b as real + 0.5, (b + 1) as real, drMin);
    }
    forall i, j | 0 <= i < j < n
      ensures radius[i] < radius[j]
    {
      MulStrict(i as real + 0.5, j as real + 0.5, drMin);
    }
  }

  /** The last centre lies half a bin inside the outer edge `n * drMin`. */
  lemma LastCentre(n: nat, drMin: real)
    requires n >= 1
    ensures drMin * n as real - ((n - 1) as real + 0.5) * drMin == 0.5 * drMin
  {
  }

  /** Linear geometry: `LinearBinCount` bins of width `drMin`, each with its
      nominal radius at the bin centre, and the outer radius at the right edge
      of the last bin. */
  function LinearGeometry(rMax: real, drMin: real): (g: Geometry)
    requires rMax > 0.0 && drMin > 0.0
    ensures g.drMin == drMin
    ensures |g.radius| == LinearBinCount(rMax, drMin) >= 1
    ensures g.maxRadius == |g.radius| as real * drMin >= rMax
    ensures forall b :: 0 <= b < |g.radius| ==>
              g.radius[b] - b as real * drMin == (b + 1) as real * drMin - g.radius[b]
    ensures g.maxRadius - g.radius[|g.radius| - 1] == 0.5 * drMin
    ensures forall b :: 0 <= b < |g.radius| ==>
              b as real * drMin < g.radius[b] < (b + 1) as real * drMin
    ensures StrictlyIncreasing(g.radius)
  {
    var n := LinearBinCount(rMax, drMin);
    var radius := seq(n, b => (b as real + 0.5) * drMin);
    LinearRadii(n, drMin, radius);
    LastCentre(n, drMin);
    Geometry(drMin, drMin * n as real, radius)
  }

  /** Search upward from bin `k` for the bin holding squared radius `r2`;
      `None` when the search passes the last bin. */
  function BinSearch(r2: real, drMin: real, k: nat, nBin: nat): (b: Option<nat>)
    requires drMin > 0.0 && k <= nBin
    requires Sq(k as real * drMin) <= r2
    ensures b.Some? ==> k <= b.value < nBin
    ensures b.Some? ==> Sq(b.value as real * drMin) <= r2 < Sq((b.value + 1) as real * drMin)
    ensures b.None? ==> Sq(nBin as real * drMin) <= r2
    decreases nBin - k
  {
    if k == nBin then None
    else if r2 < Sq((k + 1) as real * drMin) then Some(k)
    else BinSearch(r2, drMin, k + 1, nBin)
  }

  /** Linear bin index of a cell at squared distance `r2`, i.e. the integer
      part of r/drMin, or `None` when that index is not below `nBin` (the
      round-off guard that skips the cell). */
  function LinearBin(r2: real, drMin: real, nBin: nat): (b: Option<nat>)
    requires r2 >= 0.0 && drMin > 0.0
    ensures b.Some? ==> b.value < nBin
    ensures b.Some? ==> Sq(b.value as real * drMin) <= r2 < Sq((b.value + 1) as real * drMin)
    ensures b.None? <==> Sq(nBin as real * drMin) <= r2
  {
    var b := BinSearch(r2, drMin, 0, nBin);
    if b.Some? then
      EdgeOrder(b.value + 1, nBin, drMin);
      b
    else b
  }

  /** Every cell strictly inside the outer radius gets a bin: in exact
      arithmetic the round-off guard never skips a cell. */
  lemma LinearBinGuardNeverFires(r2: real, rMax: real, drMin: real)
    requires rMax > 0.0 && drMin > 0.0 && r2 >= 0.0
    requires r2 < Sq(LinearGeometry(rMax, drMin).maxRadius)
    ensures LinearBin(r2, drMin, |LinearGeometry(rMax, drMin).radius|).Some?
  {
    var g := LinearGeometry(rMax, drMin);
    assert g.maxRadius == |g.radius| as real * drMin;
  }

  /** `x` to the natural power `n`. */
  function Pow(x: real, n: nat): real {
    if n == 0 then 1.0 else x * Pow(x, n - 1)
  }

  /** For a ratio of at least one the powers are at least one and grow with
      the exponent. */
  lemma {:induction false} PowMono(x: real, k: nat, n: nat)
    requires x >= 1.0 && k <= n
    ensures 1.0 <= Pow(x, k) <= Pow(x, n)
    decreases n
  {
    if n > 0 {
      PowMono(x, if k < n then k else n - 1, n - 1);
      MulMono(1.0, x, Pow(x, n - 1));
    }
  }

  /** Outer edge of logarithmic bin `b >= 1`, `drMin * ratio^b`; bin 0 ends at
      `drMin`. The log-mode outer radius is the edge of bin `NBin - 1`. */
  function LogEdge(drMin: real, ratio: real, b: nat): real {
    drMin * Pow(ratio, b)
  }

  /** Search upward from log bin `k >= 1` for the bin holding squared radius
      `r2`, knowing that `r2` lies past the inner edge of bin `k`. */
  function LogBinSearch(r2: real, drMin: real, ratio: real, k: nat, nBin: nat): (b: Option<nat>)
    requires 1 <= k <= nBin
    requires Sq(LogEdge(drMin, ratio, k - 1)) <= r2
    ensures b.Some? ==> k <= b.value < nBin
    ensures b.Some? ==> Sq(LogEdge(drMin, ratio, b.value - 1)) <= r2 < Sq(LogEdge(drMin, ratio, b.value))
    ensures b.None? ==> Sq(LogEdge(drMin, ratio, nBin - 1)) <= r2
    decreases nBin - k
  {
    if k == nBin then None
    else if r2 < Sq(LogEdge(drMin, ratio, k)) then Some(k)
    else LogBinSearch(r2, drMin, ratio, k + 1, nBin)
  }

  /** Logarithmic bin index of a cell at squared distance `r2`: bin 0 holds
      everything closer than `drMin`; further out the index is one more than
      the truncated logarithm of r/drMin in base `ratio`, that is bin `b >= 1`
      holds the radii from `drMin * ratio^(b-1)` up to `drMin * ratio^b`.
      `None` when the index is not below `nBin` (the round-off guard), which
      happens exactly past the log-mode outer radius `drMin * ratio^(nBin-1)`. */
  function LogBin(r2: real, drMin: real, ratio: real, nBin: nat): (b: Option<nat>)
    requires r2 >= 0.0 && drMin > 0.0 && ratio > 1.0
    ensures b.Some? ==> b.value < nBin
    ensures b == Some(0) <==> r2 < Sq(drMin) && nBin >= 1
    ensures b.Some? && b.value >= 1 ==>
              Sq(LogEdge(drMin, ratio, b.value - 1)) <= r2 < Sq(LogEdge(drMin, ratio, b.value))
    ensures nBin >= 1 ==> (b.None? <==> Sq(LogEdge(drMin, ratio, nBin - 1)) <= r2)
  {
    if r2 < Sq(drMin) then
      if nBin >= 1 then
        PowMono(ratio, 0, nBin - 1);
        LogEdgeOrder(drMin, ratio, 0, nBin - 1);
        Some(0)
      else None
    else if nBin == 0 then None
    else
      var b := LogBinSearch(r2, drMin, ratio, 1, nBin);
      if b.Some? then
        LogEdgeOrder(drMin, ratio, b.value, nBin - 1);
        b
      else b
  }

  /** Log bin edges grow with the bin index, and so do their squares. */
  lemma LogEdgeOrder(drMin: real, ratio: real, k: nat, n: nat)
    requires drMin > 0.0 && ratio > 1.0 && k <= n
    ensures drMin <= LogEdge(drMin, ratio, k) <= LogEdge(drMin, ratio, n)
    ensures Sq(LogEdge(drMin, ratio, k)) <= Sq(LogEdge(drMin, ratio, n))
  {
    PowMono(ratio, 0, k);
    PowMono(ratio, k, n);
    MulMono(1.0, Pow(ratio, k), drMin);
    MulMono(Pow(ratio, k), Pow(ratio, n), drMin);
    SqMono(LogEdge(drMin, ratio, k), LogEdge(drMin, ratio, n));
  }
}
