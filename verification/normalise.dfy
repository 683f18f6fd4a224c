/** Turning accumulated sums into averages, bin by bin. */
module Normalise {
  import opened Cells
  import opened Results
  import opened Accumulate

  /** A bin's data after normalisation. Empty bins are left alone; a
      volume-weighted quantity is divided by its weight; the radial velocity is
      divided only when its mass weight is positive and otherwise keeps its raw
      sum; a code outside the supported set leaves the bin untouched. */
  function NormaliseBin(q: Quantity, a: Acc): (r: Acc)
    requires VolumeWeighted(q) && a.ncell > 0 ==> a.weight != 0.0
    ensures r.weight == a.weight && r.ncell == a.ncell
    ensures a.ncell == 0 ==> r == a
    ensures VolumeWeighted(q) && a.ncell > 0 ==> r.data * a.weight == a.data
    ensures q.VelRad? && a.ncell > 0 && a.weight > 0.0 ==> r.data * a.weight == a.data
    ensures q.VelRad? && a.weight <= 0.0 ==> r == a
    ensures !Supported(q) ==> r == a
  {
    if a.ncell == 0 then a
    else if VolumeWeighted(q) then a.(data := a.data / a.weight)
    else if q.VelRad? && a.weight > 0.0 then a.(data := a.data / a.weight)
    else a
  }

  /** Normalisation of one profile's reduced bins, in bin order. */
  method NormaliseBins(q: Quantity, accs: seq<Acc>) returns (r: seq<Acc>)
    requires Consistent(q, accs)
    ensures |r| == |accs|
    ensures forall b :: 0 <= b < |accs| ==> r[b] == NormaliseBin(q, accs[b])
  {
    r := accs;
    var b := 0;
    while b < |accs|
      invariant 0 <= b <= |accs| && |r| == |accs|
      invariant forall k :: 0 <= k < b ==> r[k] == NormaliseBin(q, accs[k])
      invariant forall k :: b <= k < |accs| ==> r[k] == accs[k]
    {
      if accs[b].ncell > 0 {
        assert BinConsistent(q, accs[b]);
        if VolumeWeighted(q) {
          r := r[b := r[b].(data := r[b].data / r[b].weight)];
        } else if q.VelRad? {
          if r[b].weight > 0.0 {
            r := r[b := r[b].(data := r[b].data / r[b].weight)];
          }
        }
      }
      b := b + 1;
    }
  }

  /** For a uniform field, where every accepted cell reports the value `v`,
      the normalised profile equals `v` in every non-empty bin, whatever the
      bin width. This holds for the volume-weighted quantities and for the
      mass-weighted radial velocity alike. */
  lemma UniformProfile(q: Quantity, s: Setup, phys: Physics, cells: seq<Cell>, v: real, b: nat)
    requires ValidSetup(s) && EvaluableAll(q, s, cells)
    requires forall c :: c in cells && BinOf(s, c).Some? ==>
               HasValue(q, c) && CellValue(q, c, Offset(s, c), phys) == v
    requires b < s.nBin && Accum(q, s, phys, cells)[b].ncell > 0
    ensures NormaliseBin(q, Accum(q, s, phys, cells)[b]).data == v
  {
    AccumUniform(q, s, phys, cells, v);
    AccumCountsCells(q, s, phys, cells, b);
    CountInPositive(s, cells, b);
    var c :| c in cells && BinOf(s, c) == Some(b);
    assert HasValue(q, c);
    NormaliseProportional(q, Accum(q, s, phys, cells), v, b);
  }

  /** A non-empty bin whose data is `v` times its positive weight averages to
      `v`, for every supported quantity. */
  lemma NormaliseProportional(q: Quantity, accs: seq<Acc>, v: real, b: nat)
    requires Supported(q) && Proportional(accs, v)
    requires b < |accs| && accs[b].ncell > 0
    ensures NormaliseBin(q, accs[b]).data == v
  {
    CancelWeight(NormaliseBin(q, accs[b]).data, v, accs[b].weight);
  }

  lemma CancelWeight(x: real, v: real, w: real)
    requires w > 0.0 && x * w == v * w
    ensures x == v
  {
    assert (x - v) * w == 0.0;
  }
}
