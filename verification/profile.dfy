/** The whole radial-profile computation: geometry from the request, per-thread
    accumulation, the thread sum and the sum over MPI ranks, normalisation,
    optional removal of empty bins and the final outer radius. */
module Profiles {
  import opened Results
  import opened Space
  import opened BinGeometry
  import opened Cells
  import opened Accumulate
  import opened Reduce
  import opened Normalise
  import opened Compaction
  import opened MaxRadius

  /** The caller's parameters: centre, requested outer radius, bin width,
      whether empty bins are removed, the level restriction (negative for all
      levels) and the simulation box. */
  datatype Request = Request(center: Vec3, rMaxInput: real, drMin: real, removeEmpty: bool,
                             singleLv: int, domain: Domain)

  datatype ProfileError =
    | InvalidParameter           // r_max or dr_min not positive
    | UnsupportedQuantity(code: int)
    | NoBinsLeft                 // every bin was empty and removed

  /** One computed profile: its centre, outer radius and bins. */
  datatype Profile = Profile(center: Vec3, maxRadius: real, bins: seq<Bin>)

  predicate ValidRequest(req: Request) {
    req.rMaxInput > 0.0 && req.drMin > 0.0
  }

  function SetupOf(req: Request): (s: Setup)
    requires ValidRequest(req) && ValidDomain(req.domain)
    ensures ValidSetup(s)
    ensures s.nBin == |LinearGeometry(req.rMaxInput, req.drMin).radius|
    ensures SetupMaxRadius(s) == LinearGeometry(req.rMaxInput, req.drMin).maxRadius
  {
    Setup(req.center, req.domain, req.drMin, LinearBinCount(req.rMaxInput, req.drMin), req.singleLv)
  }

  /** The code of the first quantity the profiler does not know, if any. */
  function FirstUnsupported(quants: seq<Quantity>): (r: Option<int>)
    ensures r.None? <==> forall p :: 0 <= p < |quants| ==> Supported(quants[p])
    ensures r.Some? ==> exists p :: 0 <= p < |quants| && quants[p] == Unsupported(r.value)
                           && forall j :: 0 <= j < p ==> Supported(quants[j])
  {
    if |quants| == 0 then None
    else if quants[0].Unsupported? then Some(quants[0].code)
    else
      var r := FirstUnsupported(quants[1..]);
      if r.Some? then
        var p :| 0 <= p < |quants| - 1 && quants[1..][p] == Unsupported(r.value)
                 && forall j :: 0 <= j < p ==> Supported(quants[1..][j]);
        assert quants[p + 1] == Unsupported(r.value);
        assert forall j :: 0 <= j < p + 1 ==> Supported(quants[j]) by {
          forall j | 0 <= j < p + 1
            ensures Supported(quants[j])
          {
            if j > 0 {
              assert quants[j] == quants[1..][j - 1];
            }
          }
        }
        r
      else
        assert forall p :: 0 <= p < |quants| ==> Supported(quants[p]) by {
          forall p | 0 <= p < |quants|
            ensures Supported(quants[p])
          {
            if p > 0 {
              assert quants[p] == quants[1..][p - 1];
            }
          }
        }
        r
  }

  /** Some cell is accumulated into a bin. */
  predicate AnyAccepted(s: Setup, cells: seq<Cell>)
    requires ValidSetup(s)
  {
    exists c :: c in cells && BinOf(s, c).Some?
  }

  /** The unsupported-quantity error is raised as soon as an accepted cell is
      evaluated for an unknown quantity. */
  predicate RaisesUnsupported(req: Request, quants: seq<Quantity>, cells: seq<Cell>)
    requires ValidRequest(req) && ValidDomain(req.domain)
  {
    AnyAccepted(SetupOf(req), cells) && FirstUnsupported(quants).Some?
  }

  /** What the physics of an accepted cell must allow: a positive volume, and a
      nonzero density when the internal energy is asked for. */
  predicate CellsEvaluable(req: Request, quants: seq<Quantity>, cells: seq<Cell>)
    requires ValidDomain(req.domain)
  {
    ValidRequest(req) ==>
      forall c :: c in cells && BinOf(SetupOf(req), c).Some? ==>
        c.dv > 0.0 && (IntEngy in quants ==> c.fluid.dens != 0.0)
  }

  lemma EvaluableFor(req: Request, quants: seq<Quantity>, cells: seq<Cell>, p: nat)
    requires ValidRequest(req) && ValidDomain(req.domain) && p < |quants|
    requires CellsEvaluable(req, quants, cells) && !RaisesUnsupported(req, quants, cells)
    ensures EvaluableAll(quants[p], SetupOf(req), cells)
  {
    forall c | c in cells && BinOf(SetupOf(req), c).Some?
      ensures Evaluable(quants[p], c)
    {
      assert quants[p] in quants;
    }
  }

  /** Cells of all threads of all ranks. */
  function AllCells(ranks: seq<seq<seq<Cell>>>): seq<Cell> {
    Flatten(RankCells(ranks))
  }

  /** Cells of each rank, over all of its threads. */
  function RankCells(ranks: seq<seq<seq<Cell>>>): (r: seq<seq<Cell>>)
    ensures |r| == |ranks| && forall k :: 0 <= k < |ranks| ==> r[k] == Flatten(ranks[k])
  {
    seq(|ranks|, k requires 0 <= k < |ranks| => Flatten(ranks[k]))
  }

  lemma ThreadEvaluable(q: Quantity, s: Setup, ranks: seq<seq<seq<Cell>>>, k: nat)
    requires ValidSetup(s) && EvaluableAll(q, s, AllCells(ranks)) && k < |ranks|
    ensures EvaluableAll(q, s, RankCells(ranks)[k])
    ensures forall t :: 0 <= t < |ranks[k]| ==> EvaluableAll(q, s, ranks[k][t])
  {
    forall c | c in RankCells(ranks)[k]
      ensures c in AllCells(ranks)
    {
      FlattenContains(RankCells(ranks), k, c);
    }
    forall t, c | 0 <= t < |ranks[k]| && c in ranks[k][t]
      ensures c in RankCells(ranks)[k]
    {
      FlattenContains(ranks[k], t, c);
    }
  }

  /** Normalised bins paired with their nominal radii. */
  function FullBins(radius: seq<real>, q: Quantity, accs: seq<Acc>): (bins: seq<Bin>)
    requires |radius| == |accs| && Consistent(q, accs)
    ensures |bins| == |accs|
    ensures forall b :: 0 <= b < |accs| ==>
              bins[b] == Bin(radius[b], NormaliseBin(q, accs[b]).data, accs[b].weight, accs[b].ncell)
  {
    seq(|accs|, b requires 0 <= b < |accs| =>
      assert BinConsistent(q, accs[b]);
      var a := NormaliseBin(q, accs[b]);
      Bin(radius[b], a.data, a.weight, a.ncell))
  }

  /** Reference definition: every profile accumulated over all cells at once
      and normalised, before any bin is removed. */
  function FullProfiles(req: Request, quants: seq<Quantity>, cells: seq<Cell>, phys: Physics): (rows: seq<seq<Bin>>)
    requires ValidRequest(req) && ValidDomain(req.domain)
    requires CellsEvaluable(req, quants, cells) && !RaisesUnsupported(req, quants, cells)
    ensures |rows| == |quants|
    ensures forall p :: 0 <= p < |quants| ==> |rows[p]| == SetupOf(req).nBin
  {
    var g := LinearGeometry(req.rMaxInput, req.drMin);
    seq(|quants|, p requires 0 <= p < |quants| =>
      EvaluableFor(req, quants, cells, p);
      FullBins(g.radius, quants[p], Accum(quants[p], SetupOf(req), phys, cells)))
  }

  /** With removal, every profile keeps the bins where the first profile holds
      a cell; without it, every bin is kept. */
  function KeptProfiles(full: seq<seq<Bin>>, removeEmpty: bool): (kept: seq<seq<Bin>>)
    requires |full| >= 1 && forall p :: 0 <= p < |full| ==> |full[p]| == |full[0]|
    ensures |kept| == |full|
    ensures forall p :: 0 <= p < |kept| ==> |kept[p]| == |kept[0]|
    ensures !removeEmpty ==> kept == full
    ensures removeEmpty ==> |kept[0]| == CountTrue(NonEmptyMask(full[0]))
  {
    if removeEmpty then
      var mask := NonEmptyMask(full[0]);
      var kept := seq(|full|, p requires 0 <= p < |full| => Compact(full[p], mask));
      assert forall p :: 0 <= p < |kept| ==> |kept[p]| == CountTrue(mask) by {
        forall p | 0 <= p < |kept|
          ensures |kept[p]| == CountTrue(mask)
        {
          CompactCount(full[p], mask);
        }
      }
      kept
    else full
  }

  /** Attach the centre and the outer radius, the right edge of the last kept bin. */
  function Finish(req: Request, kept: seq<seq<Bin>>): (r: Result<seq<Profile>, ProfileError>)
    requires req.drMin > 0.0 && |kept| >= 1
    requires forall p :: 0 <= p < |kept| ==> |kept[p]| == |kept[0]|
    ensures r.Err? <==> |kept[0]| == 0
    ensures r.Err? ==> r.error == NoBinsLeft
    ensures r.Ok? ==> |r.value| == |kept| && forall p :: 0 <= p < |kept| ==>
              r.value[p].center == req.center && r.value[p].bins == kept[p]
              && r.value[p].maxRadius - kept[p][|kept[p]| - 1].radius == 0.5 * req.drMin
  {
    if |kept[0]| == 0 then Err(NoBinsLeft)
    else Ok(seq(|kept|, p requires 0 <= p < |kept| =>
              Profile(req.center, LastBinEdge(Radii(kept[p]), req.drMin), kept[p])))
  }

  /** Reference definition of the whole computation on the cells of every
      thread and rank taken together. */
  function ExpectedProfiles(req: Request, quants: seq<Quantity>, cells: seq<Cell>, phys: Physics)
    : (r: Result<seq<Profile>, ProfileError>)
    requires |quants| >= 1 && ValidDomain(req.domain) && CellsEvaluable(req, quants, cells)
  {
    if !ValidRequest(req) then Err(InvalidParameter)
    else if RaisesUnsupported(req, quants, cells) then Err(UnsupportedQuantity(FirstUnsupported(quants).value))
    else Finish(req, KeptProfiles(FullProfiles(req, quants, cells, phys), req.removeEmpty))
  }

  /** The accumulation of rank `k`'s cells. */
  function RankAccum(q: Quantity, s: Setup, phys: Physics, ranks: seq<seq<seq<Cell>>>, k: nat): seq<Acc>
    requires ValidSetup(s) && EvaluableAll(q, s, AllCells(ranks)) && k < |ranks|
  {
    ThreadEvaluable(q, s, ranks, k);
    Accum(q, s, phys, Flatten(ranks[k]))
  }

  /** One rank's share of a profile: every thread accumulates its own cells
      into a private buffer, and the buffers are summed. */
  method SumRank(q: Quantity, s: Setup, phys: Physics, threads: seq<seq<Cell>>) returns (sum: seq<Acc>)
    requires ValidSetup(s) && |threads| >= 1
    requires forall t :: 0 <= t < |threads| ==> EvaluableAll(q, s, threads[t])
    ensures EvaluableAll(q, s, Flatten(threads))
    ensures sum == Accum(q, s, phys, Flatten(threads))
  {
    var buffers := AccumParts(q, s, phys, threads);
    sum := SumThreads(buffers, s.nBin);
    SumOfAccums(q, s, phys, threads);
  }

  /** One profile over all ranks: each thread fills its own buffer, the
      buffers of a rank are summed, and the rank sums are summed (the MPI
      reduction onto the root followed by the broadcast). */
  method ReduceProfile(q: Quantity, s: Setup, phys: Physics, ranks: seq<seq<seq<Cell>>>) returns (acc: seq<Acc>)
    requires ValidSetup(s) && EvaluableAll(q, s, AllCells(ranks))
    requires |ranks| >= 1 && forall k :: 0 <= k < |ranks| ==> |ranks[k]| >= 1
    ensures acc == Accum(q, s, phys, AllCells(ranks))
  {
    var rankSums: seq<seq<Acc>> := [];
    for k := 0 to |ranks|
      invariant |rankSums| == k
      invariant forall j :: 0 <= j < k ==> rankSums[j] == RankAccum(q, s, phys, ranks, j)
    {
      ThreadEvaluable(q, s, ranks, k);
      var sum := SumRank(q, s, phys, ranks[k]);
      rankSums := rankSums + [sum];
    }
    RankSumsReduce(q, s, phys, ranks, rankSums);
    acc := SumThreads(rankSums, s.nBin);
  }

  /** Summing the per-rank sums gives the accumulation over all cells. */
  lemma RankSumsReduce(q: Quantity, s: Setup, phys: Physics, ranks: seq<seq<seq<Cell>>>, rankSums: seq<seq<Acc>>)
    requires ValidSetup(s) && |rankSums| == |ranks| && EvaluableAll(q, s, AllCells(ranks))
    requires forall j :: 0 <= j < |ranks| ==> rankSums[j] == RankAccum(q, s, phys, ranks, j)
    ensures forall j :: 0 <= j < |ranks| ==> |rankSums[j]| == s.nBin
    ensures forall b :: 0 <= b < s.nBin ==> SumParts(rankSums, b) == Accum(q, s, phys, AllCells(ranks))[b]
  {
    forall j | 0 <= j < |ranks|
      ensures EvaluableAll(q, s, RankCells(ranks)[j])
    {
      ThreadEvaluable(q, s, ranks, j);
    }
    SumOfAccums(q, s, phys, RankCells(ranks));
    assert rankSums == AccumParts(q, s, phys, RankCells(ranks));
  }

  /** One profile's bins: reduced over threads and ranks, normalised, and
      paired with the nominal radii. */
  method ProfileBins(q: Quantity, s: Setup, radius: seq<real>, phys: Physics, ranks: seq<seq<seq<Cell>>>)
    returns (bins: seq<Bin>)
    requires ValidSetup(s) && EvaluableAll(q, s, AllCells(ranks)) && |radius| == s.nBin
    requires |ranks| >= 1 && forall k :: 0 <= k < |ranks| ==> |ranks[k]| >= 1
    ensures bins == FullBins(radius, q, Accum(q, s, phys, AllCells(ranks)))
  {
    var acc := ReduceProfile(q, s, phys, ranks);
    var norm := NormaliseBins(q, acc);
    bins := seq(s.nBin, b requires 0 <= b < s.nBin =>
              Bin(radius[b], norm[b].data, norm[b].weight, norm[b].ncell));
  }

  /** Every profile's bins, in profile order. */
  method ReduceAll(req: Request, quants: seq<Quantity>, ranks: seq<seq<seq<Cell>>>, phys: Physics)
    returns (rows: seq<seq<Bin>>)
    requires ValidRequest(req) && ValidDomain(req.domain)
    requires |ranks| >= 1 && forall k :: 0 <= k < |ranks| ==> |ranks[k]| >= 1
    requires CellsEvaluable(req, quants, AllCells(ranks)) && !RaisesUnsupported(req, quants, AllCells(ranks))
    ensures rows == FullProfiles(req, quants, AllCells(ranks), phys)
  {
    var cells := AllCells(ranks);
    var s := SetupOf(req);
    var g := LinearGeometry(req.rMaxInput, req.drMin);
    ghost var full := FullProfiles(req, quants, cells, phys);
    rows := [];
    for p := 0 to |quants|
      invariant |rows| == p
      invariant forall j :: 0 <= j < p ==> rows[j] == full[j]
    {
      EvaluableFor(req, quants, cells, p);
      var bins := ProfileBins(quants[p], s, g.radius, phys, ranks);
      rows := rows + [bins];
    }
  }

  /** The profiler: validate the parameters, build the linear geometry, reduce
      and normalise every profile, optionally drop the empty bins in lock-step,
      and set every profile's outer radius to the edge of its last bin. */
  method ComputeProfile(req: Request, quants: seq<Quantity>, ranks: seq<seq<seq<Cell>>>, phys: Physics)
    returns (r: Result<seq<Profile>, ProfileError>)
    requires |quants| >= 1 && ValidDomain(req.domain)
    requires |ranks| >= 1 && forall k :: 0 <= k < |ranks| ==> |ranks[k]| >= 1
    requires CellsEvaluable(req, quants, AllCells(ranks))
    ensures r == ExpectedProfiles(req, quants, AllCells(ranks), phys)
  {
    if !ValidRequest(req) {
      return Err(InvalidParameter);
    }
    var cells := AllCells(ranks);
    var s := SetupOf(req);
    var unsupported := FirstUnsupported(quants);
    if AnyAccepted(s, cells) && unsupported.Some? {
      return Err(UnsupportedQuantity(unsupported.value));
    }
    var rows := ReduceAll(req, quants, ranks, phys);
    var kept := rows;
    if req.removeEmpty {
      kept := RemoveEmptyBins(rows);
    }
    assert kept == KeptProfiles(rows, req.removeEmpty);
    if |kept[0]| == 0 {
      return Err(NoBinsLeft);
    }
    r := Ok(seq(|kept|, p requires 0 <= p < |kept| =>
              Profile(req.center, LastBinEdge(Radii(kept[p]), req.drMin), kept[p])));
  }

  /** Before removal, bin `b` of every profile sits at the nominal radius of the
      linear geometry and counts the accepted cells that land in it. */
  lemma FullProfileShape(req: Request, quants: seq<Quantity>, cells: seq<Cell>, phys: Physics, p: nat)
    requires ValidRequest(req) && ValidDomain(req.domain) && p < |quants|
    requires CellsEvaluable(req, quants, cells) && !RaisesUnsupported(req, quants, cells)
    ensures forall b :: 0 <= b < SetupOf(req).nBin ==>
              FullProfiles(req, quants, cells, phys)[p][b].radius == LinearGeometry(req.rMaxInput, req.drMin).radius[b]
              && FullProfiles(req, quants, cells, phys)[p][b].ncell == CountIn(SetupOf(req), cells, b)
    ensures Radii(FullProfiles(req, quants, cells, phys)[p]) == LinearGeometry(req.rMaxInput, req.drMin).radius
    ensures IncreasingRadius(FullProfiles(req, quants, cells, phys)[p])
  {
    var s := SetupOf(req);
    EvaluableFor(req, quants, cells, p);
    forall b | 0 <= b < s.nBin
      ensures Accum(quants[p], s, phys, cells)[b].ncell == CountIn(s, cells, b)
    {
      AccumCountsCells(quants[p], s, phys, cells, b);
    }
  }

  /** Removal keeps every profile of the same shape as the first, with increasing radii. */
  lemma KeptProfileShape(req: Request, quants: seq<Quantity>, cells: seq<Cell>, phys: Physics, p: nat)
    requires ValidRequest(req) && ValidDomain(req.domain) && p < |quants|
    requires CellsEvaluable(req, quants, cells) && !RaisesUnsupported(req, quants, cells)
    ensures var kept := KeptProfiles(FullProfiles(req, quants, cells, phys), req.removeEmpty);
            SameShape(kept[p], kept[0]) && IncreasingRadius(kept[p])
  {
    var full := FullProfiles(req, quants, cells, phys);
    FullProfileShape(req, quants, cells, phys, 0);
    FullProfileShape(req, quants, cells, phys, p);
    assert SameShape(full[p], full[0]);
    if req.removeEmpty {
      var mask := NonEmptyMask(full[0]);
      CompactSameShape(full[p], full[0], mask);
      CompactIncreasing(full[p], mask);
    }
  }

  /** Profiles of one shape get one outer radius, which covers the right edge
      of every bin, half a bin width past its radius. */
  lemma FinishSharesRadius(req: Request, kept: seq<seq<Bin>>)
    requires req.drMin > 0.0 && |kept| >= 1
    requires forall p :: 0 <= p < |kept| ==> |kept[p]| == |kept[0]|
    requires forall p :: 0 <= p < |kept| ==> SameShape(kept[p], kept[0]) && IncreasingRadius(kept[p])
    requires Finish(req, kept).Ok?
    ensures var profs := Finish(req, kept).value;
            forall p :: 0 <= p < |profs| ==>
              && profs[p].maxRadius == profs[0].maxRadius
              && forall b :: 0 <= b < |profs[p].bins| ==> profs[p].bins[b].radius < profs[p].maxRadius
    ensures var profs := Finish(req, kept).value;
            forall p, b :: 0 <= p < |profs| && 0 <= b < |profs[p].bins| ==>
              profs[p].bins[b].radius + 0.5 * req.drMin <= profs[p].maxRadius
  {
    var profs := Finish(req, kept).value;
    forall p, b | 0 <= p < |profs| && 0 <= b < |profs[p].bins|
      ensures profs[p].bins[b].radius < profs[p].maxRadius
      ensures profs[p].bins[b].radius + 0.5 * req.drMin <= profs[p].maxRadius
    {
      var n := |kept[p]|;
      if b < n - 1 {
        assert kept[p][b].radius < kept[p][n - 1].radius;
      }
    }
  }

  /** All profiles of one call share their bins: the same radii and the same
      cell counts bin by bin, strictly increasing radii and the same outer radius,
      which lies beyond every bin radius. */
  lemma ProfilesShareBins(req: Request, quants: seq<Quantity>, cells: seq<Cell>, phys: Physics)
    requires |quants| >= 1 && ValidDomain(req.domain) && CellsEvaluable(req, quants, cells)
    requires ExpectedProfiles(req, quants, cells, phys).Ok?
    ensures var profs := ExpectedProfiles(req, quants, cells, phys).value;
            |profs| == |quants| && forall p :: 0 <= p < |profs| ==>
              && SameShape(profs[p].bins, profs[0].bins)
              && IncreasingRadius(profs[p].bins)
              && profs[p].maxRadius == profs[0].maxRadius
              && forall b :: 0 <= b < |profs[p].bins| ==> profs[p].bins[b].radius < profs[p].maxRadius
  {
    var kept := KeptProfiles(FullProfiles(req, quants, cells, phys), req.removeEmpty);
    forall p | 0 <= p < |quants|
      ensures SameShape(kept[p], kept[0]) && IncreasingRadius(kept[p])
    {
      KeptProfileShape(req, quants, cells, phys, p);
    }
    FinishSharesRadius(req, kept);
  }

  /** With removal, no profile keeps an empty bin. */
  lemma RemovedProfilesHaveNoEmptyBins(req: Request, quants: seq<Quantity>, cells: seq<Cell>, phys: Physics)
    requires |quants| >= 1 && ValidDomain(req.domain) && CellsEvaluable(req, quants, cells)
    requires ExpectedProfiles(req, quants, cells, phys).Ok? && req.removeEmpty
    ensures var profs := ExpectedProfiles(req, quants, cells, phys).value;
            forall p, b :: 0 <= p < |profs| && 0 <= b < |profs[p].bins| ==> profs[p].bins[b].ncell != 0
  {
    var full := FullProfiles(req, quants, cells, phys);
    var profs := ExpectedProfiles(req, quants, cells, phys).value;
    FullProfileShape(req, quants, cells, phys, 0);
    forall p | 0 <= p < |profs|
      ensures forall b :: 0 <= b < |profs[p].bins| ==> profs[p].bins[b].ncell != 0
    {
      FullProfileShape(req, quants, cells, phys, p);
      CompactNoEmpty(full[p], full[0]);
    }
  }

  /** Without removal, every profile has the full linear geometry: one bin per
      nominal radius, each counting the accepted cells that land in it, and the
      outer radius of the geometry, which reaches the requested radius. */
  lemma KeptProfilesHaveGeometry(req: Request, quants: seq<Quantity>, cells: seq<Cell>, phys: Physics)
    requires |quants| >= 1 && ValidDomain(req.domain) && CellsEvaluable(req, quants, cells)
    requires ExpectedProfiles(req, quants, cells, phys).Ok? && !req.removeEmpty
    ensures var profs := ExpectedProfiles(req, quants, cells, phys).value;
            var g := LinearGeometry(req.rMaxInput, req.drMin);
            forall p :: 0 <= p < |profs| ==>
              && Radii(profs[p].bins) == g.radius
              && profs[p].maxRadius == g.maxRadius >= req.rMaxInput
              && forall b :: 0 <= b < |profs[p].bins| ==> profs[p].bins[b].ncell == CountIn(SetupOf(req), cells, b)
  {
    var g := LinearGeometry(req.rMaxInput, req.drMin);
    var full := FullProfiles(req, quants, cells, phys);
    forall p | 0 <= p < |quants|
      ensures Radii(full[p]) == g.radius
      ensures forall b :: 0 <= b < |full[p]| ==> full[p][b].ncell == CountIn(SetupOf(req), cells, b)
    {
      FullProfileShape(req, quants, cells, phys, p);
    }
    LastBinEdgeOfGeometry(req.rMaxInput, req.drMin);
    FinishGeometry(req, full, g.radius);
  }

  /** The outer radius this model records against the update as the
      profiler writes it: without removal and with at least two bins, the
      written update would record half a bin more, the nominal radius of a
      bin that does not exist (see `MaxRadius.LinearUpdateOvershoots`). */
  lemma WrittenOuterRadius(req: Request, quants: seq<Quantity>, cells: seq<Cell>, phys: Physics)
    requires |quants| >= 1 && ValidDomain(req.domain) && CellsEvaluable(req, quants, cells)
    requires ExpectedProfiles(req, quants, cells, phys).Ok? && !req.removeEmpty
    requires |LinearGeometry(req.rMaxInput, req.drMin).radius| >= 2
    ensures var profs := ExpectedProfiles(req, quants, cells, phys).value;
            forall p :: 0 <= p < |profs| ==>
              MaxRadiusAsWritten(false, Radii(profs[p].bins)) == profs[p].maxRadius + 0.5 * req.drMin
  {
    KeptProfilesHaveGeometry(req, quants, cells, phys);
    LinearUpdateOvershoots(req.rMaxInput, req.drMin);
  }

  /** Profiles whose bins all have radii `radius` all get the outer radius of `radius`. */
  lemma FinishGeometry(req: Request, kept: seq<seq<Bin>>, radius: seq<real>)
    requires req.drMin > 0.0 && |kept| >= 1 && |radius| >= 1
    requires forall p :: 0 <= p < |kept| ==> |kept[p]| == |radius| && Radii(kept[p]) == radius
    ensures Finish(req, kept).Ok?
    ensures forall p :: 0 <= p < |kept| ==>
              Finish(req, kept).value[p].bins == kept[p]
              && Finish(req, kept).value[p].maxRadius == LastBinEdge(radius, req.drMin)
  {
  }

  /** The computation runs out of bins exactly when empty bins are removed and
      no cell lands in any bin. */
  lemma NoBinsLeftIff(req: Request, quants: seq<Quantity>, cells: seq<Cell>, phys: Physics)
    requires |quants| >= 1 && ValidDomain(req.domain) && CellsEvaluable(req, quants, cells)
    requires ValidRequest(req) && !RaisesUnsupported(req, quants, cells)
    ensures (ExpectedProfiles(req, quants, cells, phys) == Err(NoBinsLeft))
              <==> (req.removeEmpty && !AnyAccepted(SetupOf(req), cells))
  {
    var s := SetupOf(req);
    var full := FullProfiles(req, quants, cells, phys);
    FullProfileShape(req, quants, cells, phys, 0);
    if req.removeEmpty {
      var mask := NonEmptyMask(full[0]);
      CountTrueZero(mask);
      forall b | 0 <= b < s.nBin
        ensures mask[b] <==> exists c :: c in cells && BinOf(s, c) == Some(b)
      {
        CountInPositive(s, cells, b);
      }
      if AnyAccepted(s, cells) {
        var c :| c in cells && BinOf(s, c).Some?;
        assert mask[BinOf(s, c).value];
      }
    }
  }
}
