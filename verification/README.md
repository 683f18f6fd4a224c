# Radial profiles and time-step selection in GAMER

This project models two routines of the GAMER adaptive-mesh hydrodynamics
code in Dafny and proves properties of the model.

**`Aux_ComputeProfile`** computes radially averaged profiles around a centre.
The model covers each of its steps:

- **Geometry.** From the requested radius `r_max` and the bin width `dr_min`
  it derives the number of linear bins, the outer radius and the nominal radius
  of each bin. For logarithmic bins the model covers the bin index, with bin
  edges at the integer powers `dr_min*ratio^b`.
- **Offsets.** It takes every leaf cell, optionally restricted to one level,
  and forms the cell's offset from the centre. On periodic axes that offset is
  corrected to the nearest image.
- **Binning and accumulation.** It keeps cells strictly inside the outer
  radius, finds each one's bin, and adds the cell's contribution, weight and
  count to a thread-private buffer.
- **Reduction.** The thread buffers are summed, then the sums of all MPI ranks
  are added together.
- **Normalisation.** Each bin becomes an average: data divided by weight, with
  the radial-velocity exception.
- **Empty-bin removal.** Optionally, bins that profile 0 finds empty are
  removed in lock-step from every profile.
- **Outer radius.** Finally it sets each profile's outer radius. The source
  extrapolates one step past the last remaining radius, which overshoots (see
  Findings); the model records the right edge of the last remaining bin
  instead, and `Profiles.WrittenOuterRadius` relates the two.

**`Mis_GetTimeStep`** picks a level's physical time interval. It takes the
`fmin` fold of the enabled criteria: fluid solver, expansion factor, next
dump, end time and the user criterion. It then synchronises with the parent
level under flexible time-stepping. It aborts on every error case the
routine checks except the `isfinite` test of the final step.

Floating-point values are modelled as exact reals and integers as unbounded
integers. Square roots are avoided: a cell is in linear bin `b` exactly when
`(b*dr)^2 <= r^2 < ((b+1)*dr)^2`.

The OpenMP threads and MPI ranks are modelled as a sequence of ranks, each
holding a sequence of per-thread cell lists. The reductions are element-wise
sums, and the broadcast is the identity.

The method `Profiles.ComputeProfile` is proved equal to a reference definition,
`Profiles.ExpectedProfiles`. That reference accumulates all cells at once,
normalises, compacts with a filter, and attaches the outer radius. The
property lemmas are stated about the reference definition.

Files:

| file | module | contents |
|---|---|---|
| `results.dfy` | `Results` | option and result types |
| `space.dfy` | `Space` | offsets and the periodic nearest-image correction |
| `geometry.dfy` | `BinGeometry` | bin count, nominal radii and bin index |
| `cells.dfy` | `Cells` | cells, quantity codes and per-cell contributions |
| `accumulate.dfy` | `Accumulate` | per-bin accumulation |
| `reduce.dfy` | `Reduce` | thread and rank sums |
| `normalise.dfy` | `Normalise` | averaging |
| `compact.dfy` | `Compaction` | removal of empty bins |
| `maxradius.dfy` | `MaxRadius` | the final outer radius |
| `profile.dfy` | `Profiles` | the whole computation |
| `timestep.dfy` | `TimeStep` | the time-step rule |

## Model

| member | source | states |
|---|---|---|
| Space.WrapAxis | src/Auxiliary/Aux_ComputeProfile.cpp:188-202 | The corrected offset is a periodic image shifted by at most one box. A non-periodic axis, or an offset within half a box, is unchanged. On a periodic axis an offset more than half a box out is shifted by exactly one box toward the centre, and any offset within 1.5 boxes ends up within half a box. |
| Space.Wrap | src/Auxiliary/Aux_ComputeProfile.cpp:183-202 | The per-axis correction leaves every non-periodic component unchanged. On each periodic axis it moves the component by at most one box length of that axis, and a component within one and a half box lengths ends within half a box length. |
| Space.WrapNearestImage | src/Auxiliary/Aux_ComputeProfile.cpp:183-202 | When every periodic component lies within one and a half box lengths, the corrected offset is a nearest image. No offset reached by moving periodic components by whole box lengths is shorter. |
| Space.WrapAxisNearestImage | src/Auxiliary/Aux_ComputeProfile.cpp:188-202 | For offsets within 1.5 boxes, the corrected offset is a nearest image: no periodic image is closer to the centre. |
| BinGeometry.LinearBinCount | src/Auxiliary/Aux_ComputeProfile.cpp:103 | The bin count is the ceiling of r_max/dr_min: at least one, with `(n-1)*dr < r_max <= n*dr`. |
| BinGeometry.LinearGeometry | src/Auxiliary/Aux_ComputeProfile.cpp:101-125 | The outer radius is the bin count times dr_min, so it reaches r_max, and lies half a bin beyond the last nominal radius. Every nominal radius is the midpoint of its own bin, and the radii strictly increase. |
| BinGeometry.LinearBin | src/Auxiliary/Aux_ComputeProfile.cpp:208-212 | A found bin is below the bin count, and its radial interval contains r. No bin is found exactly when r is at or beyond the last bin edge; that is the round-off guard. |
| BinGeometry.LinearBinGuardNeverFires | src/Auxiliary/Aux_ComputeProfile.cpp:206-212 | In exact arithmetic, every r strictly inside the outer radius gets a bin, so the round-off guard never skips a cell. |
| BinGeometry.LogBin | src/Auxiliary/Aux_ComputeProfile.cpp:209-212 | Exactly the cells closer than dr_min go to log bin 0. A bin b >= 1 holds the radii from `dr_min*ratio^(b-1)` up to `dr_min*ratio^b`, so its index is the truncated logarithm of r/dr_min plus one. A cell is dropped exactly when it lies at or beyond `dr_min*ratio^(NBin-1)`, the log-mode outer radius, so the round-off guard never skips a cell inside it. |
| Accumulate.BinOf | src/Auxiliary/Aux_ComputeProfile.cpp:169-212 | A cell is binned exactly when it is a selected leaf and strictly inside the outer radius, and then into the bin that holds its radius. |
| Cells.ContributionIsWeightedValue | src/Auxiliary/Aux_ComputeProfile.cpp:226-302 | Every cell adds its value times a positive weight: a volume-weighted quantity per unit volume times the volume, or the radial velocity (radial momentum over density) times the mass. A bin's average is therefore a weighted mean of its cells' values. |
| Cells.InternalEnergy | src/Auxiliary/Aux_ComputeProfile.cpp:283-298 | What is taken from the non-magnetic energy, times the density, is half the squared momentum: the kinetic energy density. For a positive density the internal energy is at most the total minus the magnetic energy, and a fluid at rest keeps all of it. |
| Accumulate.Accum | src/Auxiliary/Aux_ComputeProfile.cpp:160-310 | Accumulation yields one bin per bin index. Every bin stays consistent: an empty bin holds zero data and weight, and a volume-weighted bin holding a cell has positive weight. |
| Accumulate.AccumCountsCells | src/Auxiliary/Aux_ComputeProfile.cpp:310 | NCell[b] is the number of accepted cells that land in bin b, whatever the quantity. |
| Accumulate.CountInPositive | src/Auxiliary/Aux_ComputeProfile.cpp:310 | A bin's count is positive exactly when some cell lands in it. |
| Accumulate.AccumTotalCells | src/Auxiliary/Aux_ComputeProfile.cpp:204-310 | Summed over all bins, the counts equal the number of accepted cells. |
| Accumulate.AccumAppend | src/Auxiliary/Aux_ComputeProfile.cpp:152-316 | Accumulating two batches of cells separately and adding the bin arrays gives the accumulation of both batches together. |
| Accumulate.AccumUniform | src/Auxiliary/Aux_ComputeProfile.cpp:204-310 | If every accepted cell has the same value v of the quantity, every bin holds v times its weight, and a bin holding a cell has positive weight. |
| Reduce.SumThreads | src/Auxiliary/Aux_ComputeProfile.cpp:319-336 | The reduction starting from thread 0 makes every bin the sum of that bin over all threads, in thread order. |
| Reduce.SumOfAccums | src/Auxiliary/Aux_ComputeProfile.cpp:319-362 | Summing per-thread or per-rank accumulations bin by bin gives the accumulation of all their cells together. |
| Reduce.FlattenContains | src/Auxiliary/Aux_ComputeProfile.cpp:178-179 | Every cell of every part is among the cells of all parts. |
| Normalise.NormaliseBin | src/Auxiliary/Aux_ComputeProfile.cpp:372-392 | Empty bins are untouched. A volume-weighted bin's data becomes the average (data times weight gives back the sum). Radial velocity is averaged only when its weight is positive. Unknown codes are untouched. Weight and count never change. |
| Normalise.NormaliseBins | src/Auxiliary/Aux_ComputeProfile.cpp:365-395 | Every bin of a profile is normalised as above, in bin order. |
| Normalise.UniformProfile | src/Auxiliary/Aux_ComputeProfile.cpp:204-392 | For a uniform field v, every non-empty bin of the normalised profile averages to exactly v, for the volume-weighted quantities and for the mass-weighted radial velocity alike. |
| Compaction.RemoveEmptyBins | src/Auxiliary/Aux_ComputeProfile.cpp:407-440 | The in-place scan (with its run search, shift, shrink and step back) leaves each profile equal to its bins filtered, in order, by profile 0's non-empty bins. |
| Compaction.CompactCount | src/Auxiliary/Aux_ComputeProfile.cpp:434-436 | The remaining bin count equals the number of non-empty bins. |
| Compaction.CompactLength | src/Auxiliary/Aux_ComputeProfile.cpp:434-436 | The bin count drops by exactly the number of empty bins. |
| Compaction.CompactSameShape | src/Auxiliary/Aux_ComputeProfile.cpp:421-432 | Profiles with equal radii and counts stay equal after removal in lock-step. |
| Compaction.CompactIncreasing | src/Auxiliary/Aux_ComputeProfile.cpp:421-432 | Removal keeps radii strictly increasing. |
| Compaction.CompactNoEmpty | src/Auxiliary/Aux_ComputeProfile.cpp:410-417 | After removal no bin is empty, in any profile that shares profile 0's counts. |
| Compaction.CompactNothingEmpty | src/Auxiliary/Aux_ComputeProfile.cpp:412 | With no empty bin, removal changes nothing. |
| Compaction.CompactIdempotent | src/Auxiliary/Aux_ComputeProfile.cpp:407-440 | Removing empty bins twice equals removing them once. |
| Compaction.CountTrueZero | src/Auxiliary/Aux_ComputeProfile.cpp:410-417 | No bin remains exactly when no bin is flagged non-empty. |
| MaxRadius.LinearUpdateOvershoots | src/Auxiliary/Aux_ComputeProfile.cpp:448-449 | With two or more linear bins and none removed, the written update is half a bin beyond the outer edge the cells were binned against. |
| MaxRadius.LinearUpdateOvershootsExample | src/Auxiliary/Aux_ComputeProfile.cpp:103-449 | r_max=2, dr_min=1: radii 0.5 and 1.5, outer edge 2, written update 2.5. |
| MaxRadius.SingleBinGeometry | src/Auxiliary/Aux_ComputeProfile.cpp:446-449 | r_max <= dr_min gives a single bin, fewer than the two radii the update reads. |
| MaxRadius.LastBinEdgeOfGeometry | src/Auxiliary/Aux_ComputeProfile.cpp:443-450 | With nothing removed, the corrected update keeps the outer radius the cells were binned against, for any bin count. |
| MaxRadius.LastBinEdgeCovers | src/Auxiliary/Aux_ComputeProfile.cpp:443-450 | The corrected outer radius covers the right edge of every remaining bin. |
| Profiles.SetupOf | src/Auxiliary/Aux_ComputeProfile.cpp:101-146 | Binning uses the linear geometry's bin count and outer radius. |
| Profiles.FirstUnsupported | src/Auxiliary/Aux_ComputeProfile.cpp:219-307 | No code is reported exactly when every requested quantity is known. Otherwise the report is the code of the first unknown quantity in profile order. |
| Profiles.KeptProfiles | src/Auxiliary/Aux_ComputeProfile.cpp:407-440 | Without removal all bins are kept. With removal, every profile keeps as many bins as profile 0 has non-empty bins. |
| Profiles.FinishSharesRadius | src/Auxiliary/Aux_ComputeProfile.cpp:443-450 | Profiles of one shape with increasing radii all get one outer radius. It lies beyond every bin radius and covers every bin's right edge, half a bin width past its radius. |
| Profiles.FinishGeometry | src/Auxiliary/Aux_ComputeProfile.cpp:443-450 | Profiles that all carry the radii of one geometry succeed, keep their bins and all get the right edge of that geometry's last bin as their outer radius. |
| Profiles.SumRank | src/Auxiliary/Aux_ComputeProfile.cpp:152-336 | A rank's thread buffers, summed, are the accumulation of all the rank's cells. |
| Profiles.ReduceProfile | src/Auxiliary/Aux_ComputeProfile.cpp:319-404 | After the thread and rank reductions and the broadcast, a profile's bins are the accumulation of every cell of every thread and rank. |
| Profiles.RankSumsReduce | src/Auxiliary/Aux_ComputeProfile.cpp:344-362 | Summing the per-rank sums gives the accumulation of all cells. |
| Profiles.ProfileBins | src/Auxiliary/Aux_ComputeProfile.cpp:319-395 | A profile's bins are the reduced, normalised accumulation paired with the nominal radii. |
| Profiles.ReduceAll | src/Auxiliary/Aux_ComputeProfile.cpp:219-395 | Every profile is reduced and normalised, in profile order. |
| Profiles.ComputeProfile | src/Auxiliary/Aux_ComputeProfile.cpp:73-450 | The whole computation equals the reference definition. Errors come in order: invalid parameters, then an unknown quantity on an accepted cell, then no bin left. |
| Profiles.FullProfileShape | src/Auxiliary/Aux_ComputeProfile.cpp:121-310 | Before removal, bin b of every profile has the geometry's nominal radius and counts the accepted cells in bin b. Radii strictly increase. |
| Profiles.KeptProfileShape | src/Auxiliary/Aux_ComputeProfile.cpp:407-440 | After removal, every profile has profile 0's radii and counts, with increasing radii. |
| Profiles.ProfilesShareBins | src/Auxiliary/Aux_ComputeProfile.cpp:407-450 | All profiles of a successful call share radii, counts and outer radius. Radii strictly increase, and every radius lies below the outer radius. |
| Profiles.RemovedProfilesHaveNoEmptyBins | src/Auxiliary/Aux_ComputeProfile.cpp:407-440 | With removal, no profile keeps an empty bin. |
| Profiles.KeptProfilesHaveGeometry | src/Auxiliary/Aux_ComputeProfile.cpp:101-450 | Without removal, every profile has the full linear geometry: its bins count the cells that land in them, and its corrected outer radius is the one the cells were binned against, which reaches r_max. |
| Profiles.WrittenOuterRadius | src/Auxiliary/Aux_ComputeProfile.cpp:443-450 | Without removal and with two or more bins, the update as the source writes it would record half a bin more than the outer radius the model records. |
| Profiles.NoBinsLeftIff | src/Auxiliary/Aux_ComputeProfile.cpp:407-450 | A valid call runs out of bins exactly when removal is on and no cell lands in any bin. |
| TimeStep.MinOfCriteria | src/Miscellaneous/Mis_GetTimeStep.cpp:186-205 | The fmin fold is at most every enabled criterion and equals one of them. |
| TimeStep.SeqMinIsLeast | src/Miscellaneous/Mis_GetTimeStep.cpp:186-205 | The reference minimum is a member of the sequence and at most each of its members. |
| TimeStep.MinOfCriteriaIsSeqMin | src/Miscellaneous/Mis_GetTimeStep.cpp:186-205 | The fmin fold in the source's order equals the minimum of the enabled criteria. |
| TimeStep.SyncWithParent | src/Miscellaneous/Mis_GetTimeStep.cpp:222-232 | It fails exactly on a flexible level above the root whose parent interval is not positive. Other levels keep the candidate. A candidate whose stretch reaches the parent interval snaps to it, and the result is always the candidate or the parent interval. A candidate whose stretch falls short of a positive parent interval is kept unchanged. A positive candidate is never stretched beyond the flexible range, and a synchronising level never runs past its parent. |
| TimeStep.GetTimeStep | src/Miscellaneous/Mis_GetTimeStep.cpp:28-342 | An empty level returns the sentinel. A passed dump time aborts first, then a passed end time, then a non-positive parent interval on a flexible level above the root, with that interval as the failure. A synchronised step that is not positive, or whose dt is not positive, aborts with that dt and step as the failure. A returned step is positive, converts to a positive dt, and is either the minimum of the criteria or the parent interval it was snapped to. When no check fails, the synchronised minimum is returned. |
| TimeStep.StepFitsSchedule | src/Miscellaneous/Mis_GetTimeStep.cpp:114-232 | A returned step never passes the end time, nor the next dump when dumps go by time (some output enabled, with a constant-interval or table output mode). On a level that synchronises with its parent it may pass them only by the flexible range, and it never passes the parent's interval. |

## Left out

- Logarithmic profiles are out of scope beyond the bin index. The bin count `int(log(r_max/dr_min)/log(ratio))+2` truncates a logarithm, and the nominal radii `dr_min*ratio^(b-0.5)` are half-integer powers; neither has a counterpart in the model. The log bin index is modelled through its bin edges, the integer powers `dr_min*ratio^b`, with the bin count as a parameter. The log branch of the outer-radius update is modelled as written only.
- BinGeometry.LogBin requires `ratio > 1`: the source checks `LogBinRatio <= 1` in debug builds only.
- MaxRadius.MaxRadiusAsWritten: the log-mode overshoot is not proved, because it is about the half-integer-power radii.
- The AMR hierarchy is not modelled. Patches, levels, `NPatchComma`, the `son` index, cell positions from patch corners, and `dh^3` are replaced by a list of cells per thread and rank, each carrying its level, leaf flag, centre, volume and fluid state. How OpenMP schedules patches among threads only decides which list a cell is in; Reduce.SumOfAccums shows that the choice does not matter.
- OpenMP and MPI as concurrent processes: threads, `MPI_Reduce` and `MPI_Bcast` are modelled as sums of per-thread and per-rank arrays. Normalisation on the root followed by the broadcast is modelled as every rank holding the root's result.
- Cells.Contribution: the radial momentum of the radial-velocity profile (the `atan2`, `sin` and `cos` projection, which divides by r) and the pressure from `Hydro_GetPressure` are parameters of the model (`Physics`). The model says nothing about a cell exactly at the centre, where the projection divides by zero.
- Magnetic fields: the cell-centred field is not computed. Each cell carries its magnetic energy density, zero without MHD.
- Floating point: round-off, NaN and infinities are not modelled. Values are exact reals, which is why the round-off guard provably never fires. The `int(...)` of the bin index and the `(int)ceil` of the bin count are exact and cannot overflow.
- The debug-only checks `r_max_input <= 0` and `dr_min <= 0` exist only in debug builds. The model always rejects such parameters with `InvalidParameter`, instead of modelling the undefined geometry a release build would compute.
- Profiles.ComputeProfile records the corrected outer radius, the right edge of the last remaining bin (`MaxRadius.LastBinEdge`), not the extrapolation `2*Radius[NBin-1] - Radius[NBin-2]` of `src/Auxiliary/Aux_ComputeProfile.cpp:448-449`; see Findings and `Profiles.WrittenOuterRadius`.
- Profiles.Finish and Profiles.ExpectedProfiles attach the same corrected outer radius, not the source's extrapolation.
- Profiles.KeptProfilesHaveGeometry states the corrected outer radius; the update as written would record half a bin more.
- Cells.InternalEnergy states equality for a fluid at rest but not the converse, that a moving fluid of positive density has strictly less.
- Profiles.ComputeProfile: when every bin has been removed, the source reads `Radius[-1]` and `Radius[-2]`. The model returns `NoBinsLeft` instead.
- Profiles.ComputeProfile requires every accepted cell to have a positive volume and, when the internal energy is requested, a nonzero density. The source divides by the density without a check, and the model does not follow that division into NaN.
- The quantity argument is one quantity code per profile. This follows the body, which reads `TVar[p]` for profile `p` (`src/Auxiliary/Aux_ComputeProfile.cpp:221`), not the header comment and the signature, which treat `TVar` as one integer bitmask.
- TimeStep.GetTimeStep: the criterion values are parameters of the level state. These are the fluid-solver time-step from `dt_InvokeSolver`, the comoving `dTime/dt` from `pow`, and the user callback. The conversion `Mis_dTime2dt` is a function parameter.
- TimeStep.GetTimeStep does not model `isfinite`. The sentinel `HUGE_NUMBER` is the outcome `NoPatches` (`include/Macro.h` is not part of this model). The ELBDM phase criterion and the commented-out gravity and particle criteria are left out; only the hydro model is covered.
- I/O: the `Record__TimeStep` file and its first-call existence warning are left out, along with the error messages.
- `src/Grackle/Grackle_Prepare.cpp` is not part of this model.
- Internal energy: this model follows the code, which divides only the kinetic term `0.5*|mom|^2` by the density (`src/Auxiliary/Aux_ComputeProfile.cpp:282-297`).

## Findings

| source | as written | input that shows it | evidently intended | confidence | as-written member | corrected member |
|---|---|---|---|---|---|---|
| src/Auxiliary/Aux_ComputeProfile.cpp:448-449 | the linear outer radius becomes `2*Radius[NBin-1] - Radius[NBin-2]`, the nominal radius of the next bin, half a bin past the last edge | r_max=2, dr_min=1, no bin removed: cells are binned against outer radius 2, but the recorded outer radius is 2.5 | the right edge of the last remaining bin, `Radius[NBin-1] + dr_min/2` | high, not executed | MaxRadius.LinearUpdateOvershoots | MaxRadius.LastBinEdge |
| src/Auxiliary/Aux_ComputeProfile.cpp:446-449 | the update reads `Radius[NBin-2]`, even when only one bin exists or remains | r_max=1, dr_min=1: NBin=1, so the update reads `Radius[-1]` | an outer radius computed from the last bin alone, defined for any non-zero bin count | high, not executed | MaxRadius.SingleBinGeometry | MaxRadius.LastBinEdge |
