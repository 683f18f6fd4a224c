/** The cells a profile is built from and the quantities it can average. */
module Cells {
  import opened Space

  /** Conserved fluid variables stored in one cell. */
  datatype Fluid = Fluid(dens: real, momX: real, momY: real, momZ: real, engy: real)

  /** One cell of the refinement hierarchy: its level, whether its patch is a
      leaf (has no son patch), the coordinates of its centre, its volume dh^3,
      its fluid state and its magnetic energy density (zero without MHD). */
  datatype Cell = Cell(level: nat, leaf: bool, pos: Vec3, dv: real, fluid: Fluid, engyB: real)

  /** Quantity codes a profile may request; any other code is carried by
      `Unsupported` and makes the accumulation abort. */
  datatype Quantity =
    | Dens | Engy | MomX | MomY | MomZ | VelRad | Pres | IntEngy
    | Unsupported(code: int)

  predicate Supported(q: Quantity) {
    !q.Unsupported?
  }

  /** Quantities averaged with the cell volume as weight; the radial velocity
      is weighted by mass instead. */
  predicate VolumeWeighted(q: Quantity) {
    Supported(q) && !q.VelRad?
  }

  /** Physics the profiler calls but does not define: the equation of state,
      taking the fluid state and the magnetic energy density, and the momentum
      component along the outward radial direction at a given offset. */
  datatype Physics = Physics(pressure: (Fluid, real) -> real, radialMomentum: (Vec3, Fluid) -> real)

  /** What evaluating quantity `q` on cell `c` needs: a supported code, a
      positive cell volume and, for the internal energy, a nonzero density it
      can divide by. */
  predicate Evaluable(q: Quantity, c: Cell) {
    Supported(q) && c.dv > 0.0 && (q.IntEngy? ==> c.fluid.dens != 0.0)
  }

  /** Squared momentum, `|mom|^2`: twice the kinetic energy density times the
      density. A fluid at rest has none. */
  function MomentumSq(f: Fluid): (m2: real)
    ensures m2 >= 0.0
    ensures f.momX == 0.0 && f.momY == 0.0 && f.momZ == 0.0 ==> m2 == 0.0
  {
    Norm2(Vec3(f.momX, f.momY, f.momZ))
  }

  /** Total energy minus kinetic energy density minus magnetic energy density.
      The kinetic term times the density is half the squared momentum; for a
      positive density it is never negative, so the internal energy is at most
      the non-magnetic part of the total energy, and a fluid at rest has all of
      it. */
  function InternalEnergy(f: Fluid, engyB: real): (e: real)
    requires f.dens != 0.0
    ensures f.dens > 0.0 ==> e <= f.engy - engyB
    ensures f.momX == 0.0 && f.momY == 0.0 && f.momZ == 0.0 ==> e == f.engy - engyB
    ensures (f.engy - engyB - e) * f.dens == 0.5 * MomentumSq(f)
  {
    var m2 := MomentumSq(f);
    KineticTerm(m2, f.dens);
    f.engy - 0.5 * m2 / f.dens - engyB
  }

  /** The kinetic term `m2 / (2 dens)` times the density gives back half of
      `m2`; it vanishes with `m2` and is not negative for a positive density. */
  lemma KineticTerm(m2: real, dens: real)
    requires m2 >= 0.0 && dens != 0.0
    ensures (0.5 * m2 / dens) * dens == 0.5 * m2
    ensures m2 == 0.0 ==> 0.5 * m2 / dens == 0.0
    ensures dens > 0.0 ==> 0.5 * m2 / dens >= 0.0
  {
    var k := 0.5 * m2 / dens;
    assert k * dens == 0.5 * m2;
  }

  /** Value per unit volume of quantity `q` in cell `c` seen from offset `d`. */
  function ValuePerVolume(q: Quantity, c: Cell, d: Vec3, phys: Physics): real
    requires Evaluable(q, c)
  {
    match q
    case Dens => c.fluid.dens
    case Engy => c.fluid.engy
    case MomX => c.fluid.momX
    case MomY => c.fluid.momY
    case MomZ => c.fluid.momZ
    case VelRad => phys.radialMomentum(d, c.fluid)
    case Pres => phys.pressure(c.fluid, c.engyB)
    case IntEngy => InternalEnergy(c.fluid, c.engyB)
  }

  /** The (data, weight) pair one cell adds to its bin: the quantity integrated
      over the cell, weighted by the cell volume, or for the radial velocity the
      radial momentum integrated over the cell weighted by the cell's mass. */
  function Contribution(q: Quantity, c: Cell, d: Vec3, phys: Physics): (real, real)
    requires Evaluable(q, c)
  {
    var w := if q.VelRad? then c.fluid.dens * c.dv else c.dv;
    (ValuePerVolume(q, c, d, phys) * c.dv, w)
  }

  /** A cell whose profiled value is defined: it can be evaluated and, for the
      radial velocity, has positive density, so its mass weight is positive. */
  predicate HasValue(q: Quantity, c: Cell) {
    Evaluable(q, c) && (q.VelRad? ==> c.fluid.dens > 0.0)
  }

  /** The value a profile of `q` reports for one cell: the quantity per unit
      volume, or the radial velocity, radial momentum over density. */
  function CellValue(q: Quantity, c: Cell, d: Vec3, phys: Physics): real
    requires HasValue(q, c)
  {
    if q.VelRad? then phys.radialMomentum(d, c.fluid) / c.fluid.dens else ValuePerVolume(q, c, d, phys)
  }

  /** Every contribution is the cell's value times a positive weight, so a bin
      averages the values of its cells weighted by volume or by mass. */
  lemma ContributionIsWeightedValue(q: Quantity, c: Cell, d: Vec3, phys: Physics)
    requires HasValue(q, c)
    ensures Contribution(q, c, d, phys).1 > 0.0
    ensures Contribution(q, c, d, phys).0 == CellValue(q, c, d, phys) * Contribution(q, c, d, phys).1
  {
    if q.VelRad? {
      var m, rho, dv := phys.radialMomentum(d, c.fluid), c.fluid.dens, c.dv;
      var v := m / rho;
      assert v * rho == m;
      assert v * (rho * dv) == (v * rho) * dv;
      assert rho * dv > 0.0 by {
        assert rho * dv > 0.0 * dv;
      }
    }
  }
}
