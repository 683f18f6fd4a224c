/** Per-bin accumulation of cells into one profile's data, weight and cell
    count, as each thread does it into its private buffer. */
module Accumulate {
  import opened Results
  import opened Space
  import opened BinGeometry
  import opened Cells

  /** Accumulated data, weight and cell count of one bin. */
  datatype Acc = Acc(data: real, weight: real, ncell: nat)

  const NoCells := Acc(0.0, 0.0, 0)

  function Plus(a: Acc, b: Acc): Acc {
    Acc(a.data + b.data, a.weight + b.weight, a.ncell + b.ncell)
  }

  function Zeros(n: nat): (r: seq<Acc>)
    ensures |r| == n && forall b :: 0 <= b < n ==> r[b] == NoCells
  {
    seq(n, b => NoCells)
  }

  /** Element-wise sum of two bin arrays. */
  function AddBins(xs: seq<Acc>, ys: seq<Acc>): (r: seq<Acc>)
    requires |xs| == |ys|
    ensures |r| == |xs| && forall b :: 0 <= b < |r| ==> r[b] == Plus(xs[b], ys[b])
  {
    seq(|xs|, b requires 0 <= b < |xs| => Plus(xs[b], ys[b]))
  }

  /** Everything the accumulation reads besides the cells: the profile centre,
      the simulation box, the bin width, the number of bins and the level
      restriction (a negative `singleLv` means every level). */
  datatype Setup = Setup(center: Vec3, domain: Domain, drMin: real, nBin: nat, singleLv: int)

  predicate ValidSetup(s: Setup) {
    ValidDomain(s.domain) && s.drMin > 0.0
  }

  /** Outer radius used for binning: the right edge of the last bin. */
  function SetupMaxRadius(s: Setup): real {
    s.nBin as real * s.drMin
  }

  /** Only leaf cells take part, and only those on `singleLv` when it is set. */
  predicate Selected(s: Setup, c: Cell) {
    c.leaf && (s.singleLv < 0 || c.level == s.singleLv)
  }

  /** Offset from the centre to the cell, corrected to the nearest periodic image. */
  function Offset(s: Setup, c: Cell): Vec3
    requires ValidSetup(s)
  {
    Wrap(Minus(c.pos, s.center), s.domain)
  }

  /** The bin of a cell at squared distance `r2`, given whether it is selected. */
  function BinAt(s: Setup, selected: bool, r2: real): (b: Option<nat>)
    requires ValidSetup(s) && r2 >= 0.0
    ensures b.Some? ==> b.value < s.nBin
    ensures b.Some? ==> Sq(b.value as real * s.drMin) <= r2 < Sq((b.value + 1) as real * s.drMin)
    ensures b.None? <==> !selected || r2 >= Sq(SetupMaxRadius(s))
  {
    if !selected then None
    else if r2 < Sq(SetupMaxRadius(s)) then LinearBin(r2, s.drMin, s.nBin)
    else None
  }

  /** The bin a cell is accumulated into, or `None` when it is skipped. A cell
      is binned exactly when it is selected and lies strictly inside the outer
      radius, and then into the bin whose radial interval holds it. */
  function BinOf(s: Setup, c: Cell): (b: Option<nat>)
    requires ValidSetup(s)
    ensures b.Some? ==> b.value < s.nBin
    ensures b.Some? ==> Sq(b.value as real * s.drMin) <= Norm2(Offset(s, c)) < Sq((b.value + 1) as real * s.drMin)
    ensures b.None? <==> !Selected(s, c) || Norm2(Offset(s, c)) >= Sq(SetupMaxRadius(s))
  {
    BinAt(s, Selected(s, c), Norm2(Offset(s, c)))
  }

  /** Cells that are accumulated can be evaluated for quantity `q`. */
  predicate EvaluableAll(q: Quantity, s: Setup, cells: seq<Cell>)
    requires ValidSetup(s)
  {
    forall c :: c in cells && BinOf(s, c).Some? ==> Evaluable(q, c)
  }

  /** What one cell adds to its bin: its contribution and weight and one cell. */
  function CellAcc(q: Quantity, s: Setup, phys: Physics, c: Cell): (a: Acc)
    requires ValidSetup(s) && Evaluable(q, c)
    ensures a.ncell == 1
    ensures VolumeWeighted(q) ==> a.weight > 0.0
  {
    var cw := Contribution(q, c, Offset(s, c), phys);
    Acc(cw.0, cw.1, 1)
  }

  /** One cell added to the bin arrays. */
  function Deposit(q: Quantity, s: Setup, phys: Physics, accs: seq<Acc>, c: Cell): (r: seq<Acc>)
    requires ValidSetup(s) && |accs| == s.nBin
    requires BinOf(s, c).Some? ==> Evaluable(q, c)
  {
    match BinOf(s, c)
    case None => accs
    case Some(b) => accs[b := Plus(accs[b], CellAcc(q, s, phys, c))]
  }

  /** The bookkeeping invariant of a bin: an empty bin holds no data and no
      weight, and a volume-weighted bin holding a cell has positive weight. */
  predicate BinConsistent(q: Quantity, a: Acc) {
    && (a.ncell == 0 ==> a.data == 0.0 && a.weight == 0.0)
    && (VolumeWeighted(q) ==> a.weight >= 0.0 && (a.ncell > 0 ==> a.weight > 0.0))
  }

  predicate Consistent(q: Quantity, accs: seq<Acc>) {
    forall b :: 0 <= b < |accs| ==> BinConsistent(q, accs[b])
  }

  /** The bins after accumulating `cells` in order, starting from zero. */
  function Accum(q: Quantity, s: Setup, phys: Physics, cells: seq<Cell>): (r: seq<Acc>)
    requires ValidSetup(s) && EvaluableAll(q, s, cells)
    ensures |r| == s.nBin
    ensures Consistent(q, r)
    decreases |cells|
  {
    if |cells| == 0 then Zeros(s.nBin)
    else
      var init := cells[..|cells| - 1];
      var c := cells[|cells| - 1];
      assert forall x :: x in init ==> x in cells;
      var prev := Accum(q, s, phys, init);
      var r := Deposit(q, s, phys, prev, c);
      assert Consistent(q, r) by {
        forall b | 0 <= b < |r|
          ensures BinConsistent(q, r[b])
        {
          assert BinConsistent(q, prev[b]);
        }
      }
      r
  }

  /** Number of cells among `cells` that land in bin `b`. */
  function CountIn(s: Setup, cells: seq<Cell>, b: nat): nat
    requires ValidSetup(s)
  {
    if |cells| == 0 then 0
    else CountIn(s, cells[..|cells| - 1], b) + (if BinOf(s, cells[|cells| - 1]) == Some(b) then 1 else 0)
  }

  /** Number of cells among `cells` that land in any bin. */
  function AcceptedCount(s: Setup, cells: seq<Cell>): nat
    requires ValidSetup(s)
  {
    if |cells| == 0 then 0
    else AcceptedCount(s, cells[..|cells| - 1]) + (if BinOf(s, cells[|cells| - 1]).Some? then 1 else 0)
  }

  /** A bin counts a cell exactly when some cell lands in it. */
  lemma {:induction false} CountInPositive(s: Setup, cells: seq<Cell>, b: nat)
    requires ValidSetup(s)
    ensures CountIn(s, cells, b) > 0 <==> exists c :: c in cells && BinOf(s, c) == Some(b)
  {
    if |cells| > 0 {
      var init := cells[..|cells| - 1];
      CountInPositive(s, init, b);
      assert cells == init + [cells[|cells| - 1]];
      if exists c :: c in cells && BinOf(s, c) == Some(b) {
        var c :| c in cells && BinOf(s, c) == Some(b);
        if c != cells[|cells| - 1] {
          assert c in init;
        }
      }
    }
  }

  function TotalCells(accs: seq<Acc>): nat {
    if |accs| == 0 then 0 else TotalCells(accs[..|accs| - 1]) + accs[|accs| - 1].ncell
  }

  /** Each accepted cell raises the count of its own bin by one, whatever the
      quantity: NCell[b] is the number of accepted cells in bin b, so every
      profile of one call ends up with the same NCell array. */
  lemma {:induction false} AccumCountsCells(q: Quantity, s: Setup, phys: Physics, cells: seq<Cell>, b: nat)
    requires ValidSetup(s) && EvaluableAll(q, s, cells) && b < s.nBin
    ensures Accum(q, s, phys, cells)[b].ncell == CountIn(s, cells, b)
  {
    if |cells| > 0 {
      var init := cells[..|cells| - 1];
      assert forall x :: x in init ==> x in cells;
      AccumCountsCells(q, s, phys, init, b);
    }
  }

  lemma {:induction false} TotalCellsBump(accs: seq<Acc>, b: nat, a: Acc)
    requires b < |accs| && a.ncell == 1
    ensures TotalCells(accs[b := Plus(accs[b], a)]) == TotalCells(accs) + 1
    decreases |accs|
  {
    var r := accs[b := Plus(accs[b], a)];
    var n := |accs|;
    if b < n - 1 {
      assert r[..n - 1] == accs[..n - 1][b := Plus(accs[..n - 1][b], a)];
      TotalCellsBump(accs[..n - 1], b, a);
    } else {
      assert r[..n - 1] == accs[..n - 1];
    }
  }

  lemma {:induction false} TotalCellsZeros(n: nat)
    ensures TotalCells(Zeros(n)) == 0
  {
    if n > 0 {
      assert Zeros(n)[..n - 1] == Zeros(n - 1);
      TotalCellsZeros(n - 1);
    }
  }

  /** Summed over all bins, the cell counts give the number of accepted cells. */
  lemma {:induction false} AccumTotalCells(q: Quantity, s: Setup, phys: Physics, cells: seq<Cell>)
    requires ValidSetup(s) && EvaluableAll(q, s, cells)
    ensures TotalCells(Accum(q, s, phys, cells)) == AcceptedCount(s, cells)
  {
    if |cells| == 0 {
      TotalCellsZeros(s.nBin);
    } else {
      var init := cells[..|cells| - 1];
      var c := cells[|cells| - 1];
      assert forall x :: x in init ==> x in cells;
      AccumTotalCells(q, s, phys, init);
      if BinOf(s, c).Some? {
        TotalCellsBump(Accum(q, s, phys, init), BinOf(s, c).value, CellAcc(q, s, phys, c));
      }
    }
  }

  lemma DepositAddBins(q: Quantity, s: Setup, phys: Physics, xs: seq<Acc>, ys: seq<Acc>, c: Cell)
    requires ValidSetup(s) && |xs| == s.nBin && |ys| == s.nBin
    requires BinOf(s, c).Some? ==> Evaluable(q, c)
    ensures Deposit(q, s, phys, AddBins(xs, ys), c) == AddBins(xs, Deposit(q, s, phys, ys, c))
  {
    match BinOf(s, c)
    case None =>
    case Some(b) =>
      var a := CellAcc(q, s, phys, c);
      var lhs := Deposit(q, s, phys, AddBins(xs, ys), c);
      var rhs := AddBins(xs, Deposit(q, s, phys, ys, c));
      assert |lhs| == |rhs|;
      forall k | 0 <= k < |lhs|
        ensures lhs[k] == rhs[k]
      {
        if k == b {
          assert lhs[k] == Plus(Plus(xs[k], ys[k]), a);
        }
      }
  }

  lemma EvaluableConcat(q: Quantity, s: Setup, xs: seq<Cell>, ys: seq<Cell>)
    requires ValidSetup(s) && EvaluableAll(q, s, xs) && EvaluableAll(q, s, ys)
    ensures EvaluableAll(q, s, xs + ys)
  {
    assert forall x :: x in xs + ys ==> x in xs || x in ys;
  }

  lemma EvaluableInit(q: Quantity, s: Setup, ys: seq<Cell>)
    requires ValidSetup(s) && EvaluableAll(q, s, ys) && |ys| > 0
    ensures EvaluableAll(q, s, ys[..|ys| - 1])
    ensures BinOf(s, ys[|ys| - 1]).Some? ==> Evaluable(q, ys[|ys| - 1])
  {
    assert forall x :: x in ys[..|ys| - 1] ==> x in ys;
  }

  /** Accumulating one more cell deposits it into the bins accumulated so far. */
  lemma AccumSnoc(q: Quantity, s: Setup, phys: Physics, xs: seq<Cell>, c: Cell)
    requires ValidSetup(s) && EvaluableAll(q, s, xs + [c])
    ensures EvaluableAll(q, s, xs) && (BinOf(s, c).Some? ==> Evaluable(q, c))
    ensures Accum(q, s, phys, xs + [c]) == Deposit(q, s, phys, Accum(q, s, phys, xs), c)
  {
    var all := xs + [c];
    EvaluableInit(q, s, all);
    assert all[..|all| - 1] == xs;
  }

  /** The inductive step of `AccumAppend`: one more cell on the right. */
  lemma AccumAppendStep(q: Quantity, s: Setup, phys: Physics, xs: seq<Cell>, init: seq<Cell>, c: Cell)
    requires ValidSetup(s) && EvaluableAll(q, s, xs + init + [c]) && EvaluableAll(q, s, init + [c])
    requires EvaluableAll(q, s, xs) && EvaluableAll(q, s, init) && EvaluableAll(q, s, xs + init)
    requires Accum(q, s, phys, xs + init) == AddBins(Accum(q, s, phys, xs), Accum(q, s, phys, init))
    ensures Accum(q, s, phys, xs + init + [c]) == AddBins(Accum(q, s, phys, xs), Accum(q, s, phys, init + [c]))
  {
    AccumSnoc(q, s, phys, xs + init, c);
    AccumSnoc(q, s, phys, init, c);
    DepositAddBins(q, s, phys, Accum(q, s, phys, xs), Accum(q, s, phys, init), c);
  }

  /** Accumulation is a sum: accumulating two batches of cells separately and
      adding the bin arrays gives the same bins as accumulating them together.
      This is why splitting the cells among threads or ranks does not change
      the reduced profile. */
  lemma {:induction false} AccumAppend(q: Quantity, s: Setup, phys: Physics, xs: seq<Cell>, ys: seq<Cell>)
    requires ValidSetup(s) && EvaluableAll(q, s, xs) && EvaluableAll(q, s, ys)
    ensures EvaluableAll(q, s, xs + ys)
    ensures Accum(q, s, phys, xs + ys) == AddBins(Accum(q, s, phys, xs), Accum(q, s, phys, ys))
    decreases |ys|
  {
    EvaluableConcat(q, s, xs, ys);
    if |ys| == 0 {
      assert xs + ys == xs;
      assert AddBins(Accum(q, s, phys, xs), Zeros(s.nBin)) == Accum(q, s, phys, xs);
    } else {
      var init := ys[..|ys| - 1];
      var c := ys[|ys| - 1];
      assert ys == init + [c];
      assert xs + ys == xs + init + [c];
      EvaluableInit(q, s, ys);
      AccumAppend(q, s, phys, xs, init);
      AccumAppendStep(q, s, phys, xs, init, c);
    }
  }

  /** Every bin holds `v` times its weight as data, and a bin holding a cell
      has positive weight. */
  predicate Proportional(accs: seq<Acc>, v: real) {
    forall b :: 0 <= b < |accs| ==>
      && accs[b].data == v * accs[b].weight
      && accs[b].weight >= 0.0
      && (accs[b].ncell > 0 ==> accs[b].weight > 0.0)
  }

  lemma ProportionalAdd(accs: seq<Acc>, k: nat, a: Acc, v: real)
    requires Proportional(accs, v) && k < |accs|
    requires a.data == v * a.weight && a.weight > 0.0
    ensures Proportional(accs[k := Plus(accs[k], a)], v)
  {
    assert accs[k].data + a.data == v * (accs[k].weight + a.weight);
  }

  /** A uniform field: if every accepted cell reports the same value `v` for
      quantity `q` (its density, say, or its radial velocity), then every bin
      holds `v` times its weight as data, whatever the bin width and however
      the cells fall into bins. */
  lemma {:induction false} AccumUniform(q: Quantity, s: Setup, phys: Physics, cells: seq<Cell>, v: real)
    requires ValidSetup(s) && EvaluableAll(q, s, cells)
    requires forall c :: c in cells && BinOf(s, c).Some? ==>
               HasValue(q, c) && CellValue(q, c, Offset(s, c), phys) == v
    ensures Proportional(Accum(q, s, phys, cells), v)
  {
    if |cells| > 0 {
      var init := cells[..|cells| - 1];
      var c := cells[|cells| - 1];
      assert forall x :: x in init ==> x in cells;
      AccumUniform(q, s, phys, init, v);
      DepositUniform(q, s, phys, Accum(q, s, phys, init), c, v);
    }
  }

  /** Depositing a cell of value `v` keeps every bin proportional to `v`. */
  lemma DepositUniform(q: Quantity, s: Setup, phys: Physics, accs: seq<Acc>, c: Cell, v: real)
    requires ValidSetup(s) && |accs| == s.nBin && Proportional(accs, v)
    requires BinOf(s, c).Some? ==> HasValue(q, c) && CellValue(q, c, Offset(s, c), phys) == v
    ensures Proportional(Deposit(q, s, phys, accs, c), v)
  {
    match BinOf(s, c)
    case None =>
    case Some(k) =>
      ContributionIsWeightedValue(q, c, Offset(s, c), phys);
      ProportionalAdd(accs, k, CellAcc(q, s, phys, c), v);
  }
}
