/** Offsets in the simulation box and the periodic nearest-image correction
    applied to them before a cell is binned. */
module Space {

  datatype Vec3 = Vec3(x: real, y: real, z: real)

  /** One flag per axis. */
  datatype Axes = Axes(x: bool, y: bool, z: bool)

  /** Edge lengths of the simulation box and which axes have periodic fluid boundaries. */
  datatype Domain = Domain(boxSize: Vec3, periodic: Axes)

  predicate ValidDomain(dom: Domain) {
    dom.boxSize.x > 0.0 && dom.boxSize.y > 0.0 && dom.boxSize.z > 0.0
  }

  function Abs(x: real): real {
    if x < 0.0 then -x else x
  }

  function Sq(x: real): real {
    x * x
  }

  lemma MulMono(a: real, b: real, c: real)
    requires a <= b && c >= 0.0
    ensures a * c <= b * c
  {
    assert b * c - a * c == (b - a) * c;
  }

  lemma SqMono(a: real, b: real)
    requires 0.0 <= a <= b
    ensures Sq(a) <= Sq(b)
  {
    MulMono(a, b, a);
    MulMono(a, b, b);
  }

  /** A square depends on the magnitude only, and grows with it. */
  lemma SqAbsMono(a: real, b: real)
    requires Abs(a) <= Abs(b)
    ensures Sq(a) <= Sq(b)
  {
    SqMono(Abs(a), Abs(b));
    assert Sq(Abs(a)) == Sq(a) && Sq(Abs(b)) == Sq(b);
  }

  function Minus(a: Vec3, b: Vec3): Vec3 {
    Vec3(a.x - b.x, a.y - b.y, a.z - b.z)
  }

  /** Squared length of an offset. */
  function Norm2(d: Vec3): (r2: real)
    ensures r2 >= 0.0
  {
    Sq(d.x) + Sq(d.y) + Sq(d.z)
  }

  /** The offset `d` moved by `k` box lengths: one of its periodic images. */
  function Image(d: real, box: real, k: int): real {
    d + (k as real) * box
  }

  /** Nearest-image correction along one axis: on a periodic axis an offset
      beyond half a box length is moved back by one box length; otherwise
      (and always on a non-periodic axis) the offset is kept. */
  function WrapAxis(d: real, box: real, periodic: bool): (w: real)
    requires box > 0.0
    ensures w == Image(d, box, 0) || (periodic && (w == Image(d, box, -1) || w == Image(d, box, 1)))
    ensures !periodic || (-(0.5 * box) <= d <= 0.5 * box) ==> w == d
    ensures periodic && d > 0.5 * box ==> w == d - box
    ensures periodic && d < -(0.5 * box) ==> w == d + box
    ensures periodic && -(1.5 * box) <= d <= 1.5 * box ==> -(0.5 * box) <= w <= 0.5 * box
  {
    if !periodic then d
    else if d > 0.5 * box then d - box
    else if d < -(0.5 * box) then d + box
    else d
  }

  /** The per-axis correction applied to a whole offset vector. */
  function Wrap(d: Vec3, dom: Domain): (w: Vec3)
    requires ValidDomain(dom)
    ensures !dom.periodic.x ==> w.x == d.x
    ensures !dom.periodic.y ==> w.y == d.y
    ensures !dom.periodic.z ==> w.z == d.z
    ensures dom.periodic.x ==> w.x == d.x || w.x == d.x - dom.boxSize.x || w.x == d.x + dom.boxSize.x
    ensures dom.periodic.x && -(1.5 * dom.boxSize.x) <= d.x <= 1.5 * dom.boxSize.x
            ==> -(0.5 * dom.boxSize.x) <= w.x <= 0.5 * dom.boxSize.x
    ensures dom.periodic.y ==> w.y == d.y || w.y == d.y - dom.boxSize.y || w.y == d.y + dom.boxSize.y
    ensures dom.periodic.y && -(1.5 * dom.boxSize.y) <= d.y <= 1.5 * dom.boxSize.y
            ==> -(0.5 * dom.boxSize.y) <= w.y <= 0.5 * dom.boxSize.y
    ensures dom.periodic.z ==> w.z == d.z || w.z == d.z - dom.boxSize.z || w.z == d.z + dom.boxSize.z
    ensures dom.periodic.z && -(1.5 * dom.boxSize.z) <= d.z <= 1.5 * dom.boxSize.z
            ==> -(0.5 * dom.boxSize.z) <= w.z <= 0.5 * dom.boxSize.z
  {
    Vec3(WrapAxis(d.x, dom.boxSize.x, dom.periodic.x),
         WrapAxis(d.y, dom.boxSize.y, dom.periodic.y),
         WrapAxis(d.z, dom.boxSize.z, dom.periodic.z))
  }

  /** Moving an offset that lies within half a box length by a nonzero number
      of box lengths takes it at least half a box length from the centre. */
  lemma FarImage(w: real, box: real, j: int)
    requires box > 0.0 && -(0.5 * box) <= w <= 0.5 * box && j != 0
    ensures Abs(w) <= Abs(w + (j as real) * box)
  {
    var n := if j >= 1 then j else -j;
    assert (n as real) * box == box + ((n - 1) as real) * box;
    assert ((n - 1) as real) * box >= 0.0;
    assert (j as real) * box == (n as real) * box || (j as real) * box == -((n as real) * box);
  }

  lemma ImageShift(d: real, box: real, m: int, k: int)
    ensures Image(d, box, k) == Image(Image(d, box, m), box, k - m)
  {
    assert ((k - m) as real) * box == (k as real) * box - (m as real) * box;
  }

  /** For an offset within one and a half box lengths, the corrected offset is
      a nearest image: no periodic image of the offset is closer to the centre. */
  lemma WrapAxisNearestImage(d: real, box: real, k: int)
    requires box > 0.0
    requires -(1.5 * box) <= d <= 1.5 * box
    ensures Abs(WrapAxis(d, box, true)) <= Abs(Image(d, box, k))
  {
    var w := WrapAxis(d, box, true);
    var m := if w == Image(d, box, 0) then 0 else if w == Image(d, box, -1) then -1 else 1;
    assert w == Image(d, box, m);
    ImageShift(d, box, m, k);
    if k != m {
      FarImage(w, box, k - m);
    }
  }

  /** The corrected offset is a nearest image of the whole offset: when every
      periodic component lies within one and a half box lengths, no offset
      obtained by moving periodic components by whole box lengths is shorter. */
  lemma WrapNearestImage(d: Vec3, dom: Domain, kx: int, ky: int, kz: int)
    requires ValidDomain(dom)
    requires !dom.periodic.x ==> kx == 0
    requires !dom.periodic.y ==> ky == 0
    requires !dom.periodic.z ==> kz == 0
    requires dom.periodic.x ==> -(1.5 * dom.boxSize.x) <= d.x <= 1.5 * dom.boxSize.x
    requires dom.periodic.y ==> -(1.5 * dom.boxSize.y) <= d.y <= 1.5 * dom.boxSize.y
    requires dom.periodic.z ==> -(1.5 * dom.boxSize.z) <= d.z <= 1.5 * dom.boxSize.z
    ensures Norm2(Wrap(d, dom))
            <= Norm2(Vec3(Image(d.x, dom.boxSize.x, kx), Image(d.y, dom.boxSize.y, ky), Image(d.z, dom.boxSize.z, kz)))
  {
    AxisNearestImage(d.x, dom.boxSize.x, dom.periodic.x, kx);
    AxisNearestImage(d.y, dom.boxSize.y, dom.periodic.y, ky);
    AxisNearestImage(d.z, dom.boxSize.z, dom.periodic.z, kz);
  }

  /** One axis of `WrapNearestImage`, in squares. */
  lemma AxisNearestImage(d: real, box: real, periodic: bool, k: int)
    requires box > 0.0 && (!periodic ==> k == 0)
    requires periodic ==> -(1.5 * box) <= d <= 1.5 * box
    ensures Sq(WrapAxis(d, box, periodic)) <= Sq(Image(d, box, k))
  {
    if periodic {
      WrapAxisNearestImage(d, box, k);
      SqAbsMono(WrapAxis(d, box, true), Image(d, box, k));
    } else {
      assert Image(d, box, 0) == d;
    }
  }
}
