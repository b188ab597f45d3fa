/**
 * Coordinate mapping after detection: working-resolution boxes back to the
 * original image grid (`get_real_coordinates`), the box centre, and the
 * voxel-to-world affine map of a CT volume (`voxel2world`).
 */
module Coordinates {

  /** A box on the original image's pixel grid. */
  datatype PixelBox = PixelBox(x1: int, y1: int, x2: int, y2: int)

  /** A point in (z, y, x) order, in voxels or in world units. */
  datatype Vec3 = Vec3(z: real, y: real, x: real)

  /** `a <= b` is kept by multiplying both sides with a positive factor. */
  lemma MulMonotone(a: real, b: real, k: real)
    requires a <= b && k > 0.0
    ensures a * k <= b * k
  {
  }

  /** `a < b` is kept by multiplying both sides with a positive factor. */
  lemma MulStrictMonotone(a: real, b: real, k: real)
    requires a < b && k > 0.0
    ensures a * k < b * k
  {
  }

  /** A strict inequality between multiples of a positive factor holds of the multiplicands. */
  lemma MulCancelStrict(a: real, b: real, k: real)
    requires a * k < b * k && k > 0.0
    ensures a < b
  {
  }

  /** `r` is the cell of the grid of step `ratio` that holds `c`. */
  predicate InCell(r: int, c: real, ratio: real)
  {
    r as real * ratio <= c < (r + 1) as real * ratio
  }

  /**
   * Python's `int(round(c // ratio))` on floats.  Floor division of floats
   * yields an integral float and `round` of an integral float is that float,
   * so the value is floor(c / ratio).
   */
  function FloorDiv(c: real, ratio: real): (r: int)
    requires ratio != 0.0
    ensures ratio > 0.0 ==> InCell(r, c, ratio)
  {
    var q := c / ratio;
    if ratio > 0.0 then
      MulMonotone(q.Floor as real, q, ratio);
      MulStrictMonotone(q, (q.Floor + 1) as real, ratio);
      q.Floor
    else
      q.Floor
  }

  /** Two cells holding points `c <= c'` are in order. */
  lemma CellOrder(f: int, c: real, r: int, c': real, ratio: real)
    requires ratio > 0.0 && c <= c' && InCell(f, c, ratio) && InCell(r, c', ratio)
    ensures f <= r
  {
    var lo, hi := f as real * ratio, (r + 1) as real * ratio;
    assert lo <= c;
    assert c' < hi;
    assert lo < hi;
    assert f as real * ratio < (r + 1) as real * ratio;
    MulCancelStrict(f as real, (r + 1) as real, ratio);
  }

  /** The grid cell holding `c` is unique, so `InCell` defines `FloorDiv`. */
  lemma FloorDivUnique(c: real, ratio: real, r: int)
    requires ratio > 0.0 && InCell(r, c, ratio)
    ensures FloorDiv(c, ratio) == r
  {
    var f := FloorDiv(c, ratio);
    CellOrder(f, c, r, c, ratio);
    CellOrder(r, c, f, c, ratio);
  }

  /** A larger coordinate never maps to a smaller grid index. */
  lemma FloorDivMonotone(c: real, c': real, ratio: real)
    requires ratio > 0.0 && c <= c'
    ensures FloorDiv(c, ratio) <= FloorDiv(c', ratio)
  {
    CellOrder(FloorDiv(c, ratio), c, FloorDiv(c', ratio), c', ratio);
  }

  /**
   * `get_real_coordinates`: every coordinate is floor-divided by the resize
   * ratio independently of the others.
   */
  function GetRealCoordinates(ratio: real, x1: real, y1: real, x2: real, y2: real): (b: PixelBox)
    requires ratio != 0.0
    ensures ratio > 0.0 ==>
      InCell(b.x1, x1, ratio) && InCell(b.y1, y1, ratio) &&
      InCell(b.x2, x2, ratio) && InCell(b.y2, y2, ratio)
  {
    PixelBox(FloorDiv(x1, ratio), FloorDiv(y1, ratio), FloorDiv(x2, ratio), FloorDiv(y2, ratio))
  }

  /** A box whose corners are ordered keeps them ordered on the original grid. */
  lemma GetRealCoordinatesOrdered(ratio: real, x1: real, y1: real, x2: real, y2: real)
    requires ratio > 0.0 && x1 <= x2 && y1 <= y2
    ensures var b := GetRealCoordinates(ratio, x1, y1, x2, y2); b.x1 <= b.x2 && b.y1 <= b.y2
  {
    FloorDivMonotone(x1, x2, ratio);
    FloorDivMonotone(y1, y2, ratio);
  }

  /**
   * The box centre `((x1 + x2) / 2, (y1 + y2) / 2)` with true division
   * (the script imports `division` from `__future__`); the pair is (x, y).
   */
  function Center(b: PixelBox): (c: (real, real))
    ensures 2.0 * c.0 == (b.x1 + b.x2) as real && 2.0 * c.1 == (b.y1 + b.y2) as real
  {
    ((b.x1 + b.x2) as real / 2.0, (b.y1 + b.y2) as real / 2.0)
  }

  /** The centre of an ordered box lies inside it. */
  lemma CenterInside(b: PixelBox)
    requires b.x1 <= b.x2 && b.y1 <= b.y2
    ensures b.x1 as real <= Center(b).0 <= b.x2 as real
    ensures b.y1 as real <= Center(b).1 <= b.y2 as real
  {
  }

  /**
   * `voxel2world`: `voxel * spacing + origin`, component by component in
   * z, y, x order.  Where no spacing is zero the world point determines the
   * voxel: `World2Voxel` maps it back.
   */
  function Voxel2World(voxel: Vec3, origin: Vec3, spacing: Vec3): (w: Vec3)
    ensures spacing.z != 0.0 && spacing.y != 0.0 && spacing.x != 0.0 ==> World2Voxel(w, origin, spacing) == voxel
  {
    Vec3(voxel.z * spacing.z + origin.z, voxel.y * spacing.y + origin.y, voxel.x * spacing.x + origin.x)
  }

  /** The inverse map, defined where no spacing is zero. */
  function World2Voxel(world: Vec3, origin: Vec3, spacing: Vec3): Vec3
    requires spacing.z != 0.0 && spacing.y != 0.0 && spacing.x != 0.0
  {
    Vec3((world.z - origin.z) / spacing.z, (world.y - origin.y) / spacing.y, (world.x - origin.x) / spacing.x)
  }

  /** Zero origin and unit spacing make the map the identity. */
  lemma Voxel2WorldIdentity(voxel: Vec3)
    ensures Voxel2World(voxel, Vec3(0.0, 0.0, 0.0), Vec3(1.0, 1.0, 1.0)) == voxel
  {
  }
}
