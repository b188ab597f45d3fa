/**
 * Rows of four coordinates.  The script keeps regions in an N x 4 numpy
 * array whose rows are read either in corner form (x1, y1, x2, y2) or, after
 * the in-place conversion, in size form (x, y, w, h).  A `Row` is one such
 * row; `c0` .. `c3` are its columns.
 */
module Boxes {

  datatype Row = Row(c0: real, c1: real, c2: real, c3: real)

  /** The zero row, as produced by `np.zeros`. */
  const Zero: Row := Row(0.0, 0.0, 0.0, 0.0)

  /** Corner form (x1, y1, x2, y2) to size form (x, y, x2 - x1, y2 - y1). */
  function CornerToSize(r: Row): Row
  {
    Row(r.c0, r.c1, r.c2 - r.c0, r.c3 - r.c1)
  }

  /** Size form (x, y, w, h) to corner form (x, y, x + w, y + h). */
  function SizeToCorner(r: Row): Row
  {
    Row(r.c0, r.c1, r.c0 + r.c2, r.c1 + r.c3)
  }

  /** Every coordinate multiplied by `s` (the feature stride). */
  function Scale(s: real, r: Row): Row
  {
    Row(s * r.c0, s * r.c1, s * r.c2, s * r.c3)
  }

  /** The two forms convert into each other without loss. */
  lemma CornerSizeRoundTrip(r: Row)
    ensures SizeToCorner(CornerToSize(r)) == r
    ensures CornerToSize(SizeToCorner(r)) == r
  {
  }

  lemma RealDistributes(s: real, a: real, b: real)
    ensures s * (a + b) == s * a + s * b
  {
  }

  /**
   * A size-form box scaled into corner form keeps its origin scaled and has
   * width `s * w` and height `s * h`.
   */
  lemma ScaledCornerExtent(s: real, r: Row)
    ensures var b := Scale(s, SizeToCorner(r));
      b.c0 == s * r.c0 && b.c1 == s * r.c1 && b.c2 - b.c0 == s * r.c2 && b.c3 - b.c1 == s * r.c3
  {
    RealDistributes(s, r.c0, r.c2);
    RealDistributes(s, r.c1, r.c3);
  }
}
