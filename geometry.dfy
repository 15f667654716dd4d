/**
 * Axis-aligned face boxes [x1, y1, x2, y2] in integer pixel coordinates and
 * their intersection-over-union, computed with exact reals.
 */
module Geometry {

  datatype Box = Box(x1: int, y1: int, x2: int, y2: int)

  /** The 1e-6 added to the union in the denominator. */
  const Eps: real := 0.000001

  function Max(a: int, b: int): int { if a >= b then a else b }

  function Min(a: int, b: int): int { if a <= b then a else b }

  /** A box with positive width and height. */
  predicate WellFormed(b: Box) { b.x1 < b.x2 && b.y1 < b.y2 }

  function Area(b: Box): int { (b.x2 - b.x1) * (b.y2 - b.y1) }

  /** The overlap rectangle of two boxes (possibly empty or inverted). */
  function Overlap(a: Box, b: Box): Box
  {
    Box(Max(a.x1, b.x1), Max(a.y1, b.y1), Min(a.x2, b.x2), Min(a.y2, b.y2))
  }

  /** True when the overlap rectangle has positive width and height. */
  predicate Intersects(a: Box, b: Box) { WellFormed(Overlap(a, b)) }

  /**
   * Intersection over union; zero when the overlap is empty, otherwise the
   * overlap area divided by the union area plus Eps.
   */
  function Iou(a: Box, b: Box): (r: real)
    ensures !Intersects(a, b) ==> r == 0.0
  {
    var o := Overlap(a, b);
    if o.x2 <= o.x1 || o.y2 <= o.y1 then 0.0
    else
      var inter := Area(o);
      var union := Area(a) + Area(b) - inter;
      IntPlusEpsNonZero(union);
      inter as real / (union as real + Eps)
  }

  lemma IntPlusEpsNonZero(k: int)
    ensures k as real + Eps != 0.0
  {
    if k < 0 {
      assert k as real <= -1.0;
    }
  }

  /** 0 <= a <= c and 0 <= b <= d give a * b <= c * d. */
  lemma MulMono(a: int, b: int, c: int, d: int)
    requires 0 <= a <= c && 0 <= b <= d
    ensures a * b <= c * d
  {
    calc {
      a * b;
    <= { assert (c - a) * b >= 0; }
      c * b;
    <= { assert c * (d - b) >= 0; }
      c * d;
    }
  }

  /** The overlap of two intersecting boxes has no more area than either box. */
  lemma OverlapAreaBound(a: Box, b: Box)
    requires Intersects(a, b)
    ensures 0 < Area(Overlap(a, b)) <= Area(a)
    ensures Area(Overlap(a, b)) <= Area(b)
  {
    var o := Overlap(a, b);
    MulMono(o.x2 - o.x1, o.y2 - o.y1, a.x2 - a.x1, a.y2 - a.y1);
    MulMono(o.x2 - o.x1, o.y2 - o.y1, b.x2 - b.x1, b.y2 - b.y1);
    assert (o.x2 - o.x1) * (o.y2 - o.y1) > 0;
  }

  /** IoU does not depend on the order of its arguments. */
  lemma IouSymmetric(a: Box, b: Box)
    ensures Iou(a, b) == Iou(b, a)
  {
    assert Overlap(a, b) == Overlap(b, a);
  }

  /**
   * For any two boxes IoU lies in [0, 1); it is positive exactly when the
   * boxes intersect, and then it is the overlap area over the union plus Eps.
   */
  lemma IouBounds(a: Box, b: Box)
    ensures 0.0 <= Iou(a, b) < 1.0
    ensures Iou(a, b) > 0.0 <==> Intersects(a, b)
    ensures Intersects(a, b) ==> WellFormed(a) && WellFormed(b)
    ensures Intersects(a, b) ==>
      Iou(a, b) == Area(Overlap(a, b)) as real / ((Area(a) + Area(b) - Area(Overlap(a, b))) as real + Eps)
  {
    if Intersects(a, b) {
      OverlapAreaBound(a, b);
      var inter := Area(Overlap(a, b)) as real;
      var den := (Area(a) + Area(b) - Area(Overlap(a, b))) as real + Eps;
      assert inter > 0.0;
      assert den > inter;
      DivBounds(inter, den);
    }
  }

  lemma DivBounds(x: real, d: real)
    requires 0.0 < x < d
    ensures 0.0 < x / d < 1.0
  {
    var q := x / d;
    assert q * d == x;
    assert (1.0 - q) * d == d - x;
    PositiveFactor(1.0 - q, d);
  }

  lemma PositiveFactor(p: real, d: real)
    requires d > 0.0 && p * d > 0.0
    ensures p > 0.0
  {
  }

  /** A well-formed box against itself scores Area / (Area + Eps), just below 1. */
  lemma IouSelf(a: Box)
    requires WellFormed(a)
    ensures Iou(a, a) == Area(a) as real / (Area(a) as real + Eps)
    ensures 0.0 < Iou(a, a) < 1.0
  {
    assert Overlap(a, a) == a;
    IouBounds(a, a);
  }
}
