/**
 Axis-aligned boxes, their overlap measures, and the proofs that the measures
 stay inside the ranges the association costs rely on.
 Coordinates are reals: rounding is not modelled.
 */
module Boxes {

  datatype Point = Point(x: real, y: real)

  datatype Box = Box(x1: real, y1: real, x2: real, y2: real) {
    function Centroid(): Point {
      Point((x1 + x2) / 2.0, (y1 + y2) / 2.0)
    }

    predicate WellFormed() {
      x1 <= x2 && y1 <= y2
    }
  }

  function Max(a: real, b: real): real { if a >= b then a else b }

  function Min(a: real, b: real): real { if a <= b then a else b }

  function Sq(a: real): real { a * a }

  // Length of the overlap of the intervals [a1, a2] and [b1, b2].
  function Overlap(a1: real, a2: real, b1: real, b2: real): real {
    Max(0.0, Min(a2, b2) - Max(a1, b1))
  }

  // Length of the smallest interval covering both intervals.
  function Extent(a1: real, a2: real, b1: real, b2: real): real {
    Max(a2, b2) - Min(a1, b1)
  }

  function Intersection(a: Box, b: Box): real {
    Overlap(a.x1, a.x2, b.x1, b.x2) * Overlap(a.y1, a.y2, b.y1, b.y2)
  }

  function Area(a: Box): real {
    Max(0.0, a.x2 - a.x1) * Max(0.0, a.y2 - a.y1)
  }

  function Union(a: Box, b: Box): real {
    Area(a) + Area(b) - Intersection(a, b)
  }

  // Intersection over union, 0 when the union has no area.
  function Iou(a: Box, b: Box): real {
    if Union(a, b) > 0.0 then Intersection(a, b) / Union(a, b) else 0.0
  }

  // Squared distance between the two centres.
  function CentreGapSq(a: Box, b: Box): real {
    Sq(a.Centroid().x - b.Centroid().x) + Sq(a.Centroid().y - b.Centroid().y)
  }

  // Squared diagonal of the smallest box enclosing both.
  function EnclosingDiagonalSq(a: Box, b: Box): real {
    Sq(Extent(a.x1, a.x2, b.x1, b.x2)) + Sq(Extent(a.y1, a.y2, b.y1, b.y2))
  }

  function EnclosingArea(a: Box, b: Box): real {
    Max(0.0, Extent(a.x1, a.x2, b.x1, b.x2)) * Max(0.0, Extent(a.y1, a.y2, b.y1, b.y2))
  }

  function BareArea(a: Box): real { Max(0.0, (a.x2 - a.x1) * (a.y2 - a.y1)) }

  // The overlap used for identity-switch counting: areas are not clamped per side.
  function BoxIou(a: Box, b: Box): real {
    var union := BareArea(a) + BareArea(b) - Intersection(a, b);
    if union <= 0.0 then 0.0 else Intersection(a, b) / union
  }

  const TINY: real := 0.000001

  function Clamp(v: real): real { Max(-1.0, Min(1.0, v)) }

  function Diou(a: Box, b: Box): real {
    if EnclosingDiagonalSq(a, b) <= TINY then Iou(a, b)
    else Clamp(Iou(a, b) - CentreGapSq(a, b) / EnclosingDiagonalSq(a, b))
  }

  function Giou(a: Box, b: Box): real {
    if EnclosingArea(a, b) <= TINY then Iou(a, b)
    else Clamp(Iou(a, b) - (EnclosingArea(a, b) - Union(a, b)) / EnclosingArea(a, b))
  }

  // ---------------------------------------------------------------- ranges

  lemma ProductMonotone(a: real, b: real, c: real, d: real)
    requires 0.0 <= a <= c && 0.0 <= b <= d
    ensures 0.0 <= a * b <= c * d
  {
    assert a * b <= c * b;
    assert c * b <= c * d;
  }

  lemma RatioInUnit(a: real, b: real)
    requires 0.0 <= a <= b && 0.0 < b
    ensures 0.0 <= a / b <= 1.0
  {
  }

  lemma OverlapInside(a1: real, a2: real, b1: real, b2: real)
    ensures 0.0 <= Overlap(a1, a2, b1, b2) <= Max(0.0, a2 - a1)
    ensures Overlap(a1, a2, b1, b2) == Overlap(b1, b2, a1, a2)
  {
  }

  // The overlap never exceeds the first box ...
  lemma IntersectionInsideFirst(a: Box, b: Box)
    ensures 0.0 <= Intersection(a, b) <= Area(a)
  {
    OverlapInside(a.x1, a.x2, b.x1, b.x2);
    OverlapInside(a.y1, a.y2, b.y1, b.y2);
    ProductMonotone(Overlap(a.x1, a.x2, b.x1, b.x2), Overlap(a.y1, a.y2, b.y1, b.y2),
                    Max(0.0, a.x2 - a.x1), Max(0.0, a.y2 - a.y1));
  }

  lemma IntersectionSymmetric(a: Box, b: Box)
    ensures Intersection(a, b) == Intersection(b, a)
  {
    OverlapInside(a.x1, a.x2, b.x1, b.x2);
    OverlapInside(a.y1, a.y2, b.y1, b.y2);
  }

  // ... nor the second, so it never exceeds the union.
  lemma IntersectionInside(a: Box, b: Box)
    ensures 0.0 <= Intersection(a, b) <= Area(a)
    ensures Intersection(a, b) <= Area(b)
    ensures Intersection(a, b) <= Union(a, b)
  {
    IntersectionInsideFirst(a, b);
    IntersectionInsideFirst(b, a);
    IntersectionSymmetric(a, b);
  }

  lemma IouRange(a: Box, b: Box)
    ensures 0.0 <= Iou(a, b) <= 1.0
  {
    IntersectionInside(a, b);
    if Union(a, b) > 0.0 {
      RatioInUnit(Intersection(a, b), Union(a, b));
    }
  }

  lemma SquareMonotone(a: real, b: real)
    requires -b <= a <= b
    ensures 0.0 <= Sq(a) <= Sq(b)
  {
    if a >= 0.0 {
      ProductMonotone(a, a, b, b);
    } else {
      ProductMonotone(-a, -a, b, b);
    }
  }

  // Both centres lie inside the enclosing box, so their gap is at most its diagonal.
  lemma CentreGapWithinDiagonal(a: Box, b: Box)
    requires a.WellFormed() && b.WellFormed()
    ensures 0.0 <= CentreGapSq(a, b) <= EnclosingDiagonalSq(a, b)
  {
    SquareMonotone(a.Centroid().x - b.Centroid().x, Extent(a.x1, a.x2, b.x1, b.x2));
    SquareMonotone(a.Centroid().y - b.Centroid().y, Extent(a.y1, a.y2, b.y1, b.y2));
  }

  // a, b: parts of two intervals outside their overlap w; p, q, h the same on the other axis.
  lemma CrossTerms(a: real, b: real, w: real, p: real, q: real, h: real)
    requires 0.0 <= a && 0.0 <= b && 0.0 <= w && 0.0 <= p && 0.0 <= q && 0.0 <= h
    ensures (a + w) * (p + h) + (b + w) * (q + h) - w * h <= (a + b + w) * (p + q + h)
  {
    ProductMonotone(0.0, 0.0, a, q);
    ProductMonotone(0.0, 0.0, b, p);
    assert (a + b + w) * (p + q + h)
        == (a + w) * (p + h) + (b + w) * (q + h) - w * h + a * q + b * p;
  }

  lemma IntervalParts(a1: real, a2: real, b1: real, b2: real)
    requires a1 <= a2 && b1 <= b2
    ensures 0.0 <= Overlap(a1, a2, b1, b2) <= a2 - a1
    ensures Overlap(a1, a2, b1, b2) <= b2 - b1
    ensures (a2 - a1) + (b2 - b1) - Overlap(a1, a2, b1, b2) <= Extent(a1, a2, b1, b2)
  {
  }

  // Side lengths of two boxes (a, b), of their overlap (o) and of their enclosing box (e).
  datatype Sides = Sides(aw: real, bw: real, ow: real, ew: real, ah: real, bh: real, oh: real, eh: real) {
    predicate Fit() {
      && 0.0 <= ow <= aw && ow <= bw && aw + bw - ow <= ew
      && 0.0 <= oh <= ah && oh <= bh && ah + bh - oh <= eh
    }

    function Covered(): real { aw * ah + bw * bh - ow * oh }

    function Enclosing(): real { ew * eh }
  }

  lemma CoveredWithin(s: Sides)
    requires s.Fit()
    ensures s.Covered() <= s.Enclosing()
  {
    CrossTerms(s.aw - s.ow, s.bw - s.ow, s.ow, s.ah - s.oh, s.bh - s.oh, s.oh);
    ProductMonotone(s.aw + s.bw - s.ow, s.ah + s.bh - s.oh, s.ew, s.eh);
  }

  function SidesOf(a: Box, b: Box): Sides {
    Sides(a.x2 - a.x1, b.x2 - b.x1, Overlap(a.x1, a.x2, b.x1, b.x2), Extent(a.x1, a.x2, b.x1, b.x2),
          a.y2 - a.y1, b.y2 - b.y1, Overlap(a.y1, a.y2, b.y1, b.y2), Extent(a.y1, a.y2, b.y1, b.y2))
  }

  lemma SidesFit(a: Box, b: Box)
    requires a.WellFormed() && b.WellFormed()
    ensures SidesOf(a, b).Fit()
  {
    IntervalParts(a.x1, a.x2, b.x1, b.x2);
    IntervalParts(a.y1, a.y2, b.y1, b.y2);
  }

  lemma AreaBySides(a: Box)
    requires a.WellFormed()
    ensures Area(a) == (a.x2 - a.x1) * (a.y2 - a.y1)
  {
  }

  lemma UnionBySides(a: Box, b: Box)
    requires a.WellFormed() && b.WellFormed()
    ensures Union(a, b) == SidesOf(a, b).Covered()
  {
    AreaBySides(a);
    AreaBySides(b);
  }

  lemma EnclosingBySides(a: Box, b: Box)
    requires a.WellFormed() && b.WellFormed()
    ensures EnclosingArea(a, b) == SidesOf(a, b).Enclosing()
  {
  }

  lemma UnionBelowEnclosing(a: Box, b: Box)
    requires a.WellFormed() && b.WellFormed()
    ensures Union(a, b) <= EnclosingArea(a, b)
  {
    SidesFit(a, b);
    UnionBySides(a, b);
    EnclosingBySides(a, b);
    CoveredWithin(SidesOf(a, b));
  }

  lemma UnionWithinEnclosing(a: Box, b: Box)
    requires a.WellFormed() && b.WellFormed()
    ensures 0.0 <= Union(a, b) <= EnclosingArea(a, b)
  {
    IntersectionInside(a, b);
    UnionBelowEnclosing(a, b);
  }

  // For well-formed boxes the clamp in DIoU never fires: the value is in [-1, 1]
  // by itself, is at most IoU, and does not depend on the order of the boxes.
  lemma DiouExact(a: Box, b: Box)
    requires a.WellFormed() && b.WellFormed()
    ensures -1.0 <= Diou(a, b) <= Iou(a, b) <= 1.0
    ensures EnclosingDiagonalSq(a, b) > TINY ==>
              Diou(a, b) == Iou(a, b) - CentreGapSq(a, b) / EnclosingDiagonalSq(a, b)
  {
    IouRange(a, b);
    CentreGapWithinDiagonal(a, b);
    if EnclosingDiagonalSq(a, b) > TINY {
      RatioInUnit(CentreGapSq(a, b), EnclosingDiagonalSq(a, b));
    }
  }

  lemma GiouExact(a: Box, b: Box)
    requires a.WellFormed() && b.WellFormed()
    ensures -1.0 <= Giou(a, b) <= Iou(a, b) <= 1.0
    ensures EnclosingArea(a, b) > TINY ==>
              Giou(a, b) == Iou(a, b) - (EnclosingArea(a, b) - Union(a, b)) / EnclosingArea(a, b)
  {
    IouRange(a, b);
    UnionWithinEnclosing(a, b);
    if EnclosingArea(a, b) > TINY {
      RatioInUnit(EnclosingArea(a, b) - Union(a, b), EnclosingArea(a, b));
    }
  }

  // DIoU stays in [-1, 1] even for boxes with swapped corners.
  lemma DiouRange(a: Box, b: Box)
    ensures -1.0 <= Diou(a, b) <= 1.0
  {
    IouRange(a, b);
  }

  lemma IouSymmetric(a: Box, b: Box)
    ensures Union(a, b) == Union(b, a) && Iou(a, b) == Iou(b, a)
  {
    IntersectionSymmetric(a, b);
  }

  lemma ExtentSymmetric(a1: real, a2: real, b1: real, b2: real)
    ensures Extent(a1, a2, b1, b2) == Extent(b1, b2, a1, a2)
  {
  }

  lemma EnclosingSymmetric(a: Box, b: Box)
    ensures EnclosingDiagonalSq(a, b) == EnclosingDiagonalSq(b, a)
    ensures EnclosingArea(a, b) == EnclosingArea(b, a)
  {
    ExtentSymmetric(a.x1, a.x2, b.x1, b.x2);
    ExtentSymmetric(a.y1, a.y2, b.y1, b.y2);
  }

  lemma SquareEven(d: real)
    ensures Sq(d) == Sq(-d)
  {
  }

  lemma CentreGapSymmetric(a: Box, b: Box)
    ensures CentreGapSq(a, b) == CentreGapSq(b, a)
  {
    SquareEven(a.Centroid().x - b.Centroid().x);
    SquareEven(a.Centroid().y - b.Centroid().y);
  }

  // Neither measure depends on the order of the boxes.
  lemma MetricsSymmetric(a: Box, b: Box)
    ensures Diou(a, b) == Diou(b, a)
    ensures Giou(a, b) == Giou(b, a)
  {
    IouSymmetric(a, b);
    EnclosingSymmetric(a, b);
    CentreGapSymmetric(a, b);
  }

  lemma SignOfProduct(w: real, h: real)
    requires 0.0 <= w && 0.0 <= h
    ensures w * h > 0.0 <==> w > 0.0 && h > 0.0
  {
  }

  lemma SelfRatio(a: real)
    requires a > 0.0
    ensures a / a == 1.0
  {
  }

  // A box compared with itself scores 1 exactly when it has area.
  lemma SelfOverlap(a: Box)
    requires a.WellFormed()
    ensures Iou(a, a) == if a.x1 < a.x2 && a.y1 < a.y2 then 1.0 else 0.0
    ensures Area(a) > TINY ==> Diou(a, a) == 1.0 && Giou(a, a) == 1.0
  {
    var w, h := a.x2 - a.x1, a.y2 - a.y1;
    assert Intersection(a, a) == Area(a) == Union(a, a) == w * h;
    SignOfProduct(w, h);
    if Union(a, a) > 0.0 {
      SelfRatio(Union(a, a));
    }
    if Area(a) > TINY {
      assert EnclosingArea(a, a) == Area(a);
      assert CentreGapSq(a, a) == 0.0;
      DiouExact(a, a);
    }
  }

  // ------------------------------------------------------------------ what the values mean

  // b lies within a.
  predicate Inside(b: Box, a: Box) { a.x1 <= b.x1 && b.x2 <= a.x2 && a.y1 <= b.y1 && b.y2 <= a.y2 }

  // Nothing of b sticks out: the smaller box is the overlap, the larger one the union and the hull.
  lemma InsideExact(a: Box, b: Box)
    requires b.WellFormed() && Inside(b, a)
    ensures Intersection(a, b) == Area(b) && Union(a, b) == Area(a) && EnclosingArea(a, b) == Area(a)
    ensures EnclosingDiagonalSq(a, b) == Sq(a.x2 - a.x1) + Sq(a.y2 - a.y1)
    ensures Area(a) > TINY ==> Iou(a, b) == Giou(a, b) == Area(b) / Area(a)
  {
    if Area(a) > TINY {
      GiouExact(a, b);
    }
  }

  // They overlap exactly when some point lies strictly inside both.
  lemma OverlapExactly(a: Box, b: Box)
    requires a.WellFormed() && b.WellFormed()
    ensures Iou(a, b) > 0.0 <==> a.x1 < b.x2 && b.x1 < a.x2 && a.y1 < b.y2 && b.y1 < a.y2
                                 && a.x1 < a.x2 && b.x1 < b.x2 && a.y1 < a.y2 && b.y1 < b.y2
  {
    SignOfProduct(Overlap(a.x1, a.x2, b.x1, b.x2), Overlap(a.y1, a.y2, b.y1, b.y2));
    IntersectionInside(a, b);
    if Intersection(a, b) > 0.0 {
      PositiveRatio(Intersection(a, b), Union(a, b));
    }
  }

  lemma PositiveRatio(a: real, b: real)
    requires 0.0 < a <= b
    ensures a / b > 0.0
  {
  }

  // Full overlap is equality.
  lemma FullOverlapExactly(a: Box, b: Box)
    requires a.WellFormed() && b.WellFormed()
    ensures Iou(a, b) == 1.0 <==> a == b && a.x1 < a.x2 && a.y1 < a.y2
  {
    SelfOverlap(a);
    if Iou(a, b) == 1.0 {
      var i, u := Intersection(a, b), Union(a, b);
      RatioOne(i, u);
      IntersectionInside(a, b);
      SidesEqual(Overlap(a.x1, a.x2, b.x1, b.x2), Overlap(a.y1, a.y2, b.y1, b.y2), a.x2 - a.x1, a.y2 - a.y1);
      SidesEqual(Overlap(a.x1, a.x2, b.x1, b.x2), Overlap(a.y1, a.y2, b.y1, b.y2), b.x2 - b.x1, b.y2 - b.y1);
    }
  }

  lemma RatioOne(a: real, b: real)
    requires b > 0.0 && a / b == 1.0
    ensures a == b
  {
  }

  lemma ZeroFactor(a: real, b: real)
    requires a * b == 0.0 && a > 0.0
    ensures b == 0.0
  {
  }

  lemma Distribute(a: real, b: real, c: real)
    ensures a * (b - c) == a * b - a * c
  {
  }

  // A part with the area of the whole is the whole.
  lemma SidesEqual(w: real, h: real, wide: real, high: real)
    requires 0.0 <= w <= wide && 0.0 <= h <= high && w * h == wide * high && w * h > 0.0
    ensures w == wide && h == high
  {
    SignOfProduct(w, h);
    ProductMonotone(w, h, wide, h);
    ProductMonotone(wide, h, wide, high);
    Distribute(wide, high, h);
    Distribute(h, wide, w);
    ZeroFactor(wide, high - h);
    ZeroFactor(h, wide - w);
  }

  function At(p: Point): Box { Box(p.x, p.y, p.x, p.y) }

  // Two points: as far apart as their hull is long, and so at the end of the scale.
  lemma PointsApart(p: Point, q: Point)
    ensures CentreGapSq(At(p), At(q)) == EnclosingDiagonalSq(At(p), At(q)) == Sq(p.x - q.x) + Sq(p.y - q.y)
    ensures Sq(p.x - q.x) + Sq(p.y - q.y) > TINY ==> Diou(At(p), At(q)) == -1.0
  {
    SquareEven(p.x - q.x);
    SquareEven(p.y - q.y);
    if Sq(p.x - q.x) + Sq(p.y - q.y) > TINY {
      DiouExact(At(p), At(q));
      SelfRatio(CentreGapSq(At(p), At(q)));
    }
  }

  // DIoU tells centres apart where IoU does not: it equals IoU exactly for a common centre.
  lemma SameCentreExactly(a: Box, b: Box)
    requires a.WellFormed() && b.WellFormed() && EnclosingDiagonalSq(a, b) > TINY
    ensures Diou(a, b) == Iou(a, b) <==> a.Centroid() == b.Centroid()
  {
    DiouExact(a, b);
    var dx, dy := a.Centroid().x - b.Centroid().x, a.Centroid().y - b.Centroid().y;
    SquareZero(dx);
    SquareZero(dy);
    if CentreGapSq(a, b) > 0.0 {
      CentreGapWithinDiagonal(a, b);
      PositiveRatio(CentreGapSq(a, b), EnclosingDiagonalSq(a, b));
    }
  }

  lemma SquareZero(d: real)
    ensures Sq(d) >= 0.0 && (Sq(d) == 0.0 <==> d == 0.0)
  {
    SquareNonNegative(d);
    if Sq(d) == 0.0 && d != 0.0 {
      ZeroFactor(if d > 0.0 then d else -d, if d > 0.0 then d else -d);
    }
  }

  lemma SquareNonNegative(d: real)
    ensures Sq(d) >= 0.0
  {
    SquareEven(d);
    ProductMonotone(0.0, 0.0, if d >= 0.0 then d else -d, if d >= 0.0 then d else -d);
  }

  lemma BareIsArea(a: Box)
    requires a.WellFormed()
    ensures BareArea(a) == Area(a)
  {
    ProductMonotone(0.0, 0.0, a.x2 - a.x1, a.y2 - a.y1);
  }

  // For well-formed boxes the overlap used for changes of identity is IoU.
  lemma BoxIouIsIou(a: Box, b: Box)
    requires a.WellFormed() && b.WellFormed()
    ensures BoxIou(a, b) == Iou(a, b)
  {
    BareIsArea(a);
    BareIsArea(b);
  }
}
