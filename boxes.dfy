/**
 * The axis-aligned box primitive: a rectangle (ymin, xmin, ymax, xmax) in
 * pixel coordinates, with the overlap measures the label-set operations use
 * (intersection over the box's own area, intersection over union) and
 * clipping to a window.
 */
module Boxes {

  datatype Box = Box(ymin: real, xmin: real, ymax: real, xmax: real) {

    /** The ordering invariant callers are expected to keep. */
    predicate WellFormed() {
      ymin <= ymax && xmin <= xmax
    }

    /** First component of the source's `Box.size`. */
    function Height(): real {
      ymax - ymin
    }

    /** Second component of the source's `Box.size`. */
    function Width(): real {
      xmax - xmin
    }

    function Area(): real {
      Height() * Width()
    }
  }

  function Min(a: real, b: real): real {
    if a <= b then a else b
  }

  function Max(a: real, b: real): real {
    if a >= b then a else b
  }

  /** Length of the common part of the intervals [lo1, hi1] and [lo2, hi2]. */
  function Overlap(lo1: real, hi1: real, lo2: real, hi2: real): (r: real)
    ensures r >= 0.0
    ensures r <= Max(0.0, hi1 - lo1) && r <= Max(0.0, hi2 - lo2)
  {
    Max(0.0, Min(hi1, hi2) - Max(lo1, lo2))
  }

  function IntersectionArea(a: Box, b: Box): real {
    Overlap(a.ymin, a.ymax, b.ymin, b.ymax) * Overlap(a.xmin, a.xmax, b.xmin, b.xmax)
  }

  /** `outer` contains `inner` (boundaries may touch). */
  predicate Contains(outer: Box, inner: Box) {
    outer.ymin <= inner.ymin && inner.ymax <= outer.ymax &&
    outer.xmin <= inner.xmin && inner.xmax <= outer.xmax
  }

  lemma MulMonotone(a: real, b: real, c: real, d: real)
    requires 0.0 <= a <= c && 0.0 <= b <= d
    ensures a * b <= c * d
  {
    assert a * b <= c * b;
    assert c * b <= c * d;
  }

  /** The intersection of a well-formed box with anything lies within its area. */
  lemma IntersectionWithinArea(b: Box, w: Box)
    ensures 0.0 <= IntersectionArea(b, w)
    ensures b.WellFormed() ==> IntersectionArea(b, w) <= b.Area()
  {
    MulMonotone(0.0, 0.0, Overlap(b.ymin, b.ymax, w.ymin, w.ymax), Overlap(b.xmin, b.xmax, w.xmin, w.xmax));
    if b.WellFormed() {
      MulMonotone(Overlap(b.ymin, b.ymax, w.ymin, w.ymax), Overlap(b.xmin, b.xmax, w.xmin, w.xmax),
                b.Height(), b.Width());
    }
  }

  /**
   * Intersection over area: the area of the intersection of `b` with `window`
   * divided by the area of `b`; a box of non-positive area has IOA 0.
   */
  function Ioa(b: Box, window: Box): (r: real)
    ensures r >= 0.0
    ensures b.WellFormed() ==> r <= 1.0
  {
    if b.Area() > 0.0 then
      IntersectionWithinArea(b, window);
      IntersectionArea(b, window) / b.Area()
    else 0.0
  }

  /** Intersection over union; 0 when the union has no positive area. */
  function Iou(a: Box, b: Box): (r: real)
    ensures r >= 0.0
    ensures r > 0.0 ==> IntersectionArea(a, b) > 0.0
  {
    var union := a.Area() + b.Area() - IntersectionArea(a, b);
    IntersectionWithinArea(a, b);
    if union > 0.0 then
      RatioVersusOne(IntersectionArea(a, b), union);
      IntersectionArea(a, b) / union
    else 0.0
  }

  /** Clamp `v` into [lo, hi]: first cap it at `hi`, then raise it to `lo`. */
  function Clamp(v: real, lo: real, hi: real): real {
    Max(Min(v, hi), lo)
  }

  /**
   * The box with every coordinate clamped into the window: it lies in a
   * well-formed window, and a well-formed box already inside is left alone.
   */
  function Clip(b: Box, window: Box): (r: Box)
    ensures window.WellFormed() ==> Contains(window, r)
    ensures window.WellFormed() && Contains(window, b) && b.WellFormed() ==> r == b
  {
    Box(Clamp(b.ymin, window.ymin, window.ymax), Clamp(b.xmin, window.xmin, window.xmax),
        Clamp(b.ymax, window.ymin, window.ymax), Clamp(b.xmax, window.xmin, window.xmax))
  }

  lemma {:induction false} ClampedLengthIsOverlap(lo: real, hi: real, wlo: real, whi: real)
    requires lo <= hi && wlo <= whi
    ensures Clamp(hi, wlo, whi) - Clamp(lo, wlo, whi) == Overlap(lo, hi, wlo, whi)
  {
    if hi < wlo {
      assert Clamp(hi, wlo, whi) == wlo == Clamp(lo, wlo, whi);
    } else if lo > whi {
      assert Clamp(hi, wlo, whi) == whi == Clamp(lo, wlo, whi);
    } else {
      assert Clamp(hi, wlo, whi) == Min(hi, whi);
      assert Clamp(lo, wlo, whi) == Max(lo, wlo);
    }
  }

  /**
   * Clipping a well-formed box to a well-formed window yields exactly the
   * intersection: its sides are the overlaps, so its area is the intersection area.
   */
  lemma {:induction false} ClipIsIntersection(b: Box, window: Box)
    requires b.WellFormed() && window.WellFormed()
    ensures Clip(b, window).WellFormed()
    ensures Clip(b, window).Height() == Overlap(b.ymin, b.ymax, window.ymin, window.ymax)
    ensures Clip(b, window).Width() == Overlap(b.xmin, b.xmax, window.xmin, window.xmax)
    ensures Clip(b, window).Area() == IntersectionArea(b, window)
  {
    ClampedLengthIsOverlap(b.ymin, b.ymax, window.ymin, window.ymax);
    ClampedLengthIsOverlap(b.xmin, b.xmax, window.xmin, window.xmax);
  }

  lemma {:induction false} FullOverlapIffInside(lo: real, hi: real, wlo: real, whi: real)
    requires lo < hi
    ensures Overlap(lo, hi, wlo, whi) == hi - lo <==> wlo <= lo && hi <= whi
  {
  }

  lemma {:induction false} ProductFullIffFactorsFull(p: real, q: real, h: real, w: real)
    requires 0.0 <= p <= h && 0.0 <= q <= w && h > 0.0 && w > 0.0
    ensures p * q >= h * w <==> p == h && q == w
  {
    if p < h {
      MulMonotone(p, q, p, w);
      MulPositive(h - p, w);
      assert (h - p) * w == h * w - p * w;
    } else if q < w {
      MulPositive(p, w - q);
      assert p * (w - q) == p * w - p * q;
    }
  }

  lemma RatioVersusOne(x: real, y: real)
    requires y > 0.0
    ensures x / y >= 1.0 <==> x >= y
    ensures x / y <= 1.0 <==> x <= y
    ensures x >= 0.0 ==> x / y >= 0.0
  {
  }

  lemma MulPositive(h: real, w: real)
    requires h > 0.0 && w > 0.0
    ensures h * w > 0.0
  {
  }

  lemma {:induction false} IoaAtLeastOneIffFullIntersection(b: Box, window: Box)
    requires b.Height() > 0.0 && b.Width() > 0.0
    ensures Ioa(b, window) >= 1.0 <==> IntersectionArea(b, window) >= b.Area()
  {
    var i, area := IntersectionArea(b, window), b.Area();
    MulPositive(b.Height(), b.Width());
    assert Ioa(b, window) == i / area;
    RatioVersusOne(i, area);
  }

  /**
   * For a box of positive area, IOA reaches 1 exactly when the box lies inside
   * the window: an IOA threshold of 1 keeps only fully contained boxes.
   */
  lemma {:induction false} IoaOneIffContained(b: Box, window: Box)
    requires b.ymin < b.ymax && b.xmin < b.xmax
    ensures Ioa(b, window) >= 1.0 <==> Contains(window, b)
  {
    var p := Overlap(b.ymin, b.ymax, window.ymin, window.ymax);
    var q := Overlap(b.xmin, b.xmax, window.xmin, window.xmax);
    IoaAtLeastOneIffFullIntersection(b, window);
    ProductFullIffFactorsFull(p, q, b.Height(), b.Width());
    FullOverlapIffInside(b.ymin, b.ymax, window.ymin, window.ymax);
    FullOverlapIffInside(b.xmin, b.xmax, window.xmin, window.xmax);
  }

  /** For well-formed boxes the intersection never exceeds the union, so IoU is at most 1. */
  lemma {:induction false} IouAtMostOne(a: Box, b: Box)
    requires a.WellFormed() && b.WellFormed()
    ensures 0.0 <= Iou(a, b) <= 1.0
  {
    IntersectionWithinArea(a, b);
    IntersectionWithinArea(b, a);
    assert Overlap(a.ymin, a.ymax, b.ymin, b.ymax) == Overlap(b.ymin, b.ymax, a.ymin, a.ymax);
    assert Overlap(a.xmin, a.xmax, b.xmin, b.xmax) == Overlap(b.xmin, b.xmax, a.xmin, a.xmax);
    ShareOfUnionAtMostOne(IntersectionArea(a, b), a.Area(), b.Area());
  }

  /** A common part no larger than either area is at most the whole union. */
  lemma ShareOfUnionAtMostOne(i: real, areaA: real, areaB: real)
    requires 0.0 <= i <= areaA && i <= areaB
    ensures areaA + areaB - i > 0.0 ==> i / (areaA + areaB - i) <= 1.0
  {
    if areaA + areaB - i > 0.0 {
      RatioVersusOne(i, areaA + areaB - i);
    }
  }
}
