/** Pixel boxes and their overlap, as the visual tracker and the suppression pass compute them. */
module Boxes {

  datatype Box = Box(x: int, y: int, w: int, h: int)

  function Max(a: int, b: int): int { if a >= b then a else b }

  function Min(a: int, b: int): int { if a <= b then a else b }

  function Overlap(a: Box, b: Box): int {
    Max(0, Min(a.x + a.w, b.x + b.w) - Max(a.x, b.x)) * Max(0, Min(a.y + a.h, b.y + b.h) - Max(a.y, b.y))
  }

  function Iou(a: Box, b: Box): real {
    var inter := Overlap(a, b);
    var union := a.w * a.h + b.w * b.h - inter;
    if union > 0 then inter as real / union as real else 0.0
  }

  predicate CenterInside(inner: Box, outer: Box) {
    var cx := inner.x as real + inner.w as real / 2.0;
    var cy := inner.y as real + inner.h as real / 2.0;
    outer.x as real <= cx <= (outer.x + outer.w) as real && outer.y as real <= cy <= (outer.y + outer.h) as real
  }

  predicate FullyInside(inner: Box, outer: Box) {
    inner.x >= outer.x && inner.y >= outer.y && inner.x + inner.w <= outer.x + outer.w
        && inner.y + inner.h <= outer.y + outer.h
  }

  lemma ProductMonotone(x: int, y: int, u: int, v: int)
    requires 0 <= x <= u && 0 <= y <= v
    ensures 0 <= x * y <= u * v
  {
    assert x * y <= u * y;
    assert u * y <= u * v;
  }

  lemma OverlapWithin(a: Box, b: Box)
    requires a.w >= 0 && a.h >= 0
    ensures 0 <= Overlap(a, b) <= a.w * a.h
  {
    var ow := Max(0, Min(a.x + a.w, b.x + b.w) - Max(a.x, b.x));
    var oh := Max(0, Min(a.y + a.h, b.y + b.h) - Max(a.y, b.y));
    ProductMonotone(ow, oh, a.w, a.h);
  }

  /** The overlap ratio is symmetric, between 0 and 1, and 0 exactly when the boxes share no pixel. */
  lemma IouBounds(a: Box, b: Box)
    requires a.w >= 0 && a.h >= 0 && b.w >= 0 && b.h >= 0
    ensures Iou(a, b) == Iou(b, a) && 0.0 <= Iou(a, b) <= 1.0
    ensures Iou(a, b) == 0.0 <==> Overlap(a, b) == 0
  {
    OverlapWithin(a, b);
    OverlapWithin(b, a);
    OverlapSymmetric(a, b);
    var p, q, inter := a.w * a.h, b.w * b.h, Overlap(a, b);
    if p + q - inter > 0 {
      RatioBounds(inter, p, q);
    }
  }

  lemma OverlapSymmetric(a: Box, b: Box)
    ensures Overlap(a, b) == Overlap(b, a)
  {
  }

  lemma RatioBounds(inter: int, p: int, q: int)
    requires 0 <= inter <= p && inter <= q && p + q - inter > 0
    ensures 0.0 <= inter as real / (p + q - inter) as real <= 1.0
    ensures inter as real / (p + q - inter) as real == 0.0 <==> inter == 0
  {
    var n, d := inter as real, (p + q - inter) as real;
    assert n / d * d == n;
    if inter > 0 {
      assert n / d > 0.0;
    }
  }

  /** A box inside another has its center there too. */
  lemma InsideImpliesCenter(inner: Box, outer: Box)
    requires inner.w >= 0 && inner.h >= 0 && FullyInside(inner, outer)
    ensures CenterInside(inner, outer)
  {
    assert inner.w as real / 2.0 <= inner.w as real && inner.h as real / 2.0 <= inner.h as real;
  }

  // ---- the overlap as a count of pixels ----

  ghost function Grid(x0: int, x1: int, y0: int, y1: int): set<(int, int)> {
    set x, y | x0 <= x < x1 && y0 <= y < y1 :: (x, y)
  }

  ghost function Pixels(b: Box): set<(int, int)> {
    Grid(b.x, b.x + b.w, b.y, b.y + b.h)
  }

  lemma {:induction false} ColumnSize(x: int, y0: int, y1: int)
    ensures |Grid(x, x + 1, y0, y1)| == Max(0, y1 - y0)
    decreases y1 - y0
  {
    if y1 <= y0 {
      assert Grid(x, x + 1, y0, y1) == {};
    } else {
      ColumnSize(x, y0, y1 - 1);
      assert Grid(x, x + 1, y0, y1) == Grid(x, x + 1, y0, y1 - 1) + {(x, y1 - 1)};
    }
  }

  lemma {:induction false} GridSize(x0: int, x1: int, y0: int, y1: int)
    ensures |Grid(x0, x1, y0, y1)| == Max(0, x1 - x0) * Max(0, y1 - y0)
    decreases x1 - x0
  {
    if x1 <= x0 {
      assert Grid(x0, x1, y0, y1) == {};
    } else {
      GridSize(x0, x1 - 1, y0, y1);
      ColumnSize(x1 - 1, y0, y1);
      var front, last := Grid(x0, x1 - 1, y0, y1), Grid(x1 - 1, x1, y0, y1);
      assert Grid(x0, x1, y0, y1) == front + last && front !! last;
      var n, h := x1 - 1 - x0, Max(0, y1 - y0);
      assert (n + 1) * h == n * h + h;
    }
  }

  lemma PixelCount(b: Box)
    requires b.w >= 0 && b.h >= 0
    ensures |Pixels(b)| == b.w * b.h
  {
    GridSize(b.x, b.x + b.w, b.y, b.y + b.h);
  }

  lemma GridHas(x0: int, x1: int, y0: int, y1: int, p: (int, int))
    ensures p in Grid(x0, x1, y0, y1) <==> x0 <= p.0 < x1 && y0 <= p.1 < y1
  {
  }

  lemma GridsMeet(x0: int, x1: int, y0: int, y1: int, u0: int, u1: int, v0: int, v1: int)
    ensures Grid(x0, x1, y0, y1) * Grid(u0, u1, v0, v1) == Grid(Max(x0, u0), Min(x1, u1), Max(y0, v0), Min(y1, v1))
  {
    hide Grid;
    var meet := Grid(Max(x0, u0), Min(x1, u1), Max(y0, v0), Min(y1, v1));
    forall p: (int, int) ensures p in Grid(x0, x1, y0, y1) * Grid(u0, u1, v0, v1) <==> p in meet {
      GridHas(x0, x1, y0, y1, p);
      GridHas(u0, u1, v0, v1, p);
      GridHas(Max(x0, u0), Min(x1, u1), Max(y0, v0), Min(y1, v1), p);
    }
  }

  lemma SharedCount(a: Box, b: Box)
    ensures |Pixels(a) * Pixels(b)| == Overlap(a, b)
  {
    hide Grid, Max, Min;
    GridSize(Max(a.x, b.x), Min(a.x + a.w, b.x + b.w), Max(a.y, b.y), Min(a.y + a.h, b.y + b.h));
    GridsMeet(a.x, a.x + a.w, a.y, a.y + a.h, b.x, b.x + b.w, b.y, b.y + b.h);
  }

  /** The overlap is the number of shared pixels, and the ratio that of the shared to the covered ones. */
  lemma OverlapCountsPixels(a: Box, b: Box)
    requires a.w >= 0 && a.h >= 0 && b.w >= 0 && b.h >= 0
    ensures var shared, covered := |Pixels(a) * Pixels(b)|, |Pixels(a) + Pixels(b)|;
            && Overlap(a, b) == shared
            && Iou(a, b) == if covered == 0 then 0.0 else shared as real / covered as real
  {
    hide Overlap, Pixels;
    var p, q := Pixels(a), Pixels(b);
    PixelCount(a);
    PixelCount(b);
    SharedCount(a, b);
    assert |p + q| == |p| + |q| - |p * q|;
  }

  /** A box with pixels is inside another exactly when all its pixels are. */
  lemma InsideMeansPixels(inner: Box, outer: Box)
    requires inner.w > 0 && inner.h > 0
    ensures FullyInside(inner, outer) <==> Pixels(inner) <= Pixels(outer)
  {
    if Pixels(inner) <= Pixels(outer) {
      assert (inner.x, inner.y) in Pixels(inner);
      assert (inner.x + inner.w - 1, inner.y + inner.h - 1) in Pixels(inner);
    }
  }

  /** The center test, in half pixels: the edges of the outer box count. */
  lemma CenterExactly(inner: Box, outer: Box)
    ensures CenterInside(inner, outer) <==>
            && 2 * outer.x <= 2 * inner.x + inner.w <= 2 * (outer.x + outer.w)
            && 2 * outer.y <= 2 * inner.y + inner.h <= 2 * (outer.y + outer.h)
  {
    HalfWay(outer.x, inner.x, inner.w);
    HalfWay(outer.y, inner.y, inner.h);
    HalfWay(outer.x + outer.w, inner.x, inner.w);
    HalfWay(outer.y + outer.h, inner.y, inner.h);
  }

  lemma HalfWay(edge: int, start: int, size: int)
    ensures edge as real <= start as real + size as real / 2.0 <==> 2 * edge <= 2 * start + size
    ensures start as real + size as real / 2.0 <= edge as real <==> 2 * start + size <= 2 * edge
  {
  }
}
