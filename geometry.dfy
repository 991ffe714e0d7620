/** Axis-aligned boxes and the overlap tests the arcade games use. A box
    is its top-left corner with its width and height, in screen
    coordinates (y grows downwards). */
module Geometry {
  datatype Box = Box(x: real, y: real, w: real, h: real)

  /** The box shrunk by `d` on every side. */
  function Inset(b: Box, d: real): (r: Box)
    ensures r.x + r.w == b.x + b.w - d && r.y + r.h == b.y + b.h - d
  {
    Box(b.x + d, b.y + d, b.w - 2.0 * d, b.h - 2.0 * d)
  }

  /** The point lies in the box, edges included. */
  predicate InClosed(b: Box, px: real, py: real)
  {
    b.x <= px <= b.x + b.w && b.y <= py <= b.y + b.h
  }

  /** The point lies strictly inside the box. */
  predicate InOpen(b: Box, px: real, py: real)
  {
    b.x < px < b.x + b.w && b.y < py < b.y + b.h
  }

  /** Overlap of closed boxes: neither lies wholly to one side of the
      other, so touching edges count. */
  predicate ClosedOverlap(r1: Box, r2: Box)
  {
    !(r2.x > r1.x + r1.w || r2.x + r2.w < r1.x || r2.y > r1.y + r1.h || r2.y + r2.h < r1.y)
  }

  /** Strict overlap: the boxes share more than an edge. */
  predicate StrictOverlap(r1: Box, r2: Box)
  {
    r1.x < r2.x + r2.w && r1.x + r1.w > r2.x && r1.y < r2.y + r2.h && r1.y + r1.h > r2.y
  }

  /** A hit box shrunk from a sprite's box touches only what the sprite's
      box touches. */
  lemma InsetWithin(b: Box, d: real, o: Box)
    requires d >= 0.0
    ensures ClosedOverlap(Inset(b, d), o) ==> ClosedOverlap(b, o)
    ensures StrictOverlap(Inset(b, d), o) ==> StrictOverlap(b, o)
  {
  }

  /** Closed boxes overlap exactly when some point lies in both. */
  lemma ClosedOverlapIffSharedPoint(r1: Box, r2: Box)
    requires r1.w >= 0.0 && r1.h >= 0.0 && r2.w >= 0.0 && r2.h >= 0.0
    ensures ClosedOverlap(r1, r2) <==> exists px, py :: InClosed(r1, px, py) && InClosed(r2, px, py)
  {
    if ClosedOverlap(r1, r2) {
      var px := if r1.x < r2.x then r2.x else r1.x;
      var py := if r1.y < r2.y then r2.y else r1.y;
      assert InClosed(r1, px, py) && InClosed(r2, px, py);
    }
  }

  /** Boxes with some width and height overlap strictly exactly when
      some point lies inside both. */
  lemma StrictOverlapIffSharedInterior(r1: Box, r2: Box)
    requires r1.w > 0.0 && r1.h > 0.0 && r2.w > 0.0 && r2.h > 0.0
    ensures StrictOverlap(r1, r2) <==> exists px, py :: InOpen(r1, px, py) && InOpen(r2, px, py)
  {
    if StrictOverlap(r1, r2) {
      var left := if r1.x < r2.x then r2.x else r1.x;
      var right := if r1.x + r1.w < r2.x + r2.w then r1.x + r1.w else r2.x + r2.w;
      var top := if r1.y < r2.y then r2.y else r1.y;
      var bottom := if r1.y + r1.h < r2.y + r2.h then r1.y + r1.h else r2.y + r2.h;
      assert InOpen(r1, (left + right) / 2.0, (top + bottom) / 2.0);
      assert InOpen(r2, (left + right) / 2.0, (top + bottom) / 2.0);
    }
  }

  lemma ClosedOverlapSymmetric(r1: Box, r2: Box)
    ensures ClosedOverlap(r1, r2) <==> ClosedOverlap(r2, r1)
  {
  }

  lemma StrictOverlapSymmetric(r1: Box, r2: Box)
    ensures StrictOverlap(r1, r2) <==> StrictOverlap(r2, r1)
  {
  }

  /** Strict overlap implies closed overlap; the converse fails for boxes
      that only touch. */
  lemma StrictImpliesClosed(r1: Box, r2: Box)
    ensures StrictOverlap(r1, r2) ==> ClosedOverlap(r1, r2)
    ensures !StrictOverlap(Box(0.0, 0.0, 1.0, 1.0), Box(1.0, 0.0, 1.0, 1.0))
    ensures ClosedOverlap(Box(0.0, 0.0, 1.0, 1.0), Box(1.0, 0.0, 1.0, 1.0))
  {
  }
}
