/**
 * The shapes the vision pipeline works on: the rotated rectangle fitted to a
 * contour, the contour measurement itself, the normalised `BetterRectangle`
 * built from a rotated rectangle, and a left/right `Pair` of them.
 */
module Geometry {

  /** A minimum-area rotated rectangle: centre, size as reported (either side
      may be the longer one) and tilt in degrees. */
  datatype RotatedRect = RotatedRect(cx: real, cy: real, sizeW: real, sizeH: real, angle: real)

  /** One contour as measured by the vision library: its area and the rotated
      rectangle fitted to it. */
  datatype Contour = Contour(area: real, rect: RotatedRect)

  /** A `BetterRectangle`: the rotated rectangle it was built from, its sides
      reordered so that `width` is the shorter one, their product and the tilt. */
  datatype Rect = Rect(rotated: RotatedRect, width: real, height: real, area: real, angle: real)

  /** Two halves of one target in fixed roles. */
  datatype Pair = Pair(left: Rect, right: Rect)

  /** The `BetterRectangle` constructor: the shorter side becomes the width,
      the longer the height; the tilt and the rotated rectangle are kept. */
  function Normalize(r: RotatedRect): (b: Rect)
    ensures b.rotated == r && b.angle == r.angle
    ensures b.width <= b.height
    ensures (b.width == r.sizeW && b.height == r.sizeH) || (b.width == r.sizeH && b.height == r.sizeW)
    ensures b.area == b.width * b.height
  {
    if r.sizeH > r.sizeW then Rect(r, r.sizeW, r.sizeH, r.sizeW * r.sizeH, r.angle)
    else Rect(r, r.sizeH, r.sizeW, r.sizeH * r.sizeW, r.angle)
  }

  /** Normalising a rectangle whose sides are already in order keeps them. */
  lemma NormalizeOrdered(r: RotatedRect)
    requires r.sizeW <= r.sizeH
    ensures Normalize(r).width == r.sizeW && Normalize(r).height == r.sizeH
  {
  }

  /** Horizontal centre of a rectangle. */
  function CenterX(r: Rect): real { r.rotated.cx }

  /** Horizontal midpoint of the two centres of a pair. */
  function PairCenterX(p: Pair): real { (CenterX(p.left) + CenterX(p.right)) / 2.0 }

  /** The midpoint of a pair does not depend on which member is `left`. */
  lemma PairCenterSymmetric(a: Rect, b: Rect)
    ensures PairCenterX(Pair(a, b)) == PairCenterX(Pair(b, a))
  {
  }
}
