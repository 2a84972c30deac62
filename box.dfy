/** The crop rectangle the pipeline emits for a frame, and the `min`/`max`
    helpers the stages share. */
module BoundingBoxes {

  /** A bounding box `(left, top, right, bottom)` in pixels. */
  datatype Box = Box(left: int, top: int, right: int, bottom: int)

  function IntMin(a: int, b: int): int { if a <= b then a else b }
  function IntMax(a: int, b: int): int { if a <= b then b else a }
  function RealMin(a: real, b: real): real { if b < a then b else a }
  function RealMax(a: real, b: real): real { if b > a then b else a }

  /** `v` lies between `a` and `b`, whichever is larger. */
  predicate Between(v: int, a: int, b: int)
  {
    IntMin(a, b) <= v <= IntMax(a, b)
  }

  /** Every coordinate of `b` lies between the matching coordinates of `s` and `f`. */
  predicate BoxBetween(b: Box, s: Box, f: Box)
  {
    Between(b.left, s.left, f.left) && Between(b.top, s.top, f.top) &&
    Between(b.right, s.right, f.right) && Between(b.bottom, s.bottom, f.bottom)
  }
}
