/**
 * The rectangle arithmetic of the face detector: each detected rectangle is
 * widened by a shift and made square, in place.
 */
module FacialDetectors {
  import opened JavaLang
  import opened Classifications

  /** OpenCV's Rect: four Java ints read and written through accessors. */
  class Rect {
    var x: int
    var y: int
    var width: int
    var height: int

    ghost predicate Valid()
      reads this
    {
      IsInt32(x) && IsInt32(y) && IsInt32(width) && IsInt32(height)
    }

    constructor(x: int, y: int, width: int, height: int)
      requires IsInt32(x) && IsInt32(y) && IsInt32(width) && IsInt32(height)
      ensures Valid()
      ensures this.x == x && this.y == y && this.width == width && this.height == height
    {
      this.x, this.y, this.width, this.height := x, y, width, height;
    }
  }

  /** A detected face: its (squared) rectangle and the classification drawn over it. */
  class Face {
    var rect: Rect
    var box: ClassId

    constructor(rect: Rect, box: ClassId)
      ensures this.rect == rect && this.box == box
    {
      this.rect, this.box := rect, box;
    }
  }

  /**
   * expandAndSquareRect, with `shift` the already truncated product of the
   * width and the expansion factor: the origin moves up and left by half the
   * shift, the width grows by the shift, and the height becomes the width.
   * The same rectangle is updated and returned.
   */
  method ExpandAndSquareRect(r: Rect, shift: int) returns (res: Rect)
    requires r.Valid() && IsInt32(shift)
    modifies r
    ensures res == r && r.Valid()
    ensures r.x == Wrap32(old(r.x) - Half(shift))
    ensures r.y == Wrap32(old(r.y) - Half(shift))
    ensures r.width == Wrap32(old(r.width) + shift)
    ensures r.height == r.width
  {
    var halfShift := Half(shift);
    r.x := Wrap32(r.x - halfShift);
    r.y := Wrap32(r.y - halfShift);
    r.width := Wrap32(r.width + shift);
    r.height := r.width;
    res := r;
  }

  /**
   * For a non-negative shift, and as long as no coordinate overflows, the
   * widened span [x', x' + w'] contains the old span [x, x + w]; the margin
   * on the left is half the shift and on the right the rest of it.
   */
  lemma ExpandedSpanContains(x: int, w: int, shift: int)
    requires 0 <= shift && IsInt32(x - Half(shift)) && IsInt32(w + shift)
    ensures Wrap32(x - Half(shift)) <= x
    ensures x + w <= Wrap32(x - Half(shift)) + Wrap32(w + shift)
    ensures x - Wrap32(x - Half(shift)) == Half(shift)
    ensures Wrap32(x - Half(shift)) + Wrap32(w + shift) - (x + w) == shift - Half(shift)
  {
  }
}
