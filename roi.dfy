/** The Region Extractor: clip the two projected, rounded corners of the hand box to
    the depth grid and build the rectangle handed to OpenCV. */
module Roi {
  import opened Config

  /** An OpenCV rectangle: top-left corner, width and height (which may be zero or negative). */
  datatype Rect = Rect(x: int, y: int, width: int, height: int)

  /** Clamps one coordinate into [0, hi]. */
  function Clamp(v: int, hi: nat): (c: int)
    ensures 0 <= c <= hi
    ensures 0 <= v <= hi ==> c == v
    ensures v < 0 ==> c == 0
    ensures v > hi ==> c == hi
  {
    if v < 0 then 0 else if v > hi then hi else v
  }

  /** The rectangle spanned by the clamped corners (x1, y1) top-left and (x2, y2) bottom-right. */
  function ClipRoi(x1: int, y1: int, x2: int, y2: int): (r: Rect)
    ensures 0 <= r.x < DepthMapSizeX && 0 <= r.y < DepthMapSizeY
    ensures 0 <= r.x + r.width < DepthMapSizeX && 0 <= r.y + r.height < DepthMapSizeY
  {
    var left := Clamp(x1, DepthMapSizeX - 1);
    var top := Clamp(y1, DepthMapSizeY - 1);
    var right := Clamp(x2, DepthMapSizeX - 1);
    var bottom := Clamp(y2, DepthMapSizeY - 1);
    Rect(left, top, right - left, bottom - top)
  }

  /** The rectangle is set on the image only when it is non-empty in both directions. */
  predicate Applicable(r: Rect)
  {
    r.width > 0 && r.height > 0
  }

  /** A rectangle that covers only pixels of the depth grid. */
  predicate InFrame(r: Rect)
  {
    0 <= r.x && r.x + r.width <= DepthMapSizeX && 0 <= r.y && r.y + r.height <= DepthMapSizeY
  }

  /** The pixel rectangle handed to OpenCV never leaves the depth grid and never reaches
      its last column or row (the width is right - left, not right - left + 1). */
  lemma ApplicableRoiInFrame(x1: int, y1: int, x2: int, y2: int)
    requires Applicable(ClipRoi(x1, y1, x2, y2))
    ensures InFrame(ClipRoi(x1, y1, x2, y2))
    ensures ClipRoi(x1, y1, x2, y2).x + ClipRoi(x1, y1, x2, y2).width <= DepthMapSizeX - 1
    ensures ClipRoi(x1, y1, x2, y2).y + ClipRoi(x1, y1, x2, y2).height <= DepthMapSizeY - 1
  {
  }

  /** Corners already inside the grid are taken as they are. */
  lemma ClipRoiKeepsInnerCorners(x1: int, y1: int, x2: int, y2: int)
    requires 0 <= x1 < DepthMapSizeX && 0 <= x2 < DepthMapSizeX
    requires 0 <= y1 < DepthMapSizeY && 0 <= y2 < DepthMapSizeY
    ensures ClipRoi(x1, y1, x2, y2) == Rect(x1, y1, x2 - x1, y2 - y1)
  {
  }

  /** A hand box lying wholly off any side of the grid (or on its last column or row) clips to
      an empty rectangle, so no ROI is applied for it. */
  lemma OffGridBoxIsEmpty(x1: int, y1: int, x2: int, y2: int)
    requires x2 < 0 || y2 < 0 || x1 >= DepthMapSizeX - 1 || y1 >= DepthMapSizeY - 1
    ensures !Applicable(ClipRoi(x1, y1, x2, y2))
  {
  }
}
