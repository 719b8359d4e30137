/** The Hand Isolator: 16-bit depth to 8-bit intensity, the reference lower bound
    and the binary threshold applied inside the region of interest. */
module Depth {
  import opened Config

  /** A raw depth sample as the sensor delivers it (XnDepthPixel, unsigned 16 bits). */
  type Raw = v: int | 0 <= v < 0x1_0000
  /** A pixel of the 8-bit depth image. */
  type Byte = v: int | 0 <= v < 0x100

  /** Reinterprets an unsigned 16-bit value as a signed `short`. */
  function ToShort(v: Raw): (s: int)
    ensures -0x8000 <= s < 0x8000
    ensures (s - v) % 0x1_0000 == 0
    ensures s >= 0 <==> v < 0x8000
  {
    if v < 0x8000 then v else v - 0x1_0000
  }

  /** C conversion of a floating value to an integer: truncation toward zero. */
  function Trunc(x: real): int
  {
    if x >= 0.0 then x.Floor else -((-x).Floor)
  }

  /** The linear remap written as the source writes it, in real arithmetic and truncated,
      equals an integer division. */
  lemma RemapFormula(d: int)
    requires NearClippingDistance <= d <= FarClippingDistance
    ensures Trunc(255.0 - 255.0 * ((d - NearClippingDistance) as real /
                                   (FarClippingDistance - NearClippingDistance) as real))
            == (255 * (FarClippingDistance - d)) / 1500
  {
  }

  /** One pixel of the remap loop: the raw value is read as a `short`, values inside the
      clipping range map linearly to 255 (nearest) .. 0 (farthest), all others to 0. */
  function RemapPixel(v: Raw): (p: Byte)
    ensures p == if NearClippingDistance <= v <= FarClippingDistance
                 then (255 * (FarClippingDistance - v)) / 1500 else 0
  {
    var d := ToShort(v);
    if NearClippingDistance <= d <= FarClippingDistance then
      RemapFormula(d);
      Trunc(255.0 - 255.0 * ((d - NearClippingDistance) as real /
                             (FarClippingDistance - NearClippingDistance) as real))
    else
      0
  }

  lemma RemapEndpoints()
    ensures RemapPixel(NearClippingDistance) == 255
    ensures RemapPixel(FarClippingDistance) == 0
  {
  }

  /** Inside the clipping range, a nearer surface is never darker than a farther one. */
  lemma RemapMonotone(v1: Raw, v2: Raw)
    requires NearClippingDistance <= v1 <= v2 <= FarClippingDistance
    ensures RemapPixel(v1) >= RemapPixel(v2)
  {
  }

  /** A pixel is non-zero exactly when its depth lies in [500, 1994]: the last six
      millimetres of the range already round down to background. */
  lemma RemapNonZero(v: Raw)
    ensures RemapPixel(v) > 0 <==> NearClippingDistance <= v <= 1994
  {
  }

  /** The whole 8-bit image the remap loop produces. */
  function Remapped(depth: seq<Raw>): (img: seq<Byte>)
    ensures |img| == |depth|
    ensures forall k :: 0 <= k < |depth| ==> img[k] == RemapPixel(depth[k])
  {
    seq(|depth|, k requires 0 <= k < |depth| => RemapPixel(depth[k]))
  }

  /** The lower bound of the threshold: the reference pixel's intensity minus
      DepthThreshold, clamped at zero. The source does not check the flat index. */
  function LowerBound(img: seq<Byte>, tx: int, ty: int): (b: int)
    requires 0 <= ty * DepthMapSizeX + tx < |img|
    ensures 0 <= b <= 255 - DepthThreshold
    ensures b == 0 <==> img[ty * DepthMapSizeX + tx] <= DepthThreshold
    ensures b > 0 ==> b == img[ty * DepthMapSizeX + tx] - DepthThreshold
  {
    var lower := img[ty * DepthMapSizeX + tx] - DepthThreshold;
    if lower < 0 then 0 else lower
  }

  /** OpenCV's binary threshold with maximum 255: foreground only when strictly above the bound. */
  function ThresholdPixel(p: Byte, bound: int): (q: Byte)
  {
    if p > bound then 255 else 0
  }

  /** Around a reference value above DepthThreshold, a pixel is foreground exactly when it is
      less than DepthThreshold levels darker than the reference. */
  lemma ThresholdAroundReference(img: seq<Byte>, tx: int, ty: int, p: Byte)
    requires 0 <= ty * DepthMapSizeX + tx < |img|
    requires img[ty * DepthMapSizeX + tx] > DepthThreshold
    ensures ThresholdPixel(p, LowerBound(img, tx, ty)) == 255
            <==> p > img[ty * DepthMapSizeX + tx] - DepthThreshold
  {
  }

  /** The reference value itself passes the threshold exactly when it is non-zero, that is
      when the remapping gave its depth a level (depths 500 to 1994, by RemapNonZero). */
  lemma ReferenceIsForeground(img: seq<Byte>, tx: int, ty: int)
    requires 0 <= ty * DepthMapSizeX + tx < |img|
    ensures var r := img[ty * DepthMapSizeX + tx];
            ThresholdPixel(r, LowerBound(img, tx, ty)) == 255 <==> r > 0
  {
  }
}
