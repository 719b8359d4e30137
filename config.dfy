/** Tuning constants of the air cursor (aircursor.cpp, top of file). */
module Config {
  /** Weight of the previous running grab value in the exponential smoothing. */
  const GrabSmoothingFactor: real := 0.5
  /** Half-width of the hysteresis band around 0.5. */
  const GrabStateChangeThreshold: real := 0.1
  /** Capacity of the moving-average window of raw hand positions. */
  const NumOfSmoothingPoints: nat := 5

  const DepthMapSizeX: nat := 640
  const DepthMapSizeY: nat := 480
  const DepthMapPixels: nat := 640 * 480

  /** How many 8-bit intensity levels behind the reference pixel still count as hand. */
  const DepthThreshold: int := 10
  /** Largest valid-defect count still classified as a closed (grabbing) hand. */
  const GrabMaxDefects: int := 0

  /** Depth clipping range in millimetres. */
  const NearClippingDistance: int := 500
  const FarClippingDistance: int := 2000

  /** Distances in millimetres whose crossing raises a proximity warning. */
  const NearWarningDistance: real := 700.0
  const FarWarningDistance: real := 1700.0

  /** Contours enclosing less than this area are treated as noise. */
  const ContourMinSize: real := 1000.0
}

module Wrappers {
  datatype Option<+T> = None | Some(value: T)
}
