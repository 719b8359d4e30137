# AirCursor hand analysis in Dafny

A model of the per-update hand analysis of the AirCursor library (Qt + OpenNI/NITE + OpenCV),
which turns a Kinect depth map and a tracked hand position into a smoothed hand position, a
debounced grab/release signal and proximity warnings. Each time the tracker reports a hand
position, `AirCursor::handUpdateCB` does the following, in this order:

1. It pushes the raw position into a five-point moving-average window (`newHandPoint`).
2. It runs `analyzeGrab`:
   - remaps the 16-bit depth map to an 8-bit image, 255 nearest and 0 outside 500-2000 mm;
   - clips the projected hand box to the 640 x 480 grid;
   - thresholds the image around a reference pixel below the hand;
   - keeps the biggest contour of at least 1000 pixels;
   - counts the convexity defects deep enough for the hand's distance;
   - classifies the frame as closed when no defect is valid.
3. It runs `updateState`: it smooths the classification into a running value and applies a
   0.4/0.6 hysteresis, emitting `grab` or `grabRelease` only on a transition.
4. It emits the position event, carrying the smoothed position and the new grab state.
5. It emits `handTooClose` or `handTooFar`, based on the raw distance.

Files (one Dafny module each, `Config` and `Wrappers` share `config.dfy`):

- `config.dfy`: the constants at the top of `aircursor.cpp`, and `Option`.
- `depth.dfy` (`Depth`): the `short` cast, the per-pixel remap, the threshold lower bound and
  the binary threshold pixel.
- `roi.dfy` (`Roi`): clamping the projected corners and building the OpenCV rectangle.
- `shape.dfy` (`Shape`): the biggest-contour scan, the valid-defect count and the classification.
- `grab_state.dfy` (`GrabState`): the running value and the hysteresis machine as functions, and
  their behaviour over sequences of frames.
- `smoothing.dfy` (`Smoothing`): the FIFO window and its mean.
- `air_cursor.dfy` (`AirCursor`): the `AirCursor` class. It holds the session fields
  (`m_handPoints`, `m_handPosSmooth`, `m_handPosRealWorld`, `m_currentGrab`,
  `m_runningGrab`, `m_grabbing`, the 8-bit image buffer and the ROI set on it). Its methods
  update those fields in place, as the C++ does, and return the signals they emit.

Three behaviours of the code that are easy to miss:

- An empty ROI does not skip anything. Line 417 only skips `cvSetImageROI`. The analysis and
  `updateState` still run, and the ROI set on an earlier frame stays on the image, because it
  is never reset on `m_iplDepthMap`. The class keeps that ROI in the field `roi`.
- The threshold is OpenCV's `CV_THRESH_BINARY`: a pixel is foreground only when it is strictly
  above the lower bound.
- A frame with no contour of at least 1000 pixels has 0 valid defects and therefore classifies
  as closed (grabbing), not open (lines 503 and 578-581).

## Model

| member | source | states |
|---|---|---|
| `Depth.ToShort` | aircursor.cpp:365 | the `short` cast keeps the 16 bits (same value modulo 65536) and makes values of 32768 and above negative |
| `Depth.RemapFormula` | aircursor.cpp:370-374 | the float formula `255 - 255*(d-500)/1500`, truncated, equals the integer `(255*(2000-d)) div 1500` on [500, 2000] |
| `Depth.RemapPixel` | aircursor.cpp:365-377 | a raw depth maps to `(255*(2000-v)) div 1500` when it lies in [500, 2000] and to 0 otherwise, values above 32767 included; the result is a byte |
| `Depth.RemapEndpoints` | aircursor.cpp:370-374 | depth 500 maps to 255 and depth 2000 to 0 |
| `Depth.RemapMonotone` | aircursor.cpp:370-374 | inside the clipping range the remap is non-increasing in depth |
| `Depth.RemapNonZero` | aircursor.cpp:365-377 | a pixel is non-zero exactly for depths 500..1994 |
| `Depth.Remapped` | aircursor.cpp:356-392 | the 8-bit image has one pixel per depth sample, each the remap of its sample |
| `Depth.LowerBound` | aircursor.cpp:426-430 | the bound lies in [0, 245]; it is 0 exactly when the reference pixel is at most 10, and otherwise the reference pixel minus 10 |
| `Depth.ThresholdAroundReference` | aircursor.cpp:429-431 | for a reference pixel above 10, a pixel becomes foreground exactly when it is more than reference - 10 |
| `Depth.ReferenceIsForeground` | aircursor.cpp:426-431 | the reference value itself passes the threshold exactly when it is non-zero, i.e. when its depth was in 500..1994; this is about the value, and a reference pixel outside the ROI in force is not thresholded at all |
| `Roi.Clamp` | aircursor.cpp:410-413 | a coordinate is clamped into [0, hi], unchanged when already inside, 0 below and hi above |
| `Roi.ClipRoi` | aircursor.cpp:407-416 | both corners of the rectangle lie in [0, 639] x [0, 479] |
| `Roi.ApplicableRoiInFrame` | aircursor.cpp:410-419 | a rectangle with positive width and height lies inside the grid and never reaches column 639 or row 479 |
| `Roi.ClipRoiKeepsInnerCorners` | aircursor.cpp:408-416 | corners already inside the grid give exactly the rectangle they span |
| `Roi.OffGridBoxIsEmpty` | aircursor.cpp:410-417 | a box wholly left of, above, right of or below the grid gives an empty rectangle |
| `Shape.BiggestContour` | aircursor.cpp:488-501 | nothing is selected exactly when no area reaches 1000; otherwise the selected contour reaches 1000, is at least every qualifying contour and is strictly bigger than every qualifying contour before it |
| `Shape.BiggestIsUnique` | aircursor.cpp:489-501 | those properties determine the selected contour |
| `Shape.CountDeep` | aircursor.cpp:540-548 | the number of defects at least minSize deep never exceeds the number of defects |
| `Shape.CountDeepNoneIff` | aircursor.cpp:540-548 | the count is 0 exactly when every defect is shallower than the minimum |
| `Shape.CountDeepAllIff` | aircursor.cpp:540-548 | the count equals the number of defects exactly when every defect reaches the minimum |
| `Shape.CountDeepAntitone` | aircursor.cpp:527-548 | a larger projected minimum size (a nearer hand) never counts more defects |
| `Shape.CountValidDefects` | aircursor.cpp:536-548 | the counting loop returns the number of defects whose depth is at least the projected minimum |
| `Shape.ValidDefectCount` | aircursor.cpp:503-548 | the frame's valid-defect count is at most the defect count, is 0 without a qualifying contour, and is 0 exactly when no contour qualifies or every defect is too shallow |
| `Shape.ClosedIff` | aircursor.cpp:503-585 | the frame is closed exactly when no contour qualifies or no defect of the biggest one is deep enough |
| `Shape.NoContourIsClosed` | aircursor.cpp:503-505 | a frame without a contour of at least 1000 pixels classifies as grabbing |
| `Shape.NearerHandClosesSooner` | aircursor.cpp:527-585 | if a frame is closed for one minimum defect size, it stays closed for any larger one |
| `GrabState.Smooth` | aircursor.cpp:606-608 | the running value stays in [0, 1] |
| `GrabState.Step` | aircursor.cpp:606-626 | one update keeps the machine consistent; a grab happens only above 0.6 and a release only below 0.4; inside [0.4, 0.6] the state is unchanged |
| `GrabState.InitialConsistent` | aircursor.cpp:60-72 | the constructed state (0.0, not grabbing) is consistent |
| `GrabState.Run` | aircursor.cpp:606-626 | any number of updates keeps the machine consistent, so the running value stays in [0, 1] forever |
| `GrabState.RunningFromInitial` | aircursor.cpp:606-617 | from the initial state, n closed frames give a running value of 1 - 0.5^n, and the hand grabs from the second frame on |
| `GrabState.GrabFiresOnceAtSecondFrame` | aircursor.cpp:606-626 | under a constant stream of closed frames exactly one grab fires, at the second update, and no release fires |
| `GrabState.StateIsLastVerdict` | aircursor.cpp:606-626 | after any stream of frames the state is Grabbing if the last running value outside [0.4, 0.6] was above 0.6, Open if it was below 0.4, and the starting state if there was none: values inside the band never change it |
| `GrabState.BandNeverHeldTwice` | aircursor.cpp:606-608 | an update that starts inside [0.4, 0.6] always leaves that band, so the state is decided again at least every second frame |
| `GrabState.GrabWithinTwoFrames` | aircursor.cpp:606-617 | from any consistent state, two closed frames end in Grabbing |
| `GrabState.ReleaseWithinTwoFrames` | aircursor.cpp:606-625 | from any consistent state, two open frames end in Open |
| `GrabState.SettledIgnoresOneFrame` | aircursor.cpp:606-625 | a grab with running value at least 0.8, or an open hand at most 0.2, survives one contrary frame |
| `GrabState.GrabThenOneOpenFrameReleases` | aircursor.cpp:606-625 | closed, closed, open from the start grabs at the second frame and releases at the third |
| `GrabState.ClosedStreamFromMiddle` | aircursor.cpp:606-617 | from 0.5 and Open, closed frames give 0.75, 0.875, 0.9375, and the grab fires at the first of them |
| `Smoothing.Window` | aircursor.cpp:633-634 | after a push the window holds min(old size + 1, 5) points, the new point last |
| `Smoothing.WindowIsSuffix` | aircursor.cpp:633-634 | the window is the tail of the old window followed by the new point, so the oldest points are evicted first |
| `Smoothing.SumOfRepeat` | aircursor.cpp:636-643 | the sum of n copies of a point is n times that point |
| `Smoothing.MeanOfRepeat` | aircursor.cpp:645-647 | the mean of identical points is that point |
| `Smoothing.WindowGrowsRun` | aircursor.cpp:633-634 | pushing p onto a window that ends in k copies of p makes it end in k + 1 copies |
| `Smoothing.FeedRepeat` | aircursor.cpp:633-634 | enough pushes of p fill the window with five copies of p |
| `Smoothing.SteadyHandConverges` | aircursor.cpp:629-648 | after five identical samples the window is those five and the smoothed position equals the sample |
| `Smoothing.OneSampleStep` | aircursor.cpp:629-648 | from a full window of p, one sample q moves the smoothed position by exactly (q - p)/5 |
| `AirCursor.Thresholded` | aircursor.cpp:431 | inside the region every pixel becomes 255 when above the bound and 0 otherwise; outside the region pixels are untouched |
| `AirCursor.NextRoi` | aircursor.cpp:415-421 | a non-empty rectangle becomes the image's ROI; an empty one leaves the previous ROI in place |
| `AirCursor.TransitionEvents` | aircursor.cpp:610-625 | at most one event: a grab exactly on Open to Grabbing, a release exactly on Grabbing to Open, none when the state is unchanged |
| `AirCursor.Proximity` | aircursor.cpp:155-162 | at most one warning: too close exactly when z < 700, too far exactly when z > 1700 |
| `AirCursor.FrameEventsOrdered` | aircursor.cpp:148-162 | one update emits exactly one position event with the smoothed position and the new state; a grab or release before it and a warning after it, each at most once |
| `AirCursor.AirCursor.constructor` | aircursor.cpp:60-76 | empty window, running value 0.0, not grabbing, no ROI |
| `AirCursor.AirCursor.RemapDepthMap` | aircursor.cpp:356-392 | the nested loop leaves the image equal to the remap of the depth map |
| `AirCursor.AirCursor.ApplyThreshold` | aircursor.cpp:431 | the image becomes its threshold on the current ROI (the whole image if none was ever set) |
| `AirCursor.AirCursor.AnalyzeGrab` | aircursor.cpp:348-585 | `Analyzed`: the image is the remapped depth map, thresholded at the reference lower bound on the ROI in force; the ROI changes only for a non-empty rectangle; `currentGrab` is the frame's classification, empty ROI or not |
| `AirCursor.AirCursor.UpdateState` | aircursor.cpp:606-626 | the running value and the state take one hysteresis step, consistency is kept, and the returned events are the transition's |
| `AirCursor.AirCursor.NewHandPoint` | aircursor.cpp:629-648 | the window is the FIFO update with the new point and the smoothed position is its mean |
| `AirCursor.AirCursor.HandUpdateCallback` | aircursor.cpp:140-163 | every update pushes the raw point into the window, completes the analysis (`Analyzed`) and takes one state-machine step on the frame's classification; it returns `FrameEvents` of the old and new state, with the raw point and the smoothed position |

## Left out

- Sensor, tracker and middleware: OpenNI/NITE setup (`init`), the gesture, session, push and
  swipe callbacks, and hand create/destroy. They forward middleware events and have no logic of
  their own.
- The capture loop (`run`), `stop` and the mutex-guarded quit flag, and the singleton in
  `aircursor.h`. These are threading glue.
- OpenCV's contour extraction, contour area, convex hull and convexity defects. Their results
  enter as `FrameInput.contourAreas` and `FrameInput.defectDepths`. The defects are those of the
  selected contour, so the model does not relate them to the thresholded image.
- `AirCursor.AirCursor.AnalyzeGrab`: the image it promises is the one handed to contour
  extraction. `cvFindContours` (aircursor.cpp:479) then rewrites that image in place inside the
  ROI (0/1 pixels and border marks), and the model does not follow that rewrite.
- The real-world to projective conversions and `qRound`. The rounded ROI corners, the truncated
  reference point and the projected minimum defect size enter as integers in `FrameInput`. So
  does `m_handPosProjected`: it enters the model only through that minimum defect size
  (`FrameInput.defectMinSize`).
- The real-world constants used only inside those conversions: the ROI margins 110, 110, 100,
  150, the 30 mm reference offset and `DEFECT_MIN_SIZE` (25 mm).
- The debug image, its painting, the contour, hull and defect drawings, and the debug strings.
  They are rendering only.
- `Depth.RemapPixel`: `float` and `qreal` are modelled as exact reals. Single-precision rounding
  can make the float formula land just below an integer and truncate one level lower. The model
  is the exact formula, not bit-exact.
- `GrabState.Smooth`: the double running value is modelled exactly. Under consecutive closed frames
  the double reaches exactly 1.0 after about 54 updates; under open frames it halves exactly down
  through the subnormals and reaches 0.0 only after about 1075 updates. The model does not follow
  that rounding. The thresholds 0.5 + 0.1 and 0.5 - 0.1 are taken as exactly 0.6 and 0.4.
- `Depth.LowerBound`: the code reads the reference pixel at a flat index without checking it.
  The model requires the index to lie in the image. An index outside it is undefined behaviour
  in the C++.
- The fields `m_grabCounter`, `m_grabDetected` and `m_grabStarted` are never used by the core
  and are not modelled. `m_handPosSmooth` starts uninitialised in C++, and the model starts it
  at the origin. It is always written before it is read.
- Events are returned as a sequence from each method instead of being emitted through Qt
  signals. The timestamp is passed through unchanged.
