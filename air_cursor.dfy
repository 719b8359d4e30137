/** The AirCursor object: the session state it keeps between hand updates, the per-update
    analysis and the events it emits. Sensor, projection and OpenCV results arrive as a
    FrameInput. */
module AirCursor {
  import opened Config
  import opened Wrappers
  import opened Roi
  import opened Depth
  import opened Shape
  import opened GrabState
  import opened Smoothing

  /** The signals emitted during a hand update. */
  datatype Event =
    | HandUpdate(position: Point, time: real, grabbing: bool)
    | Grab(at: Point)
    | GrabRelease(at: Point)
    | HandTooClose
    | HandTooFar

  /** What one hand update receives from the middleware and from OpenCV. */
  datatype FrameInput = FrameInput(
    depth: seq<Raw>,          // the 640 x 480 raw depth map, row by row
    topLeftX: int,            // rounded projection of the hand box's upper-left corner
    topLeftY: int,
    bottomRightX: int,        // rounded projection of the hand box's lower-right corner
    bottomRightY: int,
    thresholdX: int,          // truncated projection of the point 30 mm below the hand
    thresholdY: int,
    contourAreas: seq<real>,  // areas of the contours found in the thresholded region
    defectDepths: seq<real>,  // depths of the convexity defects of the biggest contour
    defectMinSize: int)       // projected length of DEFECT_MIN_SIZE at the hand

  /** The depth map has the grid's size and the reference pixel lies inside the image. */
  predicate WellFormed(f: FrameInput)
  {
    |f.depth| == DepthMapPixels && 0 <= f.thresholdY * DepthMapSizeX + f.thresholdX < DepthMapPixels
  }

  /** The frame's classification: true when the hand reads as closed. */
  function FrameClosed(f: FrameInput): bool
  {
    Classify(ValidDefectCount(f.contourAreas, f.defectDepths, f.defectMinSize))
  }

  /** The region the threshold works on: the ROI set on the image, or the whole image. */
  function Region(roi: Option<Rect>): Rect
  {
    if roi.None? then Rect(0, 0, DepthMapSizeX, DepthMapSizeY) else roi.value
  }

  /** Flat pixel index k lies inside rectangle r. */
  predicate InRect(r: Rect, k: int)
  {
    r.y <= k / DepthMapSizeX < r.y + r.height && r.x <= k % DepthMapSizeX < r.x + r.width
  }

  /** The image after the binary threshold on region r; pixels outside r are untouched. */
  function Thresholded(img: seq<Byte>, r: Rect, bound: int): (out: seq<Byte>)
    ensures |out| == |img|
    ensures forall k :: 0 <= k < |img| && !InRect(r, k) ==> out[k] == img[k]
    ensures forall k :: 0 <= k < |img| && InRect(r, k) ==> (out[k] == 255 <==> img[k] > bound)
    ensures forall k :: 0 <= k < |img| && InRect(r, k) ==> out[k] == 0 || out[k] == 255
  {
    seq(|img|, k requires 0 <= k < |img| => if InRect(r, k) then ThresholdPixel(img[k], bound) else img[k])
  }

  /** The ROI set on the depth image after a frame: a non-empty rectangle replaces it, an
      empty one leaves the previous ROI in place. */
  function NextRoi(previous: Option<Rect>, r: Rect): (next: Option<Rect>)
    ensures Applicable(r) ==> next == Some(r)
    ensures !Applicable(r) ==> next == previous
  {
    if r.height > 0 && r.width > 0 then Some(r) else previous
  }

  function TransitionEvents(wasGrabbing: bool, grabbing: bool, at: Point): (events: seq<Event>)
    ensures |events| <= 1
    ensures Grab(at) in events <==> !wasGrabbing && grabbing
    ensures GrabRelease(at) in events <==> wasGrabbing && !grabbing
    ensures events == [] <==> wasGrabbing == grabbing
  {
    if !wasGrabbing && grabbing then [Grab(at)]
    else if wasGrabbing && !grabbing then [GrabRelease(at)]
    else []
  }

  /** The proximity warnings for the raw distance z. */
  function Proximity(z: real): (events: seq<Event>)
    ensures |events| <= 1
    ensures HandTooClose in events <==> z < NearWarningDistance
    ensures HandTooFar in events <==> z > FarWarningDistance
    ensures forall i :: 0 <= i < |events| ==> events[i].HandTooClose? || events[i].HandTooFar?
  {
    if z < NearWarningDistance then [HandTooClose]
    else if z > FarWarningDistance then [HandTooFar]
    else []
  }

  /** The events of one hand update, in the order they are emitted. */
  function FrameEvents(wasGrabbing: bool, grabbing: bool, raw: Point, smooth: Point, time: real): seq<Event>
  {
    TransitionEvents(wasGrabbing, grabbing, raw) + [HandUpdate(smooth, time, grabbing)] + Proximity(raw.z)
  }

  /** Position in the emission order: state change, then position, then warning. */
  function Rank(e: Event): nat
  {
    match e
    case Grab(_) => 0
    case GrabRelease(_) => 0
    case HandUpdate(_, _, _) => 1
    case HandTooClose => 2
    case HandTooFar => 2
  }

  /** One hand update emits exactly one position event, carrying the smoothed position and the
      state after the update; at most one grab-or-release before it and at most one warning
      after it, never both warnings. */
  lemma FrameEventsOrdered(wasGrabbing: bool, grabbing: bool, raw: Point, smooth: Point, time: real)
    ensures var e := FrameEvents(wasGrabbing, grabbing, raw, smooth, time);
            && 1 <= |e| <= 3
            && (forall i, j :: 0 <= i < j < |e| ==> Rank(e[i]) < Rank(e[j]))
            && (forall i :: 0 <= i < |e| && e[i].HandUpdate? ==> e[i] == HandUpdate(smooth, time, grabbing))
            && (exists i :: 0 <= i < |e| && e[i].HandUpdate?)
            && (Grab(raw) in e <==> !wasGrabbing && grabbing)
            && (GrabRelease(raw) in e <==> wasGrabbing && !grabbing)
            && (HandTooClose in e <==> raw.z < NearWarningDistance)
            && (HandTooFar in e <==> raw.z > FarWarningDistance)
  {
    var t := TransitionEvents(wasGrabbing, grabbing, raw);
    var p := Proximity(raw.z);
    var e := FrameEvents(wasGrabbing, grabbing, raw, smooth, time);
    assert e == t + [HandUpdate(smooth, time, grabbing)] + p;
    assert e[|t|].HandUpdate?;
    forall i | 0 <= i < |e|
      ensures Rank(e[i]) == if i < |t| then 0 else if i == |t| then 1 else 2
    {
      if i > |t| {
        assert e[i] == p[i - |t| - 1];
      }
    }
    assert Grab(raw) in e <==> Grab(raw) in t;
    assert GrabRelease(raw) in e <==> GrabRelease(raw) in t;
    assert HandTooClose in e <==> HandTooClose in p;
    assert HandTooFar in e <==> HandTooFar in p;
  }

  lemma RowColumn(y: int, x: int)
    requires 0 <= y && 0 <= x < DepthMapSizeX
    ensures (y * DepthMapSizeX + x) / DepthMapSizeX == y
    ensures (y * DepthMapSizeX + x) % DepthMapSizeX == x
  {
  }

  class AirCursor {
    /** The smoothing window (m_handPoints). */
    var handPoints: seq<Point>
    /** The smoothed position (m_handPosSmooth). */
    var handPosSmooth: Point
    /** The latest raw position (m_handPosRealWorld). */
    var handPosRealWorld: Point
    /** The latest frame's classification (m_currentGrab). */
    var currentGrab: bool
    /** The running grab value (m_runningGrab). */
    var runningGrab: real
    /** Open or Grabbing (m_grabbing). */
    var grabbing: bool
    /** The pixels of the 8-bit depth image (m_iplDepthMap). */
    const depthImage: array<Byte>
    /** The ROI currently set on the 8-bit depth image, if one was ever set. */
    var roi: Option<Rect>

    ghost predicate Valid()
      reads this
    {
      && depthImage.Length == DepthMapPixels
      && |handPoints| <= NumOfSmoothingPoints
      && Consistent(Machine())
      && (roi.Some? ==> Applicable(roi.value) && InFrame(roi.value))
    }

    /** The grab state machine's part of the object. */
    ghost function Machine(): GrabMachine
      reads this
    {
      GrabMachine(runningGrab, grabbing)
    }

    /** What the grab analysis of frame f leaves behind, given the ROI set before it. The image
        is the one handed to contour extraction; cvFindContours then rewrites it inside the
        ROI, which this predicate does not describe. */
    ghost predicate Analyzed(f: FrameInput, previousRoi: Option<Rect>)
      requires WellFormed(f)
      reads this`roi, this`currentGrab, depthImage
    {
      var img := Remapped(f.depth);
      && roi == NextRoi(previousRoi, ClipRoi(f.topLeftX, f.topLeftY, f.bottomRightX, f.bottomRightY))
      && depthImage[..] == Thresholded(img, Region(roi), LowerBound(img, f.thresholdX, f.thresholdY))
      && currentGrab == FrameClosed(f)
    }

    constructor ()
      ensures Valid() && fresh(depthImage)
      ensures handPoints == [] && Machine() == Initial && !currentGrab && roi == None
    {
      handPoints := [];
      handPosSmooth := Point(0.0, 0.0, 0.0);
      handPosRealWorld := Point(0.0, 0.0, 0.0);
      currentGrab := false;
      runningGrab := 0.0;
      grabbing := false;
      depthImage := new Byte[DepthMapPixels];
      roi := None;
    }

    /** The nested remap loop over the whole depth map. */
    method RemapDepthMap(depth: seq<Raw>)
      requires |depth| == DepthMapPixels && depthImage.Length == DepthMapPixels
      modifies depthImage
      ensures depthImage[..] == Remapped(depth)
    {
      var origDepthIndex := 0;
      var y := 0;
      while y < DepthMapSizeY
        invariant 0 <= y <= DepthMapSizeY && origDepthIndex == y * DepthMapSizeX
        invariant forall k :: 0 <= k < origDepthIndex ==> depthImage[k] == RemapPixel(depth[k])
      {
        var x := 0;
        while x < DepthMapSizeX
          invariant 0 <= x <= DepthMapSizeX && origDepthIndex == y * DepthMapSizeX + x
          invariant forall k :: 0 <= k < origDepthIndex ==> depthImage[k] == RemapPixel(depth[k])
        {
          var d := ToShort(depth[origDepthIndex]);
          var pixel: Byte := 0;
          if NearClippingDistance <= d <= FarClippingDistance {
            RemapFormula(d);
            d := d - NearClippingDistance;
            pixel := Trunc(255.0 - 255.0 * (d as real / (FarClippingDistance - NearClippingDistance) as real));
          }
          depthImage[y * DepthMapSizeX + x] := pixel;
          origDepthIndex := origDepthIndex + 1;
          x := x + 1;
        }
        y := y + 1;
      }
    }

    /** The binary threshold on the region currently set on the image. */
    method ApplyThreshold(bound: int)
      requires Valid()
      modifies depthImage
      ensures depthImage[..] == Thresholded(old(depthImage[..]), Region(roi), bound)
    {
      var r := Region(roi);
      ghost var before := depthImage[..];
      var y := r.y;
      while y < r.y + r.height
        invariant r.y <= y <= r.y + r.height
        invariant forall k :: 0 <= k < DepthMapPixels ==>
          depthImage[k] == if InRect(r, k) && k / DepthMapSizeX < y then ThresholdPixel(before[k], bound) else before[k]
      {
        var x := r.x;
        while x < r.x + r.width
          invariant r.x <= x <= r.x + r.width
          invariant forall k :: 0 <= k < DepthMapPixels ==>
            depthImage[k] == if InRect(r, k) && (k / DepthMapSizeX < y || (k / DepthMapSizeX == y && k % DepthMapSizeX < x))
                             then ThresholdPixel(before[k], bound) else before[k]
        {
          RowColumn(y, x);
          var index := y * DepthMapSizeX + x;
          depthImage[index] := ThresholdPixel(depthImage[index], bound);
          x := x + 1;
        }
        y := y + 1;
      }
    }

    /** The grab analysis of one frame (analyzeGrab). */
    method AnalyzeGrab(f: FrameInput)
      requires Valid() && WellFormed(f)
      modifies this`roi, this`currentGrab, depthImage
      ensures Valid()
      ensures Analyzed(f, old(roi))
    {
      RemapDepthMap(f.depth);
      ghost var img := depthImage[..];

      var rect := ClipRoi(f.topLeftX, f.topLeftY, f.bottomRightX, f.bottomRightY);
      if rect.height > 0 && rect.width > 0 {
        ApplicableRoiInFrame(f.topLeftX, f.topLeftY, f.bottomRightX, f.bottomRightY);
        roi := Some(rect);
      }

      var lowerBound := depthImage[f.thresholdY * DepthMapSizeX + f.thresholdX] - DepthThreshold;
      if lowerBound < 0 {
        lowerBound := 0;
      }
      assert lowerBound == LowerBound(img, f.thresholdX, f.thresholdY);
      ApplyThreshold(lowerBound);

      var biggest := BiggestContour(f.contourAreas);
      var numOfValidDefects := 0;
      if biggest.Some? {
        if |f.defectDepths| > 0 {
          numOfValidDefects := CountValidDefects(f.defectDepths, f.defectMinSize);
        }
      }
      currentGrab := numOfValidDefects <= GrabMaxDefects;
    }

    /** The grab state update (updateState); returns the grab or release it emits. */
    method UpdateState() returns (events: seq<Event>)
      requires Valid()
      modifies this`runningGrab, this`grabbing
      ensures Valid()
      ensures Machine() == Step(old(Machine()), currentGrab)
      ensures events == TransitionEvents(old(grabbing), grabbing, handPosRealWorld)
    {
      runningGrab := GrabSmoothingFactor * runningGrab
                     + (1.0 - GrabSmoothingFactor) * (if currentGrab then 1.0 else 0.0);
      events := [];
      if !grabbing {
        if runningGrab > 0.5 + GrabStateChangeThreshold {
          grabbing := true;
          events := [Grab(handPosRealWorld)];
        }
      } else {
        if runningGrab < 0.5 - GrabStateChangeThreshold {
          grabbing := false;
          events := [GrabRelease(handPosRealWorld)];
        }
      }
    }

    /** Pushes a raw position into the window and recomputes the mean (newHandPoint). */
    method NewHandPoint(p: Point)
      requires Valid()
      modifies this`handPoints, this`handPosSmooth
      ensures Valid()
      ensures handPoints == Window(old(handPoints), p) && handPosSmooth == Mean(handPoints)
    {
      ghost var dropped := 0;
      while |handPoints| > NumOfSmoothingPoints - 1
        invariant 0 <= dropped <= |old(handPoints)|
        invariant handPoints == old(handPoints)[dropped..]
        invariant dropped > 0 ==> |handPoints| >= NumOfSmoothingPoints - 1
        decreases |handPoints|
      {
        handPoints := handPoints[1..];
        dropped := dropped + 1;
      }
      handPoints := handPoints + [p];

      var cumul := Point(0.0, 0.0, 0.0);
      for i := 0 to |handPoints|
        invariant cumul == Sum(handPoints[..i])
      {
        assert handPoints[..i + 1][..i] == handPoints[..i];
        cumul := Point(cumul.x + handPoints[i].x, cumul.y + handPoints[i].y, cumul.z + handPoints[i].z);
      }
      assert handPoints[..|handPoints|] == handPoints;
      handPosSmooth := Point(cumul.x / |handPoints| as real, cumul.y / |handPoints| as real,
                             cumul.z / |handPoints| as real);
    }

    /** One hand-position update from the tracker (handUpdateCB): smoother, analysis, state
        update, position event, then the proximity warning. */
    method HandUpdateCallback(p: Point, time: real, f: FrameInput) returns (events: seq<Event>)
      requires Valid() && WellFormed(f)
      modifies this, depthImage
      ensures Valid()
      ensures handPosRealWorld == p
      ensures handPoints == Window(old(handPoints), p) && handPosSmooth == Mean(handPoints)
      ensures Analyzed(f, old(roi))
      ensures Machine() == Step(old(Machine()), FrameClosed(f))
      ensures events == FrameEvents(old(grabbing), grabbing, p, handPosSmooth, time)
    {
      handPosRealWorld := p;
      NewHandPoint(p);
      AnalyzeGrab(f);
      var transitions := UpdateState();
      events := transitions + [HandUpdate(handPosSmooth, time, grabbing)];
      if handPosRealWorld.z < NearWarningDistance {
        events := events + [HandTooClose];
      } else if handPosRealWorld.z > FarWarningDistance {
        events := events + [HandTooFar];
      }
    }
  }
}
