/** The Shape Analyzer: pick the biggest contour, count the convexity defects that are deep
    enough and classify the hand as closed (grabbing) or open. Contour areas and defect
    depths come from OpenCV and are inputs here. */
module Shape {
  import opened Config
  import opened Wrappers

  /** A contour big enough not to be noise. */
  predicate Qualifies(area: real)
  {
    area >= ContourMinSize
  }

  /** Index k is the contour the scan keeps: it qualifies, no qualifying contour is bigger,
      and every qualifying contour before it is strictly smaller (the first of equals wins). */
  ghost predicate IsBiggest(areas: seq<real>, k: int)
  {
    && 0 <= k < |areas|
    && Qualifies(areas[k])
    && (forall j :: 0 <= j < |areas| && Qualifies(areas[j]) ==> areas[j] <= areas[k])
    && (forall j :: 0 <= j < k && Qualifies(areas[j]) ==> areas[j] < areas[k])
  }

  predicate AnyQualifies(areas: seq<real>)
  {
    exists i :: 0 <= i < |areas| && Qualifies(areas[i])
  }

  /** The scan over contour areas with a running maximum. */
  method BiggestContour(areas: seq<real>) returns (biggest: Option<nat>)
    ensures biggest.None? <==> !AnyQualifies(areas)
    ensures biggest.Some? ==> IsBiggest(areas, biggest.value)
  {
    biggest := None;
    var biggestArea: real := 0.0;
    for i := 0 to |areas|
      invariant biggest.None? <==> !AnyQualifies(areas[..i])
      invariant biggest.Some? ==> biggest.value < i && biggestArea == areas[biggest.value]
      invariant biggest.Some? ==> IsBiggest(areas[..i], biggest.value)
    {
      var currArea := areas[i];
      if currArea < ContourMinSize {
        continue;
      }
      if biggest.None? || currArea > biggestArea {
        biggest := Some(i);
        biggestArea := currArea;
      }
    }
    assert areas[..|areas|] == areas;
  }

  /** The properties BiggestContour promises determine its answer. */
  lemma BiggestIsUnique(areas: seq<real>, k1: int, k2: int)
    requires IsBiggest(areas, k1) && IsBiggest(areas, k2)
    ensures k1 == k2
  {
  }

  /** Number of defects at least minSize deep (the reference for the counting loop). */
  function CountDeep(depths: seq<real>, minSize: int): (n: nat)
    ensures n <= |depths|
  {
    if depths == [] then 0
    else CountDeep(depths[..|depths| - 1], minSize) + (if depths[|depths| - 1] >= minSize as real then 1 else 0)
  }

  lemma {:induction false} CountDeepNoneIff(depths: seq<real>, minSize: int)
    ensures CountDeep(depths, minSize) == 0 <==>
            forall i :: 0 <= i < |depths| ==> depths[i] < minSize as real
  {
    if depths != [] {
      var init := depths[..|depths| - 1];
      CountDeepNoneIff(init, minSize);
      assert forall i :: 0 <= i < |init| ==> init[i] == depths[i];
    }
  }

  lemma {:induction false} CountDeepAllIff(depths: seq<real>, minSize: int)
    ensures CountDeep(depths, minSize) == |depths| <==>
            forall i :: 0 <= i < |depths| ==> depths[i] >= minSize as real
  {
    if depths != [] {
      var init := depths[..|depths| - 1];
      CountDeepAllIff(init, minSize);
      assert forall i :: 0 <= i < |init| ==> init[i] == depths[i];
    }
  }

  /** A larger minimum defect size (a hand nearer the sensor) never counts more defects. */
  lemma {:induction false} CountDeepAntitone(depths: seq<real>, min1: int, min2: int)
    requires min1 <= min2
    ensures CountDeep(depths, min2) <= CountDeep(depths, min1)
  {
    if depths != [] {
      CountDeepAntitone(depths[..|depths| - 1], min1, min2);
    }
  }

  /** The counting loop over the defect array. */
  method CountValidDefects(depths: seq<real>, minSize: int) returns (n: nat)
    ensures n == CountDeep(depths, minSize)
  {
    n := 0;
    for i := 0 to |depths|
      invariant n == CountDeep(depths[..i], minSize)
    {
      assert depths[..i + 1][..i] == depths[..i];
      if depths[i] < minSize as real {
        continue;
      }
      n := n + 1;
    }
    assert depths[..|depths|] == depths;
  }

  /** Valid defects of the frame: counted only when some contour qualifies; the defects
      are those of the biggest contour. */
  function ValidDefectCount(areas: seq<real>, depths: seq<real>, minSize: int): (n: nat)
    ensures n <= |depths|
    ensures !AnyQualifies(areas) ==> n == 0
    ensures n == 0 <==> !AnyQualifies(areas) || forall i :: 0 <= i < |depths| ==> depths[i] < minSize as real
  {
    CountDeepNoneIff(depths, minSize);
    if AnyQualifies(areas) then CountDeep(depths, minSize) else 0
  }

  /** Per-frame classification: closed (grabbing) when at most GrabMaxDefects defects are valid. */
  function Classify(validDefects: nat): (closed: bool)
  {
    validDefects <= GrabMaxDefects
  }

  /** With GrabMaxDefects = 0, a frame is closed exactly when no contour qualifies or no
      defect of the biggest one is deep enough; in particular an empty frame reads as closed. */
  lemma ClosedIff(areas: seq<real>, depths: seq<real>, minSize: int)
    ensures Classify(ValidDefectCount(areas, depths, minSize)) <==>
            !AnyQualifies(areas) || forall i :: 0 <= i < |depths| ==> depths[i] < minSize as real
  {
  }

  lemma NoContourIsClosed(areas: seq<real>, depths: seq<real>, minSize: int)
    requires forall i :: 0 <= i < |areas| ==> areas[i] < ContourMinSize
    ensures Classify(ValidDefectCount(areas, depths, minSize))
  {
  }

  /** The same defects can read as open for a far hand and closed for a near one:
      raising the minimum defect size can only move the frame towards closed. */
  lemma NearerHandClosesSooner(areas: seq<real>, depths: seq<real>, min1: int, min2: int)
    requires min1 <= min2
    requires Classify(ValidDefectCount(areas, depths, min1))
    ensures Classify(ValidDefectCount(areas, depths, min2))
  {
    CountDeepAntitone(depths, min1, min2);
  }
}
