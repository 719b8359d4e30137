/** The Position Smoother: a FIFO window of the last five raw hand positions whose
    per-coordinate mean is the reported position. */
module Smoothing {
  import opened Config

  /** A real-world position in millimetres (XnPoint3D). */
  datatype Point = Point(x: real, y: real, z: real)

  function Add(a: Point, b: Point): Point
  {
    Point(a.x + b.x, a.y + b.y, a.z + b.z)
  }

  /** Per-coordinate sum of the window, accumulated front to back as the summing loop does. */
  function Sum(w: seq<Point>): Point
  {
    if w == [] then Point(0.0, 0.0, 0.0) else Add(Sum(w[..|w| - 1]), w[|w| - 1])
  }

  /** Per-coordinate arithmetic mean. */
  function Mean(w: seq<Point>): Point
    requires w != []
  {
    var s := Sum(w);
    Point(s.x / |w| as real, s.y / |w| as real, s.z / |w| as real)
  }

  /** The window after a new point: the oldest points are dropped until at most
      NumOfSmoothingPoints - 1 remain, then the new point is appended. */
  function Window(w: seq<Point>, p: Point): (w': seq<Point>)
    ensures |w'| == if |w| < NumOfSmoothingPoints then |w| + 1 else NumOfSmoothingPoints
    ensures w'[|w'| - 1] == p
  {
    var kept := if |w| > NumOfSmoothingPoints - 1 then w[|w| - (NumOfSmoothingPoints - 1)..] else w;
    kept + [p]
  }

  /** The window is the newest points of the old window followed by p: the oldest points
      are the ones evicted. */
  lemma WindowIsSuffix(w: seq<Point>, p: Point)
    ensures Window(w, p) == (w + [p])[|w| + 1 - |Window(w, p)|..]
  {
    var kept := if |w| > NumOfSmoothingPoints - 1 then w[|w| - (NumOfSmoothingPoints - 1)..] else w;
    assert kept + [p] == (w + [p])[|w| - |kept|..];
  }

  /** The window after a sequence of new points. */
  function Feed(w: seq<Point>, ps: seq<Point>): seq<Point>
    decreases ps
  {
    if ps == [] then w else Feed(Window(w, ps[0]), ps[1..])
  }

  function Repeat(p: Point, n: nat): (s: seq<Point>)
    ensures |s| == n && forall i :: 0 <= i < n ==> s[i] == p
  {
    seq(n, _ => p)
  }

  lemma {:induction false} SumOfRepeat(p: Point, n: nat)
    ensures Sum(Repeat(p, n)) == Point(n as real * p.x, n as real * p.y, n as real * p.z)
  {
    if n > 0 {
      assert Repeat(p, n)[..n - 1] == Repeat(p, n - 1);
      SumOfRepeat(p, n - 1);
    }
  }

  /** A window of identical points averages to that point. */
  lemma MeanOfRepeat(p: Point, n: nat)
    requires n > 0
    ensures Mean(Repeat(p, n)) == p
  {
    SumOfRepeat(p, n);
  }

  /** If the window already ends in k copies of p, pushing p makes it end in k + 1 copies. */
  lemma WindowGrowsRun(w: seq<Point>, p: Point, k: nat)
    requires k < NumOfSmoothingPoints && k <= |w|
    requires forall i :: |w| - k <= i < |w| ==> w[i] == p
    ensures k + 1 <= |Window(w, p)|
    ensures forall i :: |Window(w, p)| - (k + 1) <= i < |Window(w, p)| ==> Window(w, p)[i] == p
  {
  }

  lemma {:induction false} FeedRepeat(w: seq<Point>, p: Point, k: nat, n: nat)
    requires k <= NumOfSmoothingPoints && k <= |w| && |w| <= NumOfSmoothingPoints
    requires forall i :: |w| - k <= i < |w| ==> w[i] == p
    requires k + n >= NumOfSmoothingPoints
    ensures Feed(w, Repeat(p, n)) == Repeat(p, NumOfSmoothingPoints)
    decreases n
  {
    if n == 0 {
      assert w == Repeat(p, NumOfSmoothingPoints);
    } else {
      var k' := if k < NumOfSmoothingPoints then k + 1 else k;
      if k < NumOfSmoothingPoints {
        WindowGrowsRun(w, p, k);
      } else {
        assert w == Repeat(p, NumOfSmoothingPoints);
        assert Window(w, p) == Repeat(p, NumOfSmoothingPoints);
      }
      assert Repeat(p, n)[1..] == Repeat(p, n - 1);
      FeedRepeat(Window(w, p), p, k', n - 1);
    }
  }

  /** After five identical samples the window holds exactly those and the smoothed
      position is the sample itself, whatever the window held before. */
  lemma SteadyHandConverges(w: seq<Point>, p: Point)
    requires |w| <= NumOfSmoothingPoints
    ensures Feed(w, Repeat(p, NumOfSmoothingPoints)) == Repeat(p, NumOfSmoothingPoints)
    ensures Mean(Feed(w, Repeat(p, NumOfSmoothingPoints))) == p
  {
    FeedRepeat(w, p, 0, NumOfSmoothingPoints);
    MeanOfRepeat(p, NumOfSmoothingPoints);
  }

  /** From a full window of p, one new sample q moves the smoothed position by exactly a
      fifth of the step. */
  lemma OneSampleStep(p: Point, q: Point)
    ensures Mean(Window(Repeat(p, NumOfSmoothingPoints), q)) ==
            Point(p.x + (q.x - p.x) / 5.0, p.y + (q.y - p.y) / 5.0, p.z + (q.z - p.z) / 5.0)
  {
    var w' := Window(Repeat(p, NumOfSmoothingPoints), q);
    assert w'[..4] == Repeat(p, 4);
    SumOfRepeat(p, 4);
  }
}
