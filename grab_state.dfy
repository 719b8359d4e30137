/** The Grab State Machine: the per-frame closed/open classification is smoothed into a
    running value, and a hysteresis rule around 0.5 turns it into Open/Grabbing. */
module GrabState {
  import opened Config

  /** The session state kept across frames: the running grab value and whether the hand grabs. */
  datatype GrabMachine = GrabMachine(running: real, grabbing: bool)

  /** State at construction: running value 0.0, not grabbing. */
  const Initial: GrabMachine := GrabMachine(0.0, false)

  const GrabLevel: real := 0.5 + GrabStateChangeThreshold
  const ReleaseLevel: real := 0.5 - GrabStateChangeThreshold

  /** Exponential smoothing of the boolean classification. */
  function Smooth(running: real, closed: bool): (r: real)
    ensures 0.0 <= running <= 1.0 ==> 0.0 <= r <= 1.0
  {
    GrabSmoothingFactor * running + (1.0 - GrabSmoothingFactor) * (if closed then 1.0 else 0.0)
  }

  /** The hysteresis rule applied to the freshly smoothed value. */
  function Hysteresis(wasGrabbing: bool, running: real): bool
  {
    if !wasGrabbing then running > GrabLevel else !(running < ReleaseLevel)
  }

  /** One call of the state update. */
  function Step(m: GrabMachine, closed: bool): (m': GrabMachine)
    ensures Consistent(m) ==> Consistent(m')
    ensures !m.grabbing && m'.grabbing ==> m'.running > GrabLevel
    ensures m.grabbing && !m'.grabbing ==> m'.running < ReleaseLevel
    ensures ReleaseLevel <= m'.running <= GrabLevel ==> m'.grabbing == m.grabbing
  {
    var r := Smooth(m.running, closed);
    GrabMachine(r, Hysteresis(m.grabbing, r))
  }

  /** What holds of every reachable state: the running value stays in [0, 1], a grabbing
      hand's value has not dropped below the release level and an open hand's value has
      not risen above the grab level. */
  ghost predicate Consistent(m: GrabMachine)
  {
    && 0.0 <= m.running <= 1.0
    && (m.grabbing ==> m.running >= ReleaseLevel)
    && (!m.grabbing ==> m.running <= GrabLevel)
  }

  lemma InitialConsistent()
    ensures Consistent(Initial)
  {
  }

  /** The state after a sequence of frame classifications. */
  function Run(m: GrabMachine, frames: seq<bool>): (m': GrabMachine)
    ensures Consistent(m) ==> Consistent(m')
  {
    if frames == [] then m else Step(Run(m, frames[..|frames| - 1]), frames[|frames| - 1])
  }

  /** A grab event is emitted at frame i. */
  predicate GrabbedAt(m: GrabMachine, frames: seq<bool>, i: nat)
    requires i < |frames|
  {
    !Run(m, frames[..i]).grabbing && Run(m, frames[..i + 1]).grabbing
  }

  /** A release event is emitted at frame i. */
  predicate ReleasedAt(m: GrabMachine, frames: seq<bool>, i: nat)
    requires i < |frames|
  {
    Run(m, frames[..i]).grabbing && !Run(m, frames[..i + 1]).grabbing
  }

  function AllClosed(n: nat): (frames: seq<bool>)
    ensures |frames| == n && forall i :: 0 <= i < n ==> frames[i]
  {
    seq(n, _ => true)
  }

  function Half(n: nat): (h: real)
    ensures 0.0 < h <= 1.0
  {
    if n == 0 then 1.0 else Half(n - 1) / 2.0
  }

  /** From the initial state, n closed frames give a running value of 1 - 0.5^n, and the
      hand grabs from the second frame on. */
  lemma {:induction false} RunningFromInitial(n: nat)
    ensures Run(Initial, AllClosed(n)) == GrabMachine(1.0 - Half(n), n >= 2)
  {
    if n > 0 {
      RunningFromInitial(n - 1);
      assert AllClosed(n)[..n - 1] == AllClosed(n - 1);
    }
  }

  /** Under a constant stream of closed frames from the initial state, exactly one grab
      event fires, at the second frame (index 1), and no release ever fires. */
  lemma GrabFiresOnceAtSecondFrame(n: nat, i: nat)
    requires i < n
    ensures GrabbedAt(Initial, AllClosed(n), i) <==> i == 1
    ensures !ReleasedAt(Initial, AllClosed(n), i)
  {
    assert AllClosed(n)[..i] == AllClosed(i);
    assert AllClosed(n)[..i + 1] == AllClosed(i + 1);
    RunningFromInitial(i);
    RunningFromInitial(i + 1);
  }

  /** The verdict of the last running value outside the band [ReleaseLevel, GrabLevel]:
      Grabbing when it was above GrabLevel, Open when it was below ReleaseLevel, and the
      starting state when every running value so far stayed inside the band. */
  function LastVerdict(m: GrabMachine, frames: seq<bool>): bool
  {
    if frames == [] then m.grabbing
    else
      var r := Run(m, frames).running;
      if r > GrabLevel then true
      else if r < ReleaseLevel then false
      else LastVerdict(m, frames[..|frames| - 1])
  }

  /** Over any stream of frames, however the classifications alternate, the state is the
      verdict of the last running value that left the band: values inside the band never
      change it. */
  lemma {:induction false} StateIsLastVerdict(m: GrabMachine, frames: seq<bool>)
    ensures Run(m, frames).grabbing == LastVerdict(m, frames)
  {
    if frames != [] {
      StateIsLastVerdict(m, frames[..|frames| - 1]);
    }
  }

  /** With the smoothing factor 0.5 an update that starts inside the band always leaves it,
      so the band is never held for two updates in a row. */
  lemma BandNeverHeldTwice(m: GrabMachine, closed: bool)
    requires ReleaseLevel <= m.running <= GrabLevel
    ensures Step(m, closed).running > GrabLevel || Step(m, closed).running < ReleaseLevel
  {
  }

  /** Two closed frames always end in Grabbing, two open frames always end in Open. */
  lemma GrabWithinTwoFrames(m: GrabMachine)
    requires Consistent(m)
    ensures Run(m, [true, true]).grabbing
  {
  }

  lemma ReleaseWithinTwoFrames(m: GrabMachine)
    requires Consistent(m)
    ensures !Run(m, [false, false]).grabbing
  {
  }

  /** A settled state ignores a single contrary frame. */
  lemma SettledIgnoresOneFrame(m: GrabMachine, closed: bool)
    requires Consistent(m)
    requires m.grabbing ==> m.running >= 0.8
    requires !m.grabbing ==> m.running <= 0.2
    ensures Step(m, closed).grabbing == m.grabbing
  {
  }

  /** Right after a grab the running value is still below 0.8, so one open frame releases:
      closed, closed, open from the initial state grabs at frame 1 and releases at frame 2. */
  lemma GrabThenOneOpenFrameReleases()
    ensures GrabbedAt(Initial, [true, true, false], 1)
    ensures ReleasedAt(Initial, [true, true, false], 2)
  {
  }

  /** A running value of 0.5 and three closed frames: 0.75, 0.875, 0.9375, with the grab at
      the first of them. */
  lemma ClosedStreamFromMiddle()
    ensures Run(GrabMachine(0.5, false), [true]) == GrabMachine(0.75, true)
    ensures Run(GrabMachine(0.5, false), [true, true]) == GrabMachine(0.875, true)
    ensures Run(GrabMachine(0.5, false), [true, true, true]) == GrabMachine(0.9375, true)
    ensures GrabbedAt(GrabMachine(0.5, false), [true, true, true], 0)
  {
  }
}
