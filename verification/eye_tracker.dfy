/** One iteration of the landmark-based tracker's main loop: consume a
    pending calibration request, capture a frame, smooth the gaze
    prediction and maybe move the cursor, score both eyes, run the two
    per-eye click machines while tracking is active, and emit the frame's
    output record. */
module EyeTracker {
  import opened Common
  import opened Actuation
  import opened Ear
  import Smoothing
  import EyeClick

  /** The tuning constants of the loop. `dist` is the Euclidean distance
      the openness score uses. */
  datatype Config = Config(alpha: real, deadzone: real, earThreshold: real, longBlink: real, dist: Distance)

  datatype Tracker = Tracker(
    gaze: Smoothing.GazeState,
    left: EyeClick.EyeTimer,
    right: EyeClick.EyeTimer,
    trackingActive: bool,
    calibrated: bool,
    calibrationRequested: bool)

  /** A frame read: failure, or the gaze estimator's report plus the face
      meshes found in an image of `width` by `height` pixels. */
  datatype Capture =
    | ReadFailed
    | Captured(gaze: Smoothing.GazeObs, faces: seq<seq<Landmark>>, width: real, height: real)

  /** One loop iteration's inputs: the capture, the clock reading, and the
      calibrated flag the calibration routine leaves when it is run. */
  datatype Tick = Tick(capture: Capture, time: real, calibrationOutcome: bool)

  /** The record printed for the UI after each captured frame. */
  datatype Payload = Payload(
    x: real, y: real,
    blinkLeft: bool, blinkRight: bool,
    rawEarLeft: real, rawEarRight: real,
    active: bool)

  datatype StepResult = StepResult(state: Tracker, actions: seq<Action>, payload: Option<Payload>)

  /** Every detected face carries the eye landmarks the score reads. */
  predicate WellFormed(c: Capture) {
    c.Captured? ==> AllCoverEyes(c.faces)
  }

  function Timer(s: Tracker, b: Button): EyeClick.EyeTimer {
    match b
    case Left => s.left
    case Right => s.right
  }

  function Blink(e: EyeReadings, b: Button): bool {
    match b
    case Left => e.blinkLeft
    case Right => e.blinkRight
  }

  function Readings(cfg: Config, c: Capture): EyeReadings
    requires c.Captured? && WellFormed(c)
  {
    Scan(c.faces, c.width, c.height, cfg.dist, cfg.earThreshold)
  }

  /** The cursor move the gaze block sends, if any. */
  function MoveActions(g: Smoothing.GazeResult): (m: seq<Action>)
    ensures |m| <= 1
    ensures |m| == 1 <==> g.move.Some?
    ensures g.move.Some? ==> m == [g.move.value]
  {
    if g.move.Some? then [g.move.value] else []
  }

  /** Both eye timers after the click section, and the clicks it sends. */
  datatype Clicks = Clicks(left: EyeClick.EyeTimer, right: EyeClick.EyeTimer, actions: seq<Action>)

  /** The click section while tracking: the left eye's machine, then the
      right eye's, each fed only its own blink flag, on one clock reading. */
  function ProcessClicks(left: EyeClick.EyeTimer, right: EyeClick.EyeTimer, e: EyeReadings,
                         t: real, longBlink: real): (r: Clicks)
    ensures var l := EyeClick.EyeStep(left, e.blinkLeft, t, longBlink);
            var rr := EyeClick.EyeStep(right, e.blinkRight, t, longBlink);
            && r.left == l.timer && r.right == rr.timer
            && CountClicks(r.actions, Left) == (if l.clicked then 1 else 0)
            && CountClicks(r.actions, Right) == (if rr.clicked then 1 else 0)
    ensures forall i :: 0 <= i < |r.actions| ==> r.actions[i].Click?
    ensures |r.actions| == 2 ==> r.actions == [Click(Left), Click(Right)]
  {
    var l := EyeClick.EyeStep(left, e.blinkLeft, t, longBlink);
    var rr := EyeClick.EyeStep(right, e.blinkRight, t, longBlink);
    var lc: seq<Action> := if l.clicked then [Click(Left)] else [];
    var rc: seq<Action> := if rr.clicked then [Click(Right)] else [];
    CountClicksAppend(lc, rc, Left);
    CountClicksAppend(lc, rc, Right);
    Clicks(l.timer, rr.timer, lc + rc)
  }

  /** One iteration of the loop. */
  function Step(cfg: Config, s: Tracker, tick: Tick): (r: StepResult)
    requires WellFormed(tick.capture)
    ensures !r.state.calibrationRequested
    ensures r.state.trackingActive == s.trackingActive
    ensures r.state.calibrated == (if s.calibrationRequested then tick.calibrationOutcome else s.calibrated)
    ensures tick.capture.ReadFailed? ==>
              && r.actions == [] && r.payload.None?
              && r.state.gaze == s.gaze && r.state.left == s.left && r.state.right == s.right
    ensures tick.capture.Captured? ==>
              && r.payload.Some?
              && r.payload.value.active == s.trackingActive
              && r.payload.value.blinkLeft == r.state.left.triggered
              && r.payload.value.blinkRight == r.state.right.triggered
              && r.payload.value.rawEarLeft == Readings(cfg, tick.capture).earLeft
              && r.payload.value.rawEarRight == Readings(cfg, tick.capture).earRight
  {
    var calibrated := if s.calibrationRequested then tick.calibrationOutcome else s.calibrated;
    var s0 := s.(calibrated := calibrated, calibrationRequested := false);
    match tick.capture
    case ReadFailed => StepResult(s0, [], None)
    case Captured(obs, faces, w, h) =>
      var g := Smoothing.GazeUpdate(s.gaze, obs, calibrated, s.trackingActive, cfg.alpha, cfg.deadzone);
      var e := Scan(faces, w, h, cfg.dist, cfg.earThreshold);
      var k := if s.trackingActive then ProcessClicks(s.left, s.right, e, tick.time, cfg.longBlink)
               else Clicks(s.left, s.right, []);
      var s1 := s0.(gaze := g.state, left := k.left, right := k.right);
      StepResult(s1, MoveActions(g) + k.actions,
                 Some(Payload(g.gazeX as real, g.gazeY as real, k.left.triggered, k.right.triggered,
                              e.earLeft, e.earRight, s.trackingActive)))
  }

  /** The record's position is the truncated smoothed gaze when the gaze
      block ran on this frame, and (0, 0) with the smoother untouched when
      it did not (no estimator output, a blink, or not calibrated). */
  lemma StepPayload(cfg: Config, s: Tracker, tick: Tick)
    requires WellFormed(tick.capture) && tick.capture.Captured?
    ensures var r := Step(cfg, s, tick);
            var obs := tick.capture.gaze;
            && (!Smoothing.Runs(obs, r.state.calibrated) ==>
                  r.payload.value.x == 0.0 && r.payload.value.y == 0.0 && r.state.gaze == s.gaze)
            && (Smoothing.Runs(obs, r.state.calibrated) ==>
                  && r.state.gaze.smooth == Smoothing.SmoothStep(s.gaze.smooth, obs.raw, cfg.alpha)
                  && r.payload.value.x == Trunc(r.state.gaze.smooth.x) as real
                  && r.payload.value.y == Trunc(r.state.gaze.smooth.y) as real)
  {
  }

  /** Actuation of one iteration: nothing at all while tracking is
      stopped; otherwise at most a cursor move, first, and only on a
      calibrated tracker and to the recorded last position, followed by at
      most one click per button. */
  lemma StepActuation(cfg: Config, s: Tracker, tick: Tick)
    requires WellFormed(tick.capture)
    ensures var r := Step(cfg, s, tick);
            && (!s.trackingActive ==>
                  && r.actions == []
                  && r.state.left == s.left && r.state.right == s.right
                  && r.state.gaze.lastX == s.gaze.lastX && r.state.gaze.lastY == s.gaze.lastY)
            && (forall i :: 1 <= i < |r.actions| ==> r.actions[i].Click?)
            && (|r.actions| > 0 && r.actions[0].MoveTo? ==>
                  && s.trackingActive && r.state.calibrated
                  && r.actions[0] == MoveTo(r.state.gaze.lastX, r.state.gaze.lastY))
            && CountClicks(r.actions, Left) <= 1 && CountClicks(r.actions, Right) <= 1
  {
  }

  /** Each eye's machine sees only its own blink flag: while tracking, the
      step advances the timer of `b` exactly as the per-eye machine does,
      and sends a click of `b` exactly when that machine clicks. */
  lemma StepFollowsEye(cfg: Config, s: Tracker, tick: Tick, b: Button)
    requires WellFormed(tick.capture) && tick.capture.Captured? && s.trackingActive
    ensures var r := Step(cfg, s, tick);
            var m := EyeClick.EyeStep(Timer(s, b), Blink(Readings(cfg, tick.capture), b), tick.time, cfg.longBlink);
            && Timer(r.state, b) == m.timer
            && CountClicks(r.actions, b) == (if m.clicked then 1 else 0)
  {
  }

  datatype RunResult = RunResult(state: Tracker, actions: seq<Action>, payloads: seq<Payload>)

  predicate AllWellFormed(ticks: seq<Tick>) {
    forall i :: 0 <= i < |ticks| ==> WellFormed(ticks[i].capture)
  }

  /** The loop over a sequence of iterations. */
  function Run(cfg: Config, s: Tracker, ticks: seq<Tick>): RunResult
    requires AllWellFormed(ticks)
    decreases |ticks|
  {
    if |ticks| == 0 then RunResult(s, [], [])
    else
      var r := Step(cfg, s, ticks[0]);
      var rest := Run(cfg, r.state, ticks[1..]);
      RunResult(rest.state, r.actions + rest.actions,
                (if r.payload.Some? then [r.payload.value] else []) + rest.payloads)
  }

  /** While tracking is stopped nothing is actuated, over any number of
      frames: no move and no click, both eye timers and the last cursor
      position stay as they were, and every record says `active: false`. */
  lemma {:induction false} InactiveRunIsSilent(cfg: Config, s: Tracker, ticks: seq<Tick>)
    requires AllWellFormed(ticks) && !s.trackingActive
    ensures var r := Run(cfg, s, ticks);
            && r.actions == []
            && r.state.left == s.left && r.state.right == s.right
            && r.state.gaze.lastX == s.gaze.lastX && r.state.gaze.lastY == s.gaze.lastY
            && !r.state.trackingActive
            && forall i :: 0 <= i < |r.payloads| ==> !r.payloads[i].active
    decreases |ticks|
  {
    if |ticks| > 0 {
      var r := Step(cfg, s, ticks[0]);
      var tail := ticks[1..];
      assert AllWellFormed(tail) by {
        forall i | 0 <= i < |tail| ensures WellFormed(tail[i].capture) {
          assert tail[i] == ticks[i + 1];
        }
      }
      InactiveRunIsSilent(cfg, r.state, tail);
      var rest := Run(cfg, r.state, tail);
      assert r.actions + rest.actions == [];
    }
  }

  /** A calibration request is consumed by the first iteration, whether or
      not its frame could be read, and never re-raised by the loop. */
  lemma {:induction false} CalibrationConsumed(cfg: Config, s: Tracker, ticks: seq<Tick>)
    requires AllWellFormed(ticks) && |ticks| > 0
    ensures var r := Run(cfg, s, ticks);
            && !r.state.calibrationRequested
            && r.state.trackingActive == s.trackingActive
            && r.state.calibrated == (if s.calibrationRequested then ticks[0].calibrationOutcome else s.calibrated)
    decreases |ticks|
  {
    var r := Step(cfg, s, ticks[0]);
    var tail := ticks[1..];
    assert AllWellFormed(tail) by {
      forall i | 0 <= i < |tail| ensures WellFormed(tail[i].capture) {
        assert tail[i] == ticks[i + 1];
      }
    }
    if |tail| > 0 {
      CalibrationConsumed(cfg, r.state, tail);
    }
  }

  /** What eye `b`'s machine sees over a run: one sample per captured frame. */
  function Samples(cfg: Config, ticks: seq<Tick>, b: Button): seq<EyeClick.Sample>
    requires AllWellFormed(ticks)
    decreases |ticks|
  {
    if |ticks| == 0 then []
    else
      var rest := Samples(cfg, ticks[1..], b);
      match ticks[0].capture
      case ReadFailed => rest
      case Captured(_, _, _, _) =>
        [EyeClick.Sample(Blink(Readings(cfg, ticks[0].capture), b), ticks[0].time)] + rest
  }

  /** While tracking, each eye of the loop is exactly the per-eye machine
      run over that eye's own samples: its timer ends where the machine's
      does and the loop sends that eye's button as many clicks as the
      machine fires. The other eye has no influence. */
  lemma {:induction false} RunFollowsEye(cfg: Config, s: Tracker, ticks: seq<Tick>, b: Button)
    requires AllWellFormed(ticks) && s.trackingActive
    ensures var r := Run(cfg, s, ticks);
            var m := EyeClick.EyeRun(Timer(s, b), Samples(cfg, ticks, b), cfg.longBlink);
            Timer(r.state, b) == m.timer && CountClicks(r.actions, b) == m.clicks
    decreases |ticks|
  {
    if |ticks| > 0 {
      var r := Step(cfg, s, ticks[0]);
      var tail := ticks[1..];
      assert AllWellFormed(tail) by {
        forall i | 0 <= i < |tail| ensures WellFormed(tail[i].capture) {
          assert tail[i] == ticks[i + 1];
        }
      }
      RunFollowsEye(cfg, r.state, tail, b);
      var rest := Run(cfg, r.state, tail);
      CountClicksAppend(r.actions, rest.actions, b);
      var ss := Samples(cfg, tail, b);
      if ticks[0].capture.Captured? {
        StepFollowsEye(cfg, s, ticks[0], b);
        var sample := EyeClick.Sample(Blink(Readings(cfg, ticks[0].capture), b), ticks[0].time);
        assert Samples(cfg, ticks, b) == [sample] + ss;
        assert ([sample] + ss)[0] == sample;
        assert ([sample] + ss)[1..] == ss;
      } else {
        assert CountClicks(r.actions, b) == 0;
      }
    }
  }

  /** At most one click per closure of each eye across the whole loop: the
      clicks of `b` never outnumber the closures of that eye that begin
      during the run. */
  lemma {:induction false} AtMostOneClickPerClosure(cfg: Config, s: Tracker, ticks: seq<Tick>, b: Button)
    requires AllWellFormed(ticks) && s.trackingActive
    ensures CountClicks(Run(cfg, s, ticks).actions, b)
            <= EyeClick.Onsets(Samples(cfg, ticks, b), Timer(s, b).triggered)
  {
    RunFollowsEye(cfg, s, ticks, b);
    EyeClick.AtMostOneClickPerClosure(Timer(s, b), Samples(cfg, ticks, b), cfg.longBlink);
  }
}
