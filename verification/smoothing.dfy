/** Gaze smoothing: the exponential moving average with its (0, 0)
    bootstrap sentinel, truncation to pixels, and the deadzone gate that
    decides whether the cursor is moved. */
module Smoothing {
  import opened Common
  import opened Actuation

  /** One EMA update of a coordinate with weight `alpha` on the new sample. */
  function Ema(prev: real, raw: real, alpha: real): real {
    prev * (1.0 - alpha) + raw * alpha
  }

  predicate Between(a: real, b: real, x: real) {
    (a <= x <= b) || (b <= x <= a)
  }

  /** The EMA moves the old value toward the sample by the factor `alpha`. */
  lemma EmaGap(prev: real, raw: real, alpha: real)
    ensures Ema(prev, raw, alpha) - raw == (1.0 - alpha) * (prev - raw)
  {
  }

  /** For a weight in [0, 1] the update is a convex combination. */
  lemma EmaConvex(prev: real, raw: real, alpha: real)
    ensures 0.0 <= alpha <= 1.0 ==> Between(prev, raw, Ema(prev, raw, alpha))
  {
    var e := Ema(prev, raw, alpha);
    var d := raw - prev;
    assert e == prev + alpha * d;
    if 0.0 <= alpha <= 1.0 {
      assert (1.0 - alpha) * d == d - alpha * d;
      if d >= 0.0 {
        assert 0.0 <= alpha * d <= d;
      } else {
        assert d <= alpha * d <= 0.0;
      }
    }
  }

  /** The smoothing update: when both smoothed coordinates are 0 the sample
      is adopted as is (bootstrap); otherwise each coordinate is averaged. */
  function SmoothStep(s: Point, raw: Point, alpha: real): (r: Point)
    ensures s == Origin ==> r == raw
    ensures s != Origin && 0.0 <= alpha <= 1.0 ==> Between(s.x, raw.x, r.x) && Between(s.y, raw.y, r.y)
    ensures s == raw ==> r == raw
  {
    if s.x == 0.0 && s.y == 0.0 then raw
    else
      EmaConvex(s.x, raw.x, alpha);
      EmaConvex(s.y, raw.y, alpha);
      Point(Ema(s.x, raw.x, alpha), Ema(s.y, raw.y, alpha))
  }

  /** `n` smoothing updates with the same sample. */
  function SmoothIterate(s: Point, raw: Point, alpha: real, n: nat): Point
    decreases n
  {
    if n == 0 then s else SmoothStep(SmoothIterate(s, raw, alpha, n - 1), raw, alpha)
  }

  /** A constant sample is a fixed point once reached. */
  lemma {:induction false} ConstantInputHeld(raw: Point, alpha: real, n: nat)
    ensures SmoothIterate(raw, raw, alpha, n) == raw
  {
    if n > 0 {
      ConstantInputHeld(raw, alpha, n - 1);
    }
  }

  /** Away from the bootstrap sentinel, each coordinate of a smoothing
      step keeps the fraction 1 - alpha of its distance to the sample. */
  lemma StepGap(s: Point, raw: Point, alpha: real)
    requires s != Origin
    ensures var s' := SmoothStep(s, raw, alpha);
            && s'.x - raw.x == (1.0 - alpha) * (s.x - raw.x)
            && s'.y - raw.y == (1.0 - alpha) * (s.y - raw.y)
  {
  }

  /** `q`'s gap to `raw` is exactly `k` times `s`'s, on both axes. */
  predicate Scaled(s: Point, q: Point, raw: Point, k: real)
  {
    q.x - raw.x == k * (s.x - raw.x) && q.y - raw.y == k * (s.y - raw.y)
  }

  /** The inductive step of ConstantInputConverges. */
  lemma ConvergeStep(s: Point, prev: Point, raw: Point, alpha: real, p: real)
    requires prev == raw || Scaled(s, prev, raw, p)
    ensures var q := SmoothStep(prev, raw, alpha);
            q == raw || Scaled(s, q, raw, (1.0 - alpha) * p)
  {
  }

  /** Under a constant sample the smoothed point either has reached the
      sample (after a bootstrap from (0, 0)) or has kept exactly the
      fraction (1 - alpha)^n of its initial gap on both axes: with
      0 < alpha <= 1 it converges geometrically to the sample. */
  lemma {:induction false} ConstantInputConverges(s: Point, raw: Point, alpha: real, n: nat)
    ensures var q := SmoothIterate(s, raw, alpha, n);
            q == raw || Scaled(s, q, raw, Pow(1.0 - alpha, n))
    decreases n
  {
    if n > 0 {
      var prev := SmoothIterate(s, raw, alpha, n - 1);
      var p := Pow(1.0 - alpha, n - 1);
      ConstantInputConverges(s, raw, alpha, n - 1);
      ConvergeStep(s, prev, raw, alpha, p);
      assert SmoothIterate(s, raw, alpha, n) == SmoothStep(prev, raw, alpha);
      assert Pow(1.0 - alpha, n) == (1.0 - alpha) * p;
    }
  }

  /** State of the gaze smoother: the smoothed point and the last cursor
      position actually sent. */
  datatype GazeState = GazeState(smooth: Point, lastX: int, lastY: int)

  /** What the gaze estimator reports for a frame: nothing (no estimator,
      no features, or an exception), or a blink flag with a predicted point. */
  datatype GazeObs = NoGaze | Gaze(blink: bool, raw: Point)

  /** The smoothing block runs only for features without a blink on a
      calibrated tracker. */
  predicate Runs(obs: GazeObs, calibrated: bool) {
    obs.Gaze? && !obs.blink && calibrated
  }

  /** Either axis moved by at least the deadzone since the last cursor move. */
  predicate OutsideDeadzone(gx: int, gy: int, lx: int, ly: int, deadzone: real) {
    Abs(gx - lx) as real >= deadzone || Abs(gy - ly) as real >= deadzone
  }

  datatype GazeResult = GazeResult(state: GazeState, gazeX: int, gazeY: int, move: Option<Action>)

  /** The gaze part of one frame: smoothing, truncation to pixels, and a
      cursor move when tracking is active and the deadzone is exceeded.
      `gazeX`/`gazeY` are 0 on frames where the block does not run. */
  function GazeUpdate(g: GazeState, obs: GazeObs, calibrated: bool, active: bool,
                      alpha: real, deadzone: real): (r: GazeResult)
    ensures !Runs(obs, calibrated) ==> r == GazeResult(g, 0, 0, None)
    ensures Runs(obs, calibrated) ==>
              && r.state.smooth == SmoothStep(g.smooth, obs.raw, alpha)
              && r.gazeX == Trunc(r.state.smooth.x)
              && r.gazeY == Trunc(r.state.smooth.y)
    ensures r.move.Some? <==>
              Runs(obs, calibrated) && active && OutsideDeadzone(r.gazeX, r.gazeY, g.lastX, g.lastY, deadzone)
    ensures r.move.Some? ==>
              && r.move.value == MoveTo(r.gazeX, r.gazeY)
              && r.state.lastX == r.gazeX && r.state.lastY == r.gazeY
    ensures r.move.None? ==> r.state.lastX == g.lastX && r.state.lastY == g.lastY
  {
    if !Runs(obs, calibrated) then GazeResult(g, 0, 0, None)
    else
      var s := SmoothStep(g.smooth, obs.raw, alpha);
      var gx := Trunc(s.x);
      var gy := Trunc(s.y);
      if active && OutsideDeadzone(gx, gy, g.lastX, g.lastY, deadzone) then
        GazeResult(GazeState(s, gx, gy), gx, gy, Some(MoveTo(gx, gy)))
      else
        GazeResult(GazeState(s, g.lastX, g.lastY), gx, gy, None)
  }

  /** One frame's inputs to the gaze block. */
  datatype GazeTick = GazeTick(obs: GazeObs, calibrated: bool, active: bool)

  /** The gaze block over a sequence of frames: final state and the moves sent. */
  function GazeRun(g: GazeState, ticks: seq<GazeTick>, alpha: real, deadzone: real): (GazeState, seq<Action>)
    decreases |ticks|
  {
    if |ticks| == 0 then (g, [])
    else
      var r := GazeUpdate(g, ticks[0].obs, ticks[0].calibrated, ticks[0].active, alpha, deadzone);
      var (g', moves) := GazeRun(r.state, ticks[1..], alpha, deadzone);
      (g', (if r.move.Some? then [r.move.value] else []) + moves)
  }

  /** Every move in `moves` clears the deadzone around the previous one,
      starting from (`lx`, `ly`), and the last one lands on (`fx`, `fy`). */
  predicate Spaced(moves: seq<Action>, lx: int, ly: int, deadzone: real, fx: int, fy: int)
    decreases |moves|
  {
    if |moves| == 0 then lx == fx && ly == fy
    else
      && moves[0].MoveTo?
      && OutsideDeadzone(moves[0].x, moves[0].y, lx, ly, deadzone)
      && Spaced(moves[1..], moves[0].x, moves[0].y, deadzone, fx, fy)
  }

  /** Jitter never reaches the cursor: over any run, consecutive cursor
      moves are at least a deadzone apart on some axis, and the recorded
      last position is the target of the last move (or unchanged). */
  lemma {:induction false} GazeRunSpaced(g: GazeState, ticks: seq<GazeTick>, alpha: real, deadzone: real)
    ensures var (g', moves) := GazeRun(g, ticks, alpha, deadzone);
            Spaced(moves, g.lastX, g.lastY, deadzone, g'.lastX, g'.lastY)
    decreases |ticks|
  {
    if |ticks| > 0 {
      var r := GazeUpdate(g, ticks[0].obs, ticks[0].calibrated, ticks[0].active, alpha, deadzone);
      GazeRunSpaced(r.state, ticks[1..], alpha, deadzone);
      var (g', moves) := GazeRun(r.state, ticks[1..], alpha, deadzone);
      if r.move.Some? {
        assert ([r.move.value] + moves)[1..] == moves;
      } else {
        assert [] + moves == moves;
      }
    }
  }

  /** Frames on which the block does not run leave the smoother untouched. */
  lemma {:induction false} IdleRunHoldsSmoothed(g: GazeState, ticks: seq<GazeTick>, alpha: real, deadzone: real)
    requires forall i :: 0 <= i < |ticks| ==> !Runs(ticks[i].obs, ticks[i].calibrated)
    ensures GazeRun(g, ticks, alpha, deadzone) == (g, [])
    decreases |ticks|
  {
    if |ticks| > 0 {
      var r := GazeUpdate(g, ticks[0].obs, ticks[0].calibrated, ticks[0].active, alpha, deadzone);
      assert r.state == g && r.move.None?;
      assert forall i :: 0 <= i < |ticks[1..]| ==> ticks[1..][i] == ticks[i + 1];
      IdleRunHoldsSmoothed(g, ticks[1..], alpha, deadzone);
      var empty: seq<Action> := [];
      assert GazeRun(g, ticks, alpha, deadzone) == (g, empty + empty);
      assert empty + empty == empty;
    }
  }
}
