/** The face-box tracker's main loop: each captured frame optionally moves
    the cursor toward the smoothed face target, then runs the blink
    handler. A failed capture ends the loop. */
module FaceTracker {
  import opened Common
  import opened Actuation
  import Smoothing
  import BlinkPress

  /** Weight of a new target in the moving average. */
  const SmoothingFactor: real := 0.2
  /** Factor applied to the smoothed position when moving the cursor. */
  const MoveScale: real := 2.0

  datatype FaceState = FaceState(smoothed: Point, blink: BlinkPress.BlinkState)

  /** Start state: smoothing begins at the screen centre (integer halves). */
  function Init(screenW: nat, screenH: nat): (s: FaceState)
    ensures 2.0 * s.smoothed.x <= screenW as real < 2.0 * s.smoothed.x + 2.0
    ensures 2.0 * s.smoothed.y <= screenH as real < 2.0 * s.smoothed.y + 2.0
    ensures s.smoothed.x.Floor as real == s.smoothed.x && s.smoothed.y.Floor as real == s.smoothed.y
    ensures s.blink == BlinkPress.Initial
  {
    FaceState(Point((screenW / 2) as real, (screenH / 2) as real), BlinkPress.Initial)
  }

  /** A captured frame: the screen target derived from the detected face
      box (None without a face) and the number of detected eyes. */
  datatype Capture = Failed | Got(target: Option<Point>, eyeCount: nat)

  datatype FaceFrame = FaceFrame(capture: Capture, time: real)

  datatype FaceResult = FaceResult(state: FaceState, actions: seq<Action>)

  /** update_mouse_position for a detected face: average toward the target,
      then move the cursor to the scaled, truncated average. */
  function UpdateMouse(smoothed: Point, target: Point): (r: (Point, Action))
    ensures Smoothing.Between(smoothed.x, target.x, r.0.x) && Smoothing.Between(smoothed.y, target.y, r.0.y)
    ensures r.0.x - target.x == (1.0 - SmoothingFactor) * (smoothed.x - target.x)
    ensures r.0.y - target.y == (1.0 - SmoothingFactor) * (smoothed.y - target.y)
    ensures r.1 == MoveTo(Trunc(r.0.x * MoveScale), Trunc(r.0.y * MoveScale))
  {
    Smoothing.EmaConvex(smoothed.x, target.x, SmoothingFactor);
    Smoothing.EmaConvex(smoothed.y, target.y, SmoothingFactor);
    Smoothing.EmaGap(smoothed.x, target.x, SmoothingFactor);
    Smoothing.EmaGap(smoothed.y, target.y, SmoothingFactor);
    var p := Point(Smoothing.Ema(smoothed.x, target.x, SmoothingFactor),
                   Smoothing.Ema(smoothed.y, target.y, SmoothingFactor));
    (p, MoveTo(Trunc(p.x * MoveScale), Trunc(p.y * MoveScale)))
  }

  /** One iteration of the loop for a successfully captured frame. */
  function FaceStep(s: FaceState, target: Option<Point>, eyeCount: nat, t: real): (r: FaceResult)
    ensures target.None? ==> r.state.smoothed == s.smoothed
    ensures target.Some? ==>
              && |r.actions| >= 1 && r.actions[0].MoveTo?
              && (r.state.smoothed, r.actions[0]) == UpdateMouse(s.smoothed, target.value)
    ensures var b := BlinkPress.HandleBlink(s.blink, eyeCount, t);
            && r.state.blink == b.state
            && r.actions == (if target.Some? then [r.actions[0]] else []) + b.actions
  {
    var (smoothed, moves) :=
      if target.Some? then
        var (p, m) := UpdateMouse(s.smoothed, target.value); (p, [m])
      else (s.smoothed, []);
    var b := BlinkPress.HandleBlink(s.blink, eyeCount, t);
    FaceResult(FaceState(smoothed, b.state), moves + b.actions)
  }

  /** The loop over a frame sequence; it stops at the first failed capture. */
  function FaceRun(s: FaceState, frames: seq<FaceFrame>): FaceResult
    decreases |frames|
  {
    if |frames| == 0 then FaceResult(s, [])
    else match frames[0].capture
      case Failed => FaceResult(s, [])
      case Got(target, eyeCount) =>
        var r := FaceStep(s, target, eyeCount, frames[0].time);
        var rest := FaceRun(r.state, frames[1..]);
        FaceResult(rest.state, r.actions + rest.actions)
  }

  /** Nothing after a failed capture is processed. */
  lemma {:induction false} StopsAtFailure(s: FaceState, frames: seq<FaceFrame>, i: nat)
    requires i < |frames| && frames[i].capture.Failed?
    ensures FaceRun(s, frames) == FaceRun(s, frames[..i])
    decreases i
  {
    if i > 0 {
      assert frames[..i][0] == frames[0];
      assert frames[..i][1..] == frames[1..][..i - 1];
      if frames[0].capture.Got? {
        var r := FaceStep(s, frames[0].capture.target, frames[0].capture.eyeCount, frames[0].time);
        StopsAtFailure(r.state, frames[1..], i - 1);
      }
    }
  }

  /** The button actions among `acts` (cursor moves dropped). */
  function Buttons(acts: seq<Action>): (b: seq<Action>)
    ensures |b| <= |acts|
    ensures forall i :: 0 <= i < |b| ==> !b[i].MoveTo?
    decreases |acts|
  {
    if |acts| == 0 then []
    else (if acts[0].MoveTo? then [] else [acts[0]]) + Buttons(acts[1..])
  }

  lemma {:induction false} ButtonsAppend(a: seq<Action>, c: seq<Action>)
    ensures Buttons(a + c) == Buttons(a) + Buttons(c)
    decreases |a|
  {
    if |a| == 0 {
      assert a + c == c;
    } else {
      assert (a + c)[0] == a[0];
      assert (a + c)[1..] == a[1..] + c;
      ButtonsAppend(a[1..], c);
    }
  }

  lemma {:induction false} PairedAppend(a: seq<Action>, c: seq<Action>, h: bool, m: bool, f: bool)
    requires BlinkPress.Paired(a, h, m) && BlinkPress.Paired(c, m, f)
    ensures BlinkPress.Paired(a + c, h, f)
    decreases |a|
  {
    if |a| == 0 {
      assert a + c == c;
    } else {
      assert (a + c)[0] == a[0];
      assert (a + c)[1..] == a[1..] + c;
      match a[0]
      case MouseDown(Left) => PairedAppend(a[1..], c, true, m, f);
      case MouseUp(Left) => PairedAppend(a[1..], c, false, m, f);
      case Click(Left) => PairedAppend(a[1..], c, h, m, f);
    }
  }

  /** One frame's button actions are exactly the blink handler's, which
      are paired on their own. */
  lemma FaceStepPaired(s: FaceState, target: Option<Point>, eyeCount: nat, t: real)
    ensures var r := FaceStep(s, target, eyeCount, t);
            BlinkPress.Paired(Buttons(r.actions), s.blink.pressed, r.state.blink.pressed)
  {
    var r := FaceStep(s, target, eyeCount, t);
    var b := BlinkPress.HandleBlink(s.blink, eyeCount, t);
    var moves := if target.Some? then [r.actions[0]] else [];
    var frame := BlinkPress.EyesFrame(eyeCount, t);
    BlinkPress.PressReleasePaired(s.blink, [frame]);
    assert [frame][1..] == [];
    assert BlinkPress.BlinkRun(s.blink, [frame]).actions == b.actions + [];
    assert b.actions + [] == b.actions;
    ButtonsAppend(moves, b.actions);
    assert Buttons(b.actions) == b.actions by {
      if |b.actions| == 1 {
        assert b.actions[1..] == [];
      }
    }
  }

  /** Cursor moves aside, the loop's presses and releases stay paired and
      the blink handler's flag tracks the held button. */
  lemma {:induction false} FaceRunPaired(s: FaceState, frames: seq<FaceFrame>)
    ensures var r := FaceRun(s, frames);
            BlinkPress.Paired(Buttons(r.actions), s.blink.pressed, r.state.blink.pressed)
    decreases |frames|
  {
    if |frames| > 0 && frames[0].capture.Got? {
      var c := frames[0].capture;
      var r := FaceStep(s, c.target, c.eyeCount, frames[0].time);
      var rest := FaceRun(r.state, frames[1..]);
      FaceStepPaired(s, c.target, c.eyeCount, frames[0].time);
      FaceRunPaired(r.state, frames[1..]);
      ButtonsAppend(r.actions, rest.actions);
      PairedAppend(Buttons(r.actions), Buttons(rest.actions), s.blink.pressed, r.state.blink.pressed, rest.state.blink.pressed);
    }
  }
}
