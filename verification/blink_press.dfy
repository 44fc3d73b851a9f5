/** The single-instance blink handler of the face-box tracker. Fewer than
    two detected eyes counts as closed, and the first closed frame starts
    the closure. A later closed frame more than the blink duration after
    the start presses the left button, and reopening releases it. Without
    such a frame, reopening clicks once if it comes strictly less than the
    blink duration after the start, and does nothing otherwise. */
module BlinkPress {
  import opened Actuation

  /** Seconds a closure must last to count as a long press. */
  const BlinkDuration: real := 0.4

  datatype BlinkState = BlinkState(eyesClosed: bool, blinkStart: real, pressed: bool, lastBlinkTime: real)

  const Initial := BlinkState(false, 0.0, false, 0.0)

  /** The button is only held during a closure. */
  predicate Inv(s: BlinkState) {
    s.pressed ==> s.eyesClosed
  }

  /** Eyes count as closed when fewer than two are detected. */
  predicate Closed(eyeCount: nat) {
    eyeCount < 2
  }

  datatype BlinkResult = BlinkResult(state: BlinkState, actions: seq<Action>)

  /** handle_blink: one frame with `eyeCount` detected eyes at clock `t`. */
  function HandleBlink(s: BlinkState, eyeCount: nat, t: real): (r: BlinkResult)
    ensures |r.actions| <= 1
    ensures Closed(eyeCount) && !s.eyesClosed ==>
              r == BlinkResult(s.(eyesClosed := true, blinkStart := t), [])
    ensures Closed(eyeCount) && s.eyesClosed ==>
              && r.state.eyesClosed && r.state.blinkStart == s.blinkStart
              && r.state.lastBlinkTime == s.lastBlinkTime
              && r.state.pressed == (s.pressed || r.actions == [MouseDown(Left)])
    ensures Closed(eyeCount) && s.eyesClosed ==>
              r.actions == (if t - s.blinkStart > BlinkDuration && !s.pressed then [MouseDown(Left)] else [])
    ensures r.actions == [MouseDown(Left)] <==>
              Closed(eyeCount) && s.eyesClosed && t - s.blinkStart > BlinkDuration && !s.pressed
    ensures !Closed(eyeCount) && s.eyesClosed ==>
              && !r.state.eyesClosed && !r.state.pressed && r.state.lastBlinkTime == t
              && r.state.blinkStart == s.blinkStart
              && (s.pressed ==> r.actions == [MouseUp(Left)])
              && (!s.pressed ==> (r.actions == [Click(Left)] <==> t - s.blinkStart < BlinkDuration))
              && (!s.pressed ==> (r.actions == [] <==> t - s.blinkStart >= BlinkDuration))
    ensures !Closed(eyeCount) && !s.eyesClosed ==> r == BlinkResult(s, [])
    ensures Inv(s) ==> Inv(r.state)
  {
    if Closed(eyeCount) then
      if !s.eyesClosed then BlinkResult(s.(eyesClosed := true, blinkStart := t), [])
      else if t - s.blinkStart > BlinkDuration && !s.pressed then
        BlinkResult(s.(pressed := true), [MouseDown(Left)])
      else BlinkResult(s, [])
    else if s.eyesClosed then
      var duration := t - s.blinkStart;
      var s' := s.(eyesClosed := false, lastBlinkTime := t);
      if s.pressed then BlinkResult(s'.(pressed := false), [MouseUp(Left)])
      else if duration < BlinkDuration then BlinkResult(s', [Click(Left)])
      else BlinkResult(s', [])
    else BlinkResult(s, [])
  }

  /** One frame: number of detected eyes and the clock reading. */
  datatype EyesFrame = EyesFrame(eyeCount: nat, time: real)

  /** handle_blink over a sequence of frames. */
  function BlinkRun(s: BlinkState, frames: seq<EyesFrame>): BlinkResult
    decreases |frames|
  {
    if |frames| == 0 then BlinkResult(s, [])
    else
      var r := HandleBlink(s, frames[0].eyeCount, frames[0].time);
      var rest := BlinkRun(r.state, frames[1..]);
      BlinkResult(rest.state, r.actions + rest.actions)
  }

  lemma {:induction false} BlinkRunAppend(s: BlinkState, a: seq<EyesFrame>, b: seq<EyesFrame>)
    ensures var ra := BlinkRun(s, a);
            var rb := BlinkRun(ra.state, b);
            BlinkRun(s, a + b) == BlinkResult(rb.state, ra.actions + rb.actions)
    decreases |a|
  {
    if |a| == 0 {
      assert a + b == b;
    } else {
      var r := HandleBlink(s, a[0].eyeCount, a[0].time);
      assert (a + b)[0] == a[0];
      assert (a + b)[1..] == a[1..] + b;
      BlinkRunAppend(r.state, a[1..], b);
    }
  }

  /** Press and release alternate: starting from button state `held`, every
      press finds the button up, every release finds it down, a click only
      happens with the button up, and the button ends in state `final`. */
  predicate Paired(acts: seq<Action>, held: bool, final: bool)
    decreases |acts|
  {
    if |acts| == 0 then held == final
    else match acts[0]
      case MouseDown(Left) => !held && Paired(acts[1..], true, final)
      case MouseUp(Left) => held && Paired(acts[1..], false, final)
      case Click(Left) => !held && Paired(acts[1..], held, final)
      case _ => false
  }

  /** Over any frame sequence the presses and releases the handler sends
      are properly paired, and the `pressed` flag tracks the button. */
  lemma {:induction false} PressReleasePaired(s: BlinkState, frames: seq<EyesFrame>)
    ensures var r := BlinkRun(s, frames); Paired(r.actions, s.pressed, r.state.pressed)
    decreases |frames|
  {
    if |frames| > 0 {
      var r := HandleBlink(s, frames[0].eyeCount, frames[0].time);
      var rest := BlinkRun(r.state, frames[1..]);
      PressReleasePaired(r.state, frames[1..]);
      if |r.actions| == 1 {
        assert (r.actions + rest.actions)[0] == r.actions[0];
        assert (r.actions + rest.actions)[1..] == rest.actions;
      } else {
        assert r.actions + rest.actions == rest.actions;
      }
    }
  }

  /** Every frame shows fewer than two eyes. */
  predicate AllClosed(frames: seq<EyesFrame>) {
    forall i :: 0 <= i < |frames| ==> Closed(frames[i].eyeCount)
  }

  /** Some frame comes more than the blink duration after `start`. */
  predicate Exceeds(frames: seq<EyesFrame>, start: real) {
    exists i :: 0 <= i < |frames| && frames[i].time - start > BlinkDuration
  }

  /** Within one continuing closure the start time is kept and the button
      is pressed at most once: exactly when some frame comes more than the
      blink duration after the start and it was not pressed already. */
  lemma {:induction false} ClosedStretch(s: BlinkState, frames: seq<EyesFrame>)
    requires s.eyesClosed && AllClosed(frames)
    ensures var r := BlinkRun(s, frames);
            && r.state == s.(pressed := s.pressed || Exceeds(frames, s.blinkStart))
            && r.actions == (if !s.pressed && Exceeds(frames, s.blinkStart) then [MouseDown(Left)] else [])
    decreases |frames|
  {
    if |frames| > 0 {
      var r := HandleBlink(s, frames[0].eyeCount, frames[0].time);
      var tail := frames[1..];
      assert AllClosed(tail) by {
        forall i | 0 <= i < |tail| ensures Closed(tail[i].eyeCount) {
          assert tail[i] == frames[i + 1];
        }
      }
      ClosedStretch(r.state, tail);
      if Exceeds(frames, s.blinkStart) {
        var i :| 0 <= i < |frames| && frames[i].time - s.blinkStart > BlinkDuration;
        if i > 0 {
          assert tail[i - 1] == frames[i];
        }
      }
      if Exceeds(tail, s.blinkStart) {
        var i :| 0 <= i < |tail| && tail[i].time - s.blinkStart > BlinkDuration;
        assert frames[i + 1] == tail[i];
      }
      var rest := BlinkRun(r.state, tail);
      if r.actions == [] {
        assert r.actions + rest.actions == rest.actions;
      } else {
        assert rest.actions == [];
      }
    }
  }

  /** A complete blink from open eyes: a closure of one or more frames
      followed by one open frame. A long closure (some closed frame more
      than the blink duration after the first) presses once and releases
      once; otherwise a single click, but only when the reopening comes
      strictly less than the blink duration after the first closed frame. */
  lemma {:induction false} BlinkLifecycle(s: BlinkState, closure: seq<EyesFrame>, reopen: EyesFrame)
    requires !s.eyesClosed && Inv(s)
    requires |closure| > 0 && AllClosed(closure) && !Closed(reopen.eyeCount)
    ensures var start := closure[0].time;
            var r := BlinkRun(s, closure + [reopen]);
            && r.actions == (if Exceeds(closure[1..], start) then [MouseDown(Left), MouseUp(Left)]
                             else if reopen.time - start < BlinkDuration then [Click(Left)]
                             else [])
            && !r.state.eyesClosed && !r.state.pressed && r.state.lastBlinkTime == reopen.time
  {
    var start := closure[0].time;
    var first := HandleBlink(s, closure[0].eyeCount, start);
    var tail := closure[1..];
    assert AllClosed(tail) by {
      forall i | 0 <= i < |tail| ensures Closed(tail[i].eyeCount) {
        assert tail[i] == closure[i + 1];
      }
    }
    ClosedStretch(first.state, tail);
    var mid := BlinkRun(first.state, tail);
    assert BlinkRun(s, closure) == BlinkResult(mid.state, [] + mid.actions);
    BlinkRunAppend(s, closure, [reopen]);
    var last := HandleBlink(mid.state, reopen.eyeCount, reopen.time);
    assert BlinkRun(mid.state, [reopen]) == BlinkResult(last.state, last.actions + []);
  }

  /** Open frames while the eyes are already open change nothing and send nothing. */
  lemma {:induction false} OpenFramesSilent(s: BlinkState, frames: seq<EyesFrame>)
    requires !s.eyesClosed
    requires forall i :: 0 <= i < |frames| ==> !Closed(frames[i].eyeCount)
    ensures BlinkRun(s, frames) == BlinkResult(s, [])
    decreases |frames|
  {
    if |frames| > 0 {
      assert forall i :: 0 <= i < |frames[1..]| ==> frames[1..][i] == frames[i + 1];
      OpenFramesSilent(s, frames[1..]);
      var empty: seq<Action> := [];
      assert empty + empty == empty;
    }
  }
}
