/** The per-eye long-blink click machine of the landmark-based tracker.
    Each eye keeps its own timer, with start time 0 meaning "not timing",
    and a flag recording that this closure has already clicked. A closure
    clicks once, on its first closed frame more than the long-blink
    duration after its first closed frame; a closure whose closed frames
    all fall within that duration never clicks, however late the eye
    reopens. Opening the eye resets both silently. There is no short click
    and no release. */
module EyeClick {

  datatype EyeTimer = EyeTimer(blinkStart: real, triggered: bool)

  /** The reset timer: start time 0 (the "unset" sentinel), not triggered. */
  const Unset := EyeTimer(0.0, false)

  /** A timer never holds a click flag without a running closure. */
  predicate Inv(e: EyeTimer) {
    e.blinkStart == 0.0 ==> !e.triggered
  }

  datatype EyeResult = EyeResult(timer: EyeTimer, clicked: bool)

  /** One frame for one eye: `closed` is the frame's blink classification,
      `t` the frame's clock reading. */
  function EyeStep(e: EyeTimer, closed: bool, t: real, longBlink: real): (r: EyeResult)
    ensures !closed ==> r == EyeResult(Unset, false)
    ensures closed && e.blinkStart == 0.0 ==> r == EyeResult(EyeTimer(t, e.triggered), false)
    ensures r.clicked <==> closed && e.blinkStart != 0.0 && t - e.blinkStart > longBlink && !e.triggered
    ensures closed && e.blinkStart != 0.0 ==> r.timer == EyeTimer(e.blinkStart, e.triggered || r.clicked)
    ensures Inv(e) ==> Inv(r.timer)
  {
    if closed then
      if e.blinkStart == 0.0 then EyeResult(e.(blinkStart := t), false)
      else if t - e.blinkStart > longBlink && !e.triggered then EyeResult(e.(triggered := true), true)
      else EyeResult(e, false)
    else EyeResult(Unset, false)
  }

  /** One frame's classification of the eye and its clock reading. */
  datatype Sample = Sample(closed: bool, time: real)

  datatype RunResult = RunResult(timer: EyeTimer, clicks: nat)

  /** The machine over a sequence of frames: final timer and number of clicks. */
  function EyeRun(e: EyeTimer, samples: seq<Sample>, longBlink: real): RunResult
    decreases |samples|
  {
    if |samples| == 0 then RunResult(e, 0)
    else
      var r := EyeStep(e, samples[0].closed, samples[0].time, longBlink);
      var rest := EyeRun(r.timer, samples[1..], longBlink);
      RunResult(rest.timer, rest.clicks + (if r.clicked then 1 else 0))
  }

  /** Number of closures that begin within `samples`: closed frames whose
      predecessor (`prevClosed` for the first one) was open. */
  function Onsets(samples: seq<Sample>, prevClosed: bool): nat
    decreases |samples|
  {
    if |samples| == 0 then 0
    else (if samples[0].closed && !prevClosed then 1 else 0) + Onsets(samples[1..], samples[0].closed)
  }

  lemma OnsetsPrevious(samples: seq<Sample>)
    ensures Onsets(samples, false) <= Onsets(samples, true) + 1
  {
  }

  /** At most one click per closure: over any frame sequence the clicks
      never outnumber the closures that begin in it. A timer that already
      clicked stands for a closure that began earlier and clicked. */
  lemma {:induction false} AtMostOneClickPerClosure(e: EyeTimer, samples: seq<Sample>, longBlink: real)
    ensures EyeRun(e, samples, longBlink).clicks <= Onsets(samples, e.triggered)
    decreases |samples|
  {
    if |samples| > 0 {
      var s := samples[0];
      var r := EyeStep(e, s.closed, s.time, longBlink);
      AtMostOneClickPerClosure(r.timer, samples[1..], longBlink);
      if s.closed && !e.triggered && !r.clicked {
        OnsetsPrevious(samples[1..]);
      }
    }
  }

  /** Frames of a continuing closure: every sample closed. */
  predicate AllClosed(samples: seq<Sample>) {
    forall i :: 0 <= i < |samples| ==> samples[i].closed
  }

  /** Some frame of `samples` comes more than `longBlink` after `start`. */
  predicate Exceeds(samples: seq<Sample>, start: real, longBlink: real) {
    exists i :: 0 <= i < |samples| && samples[i].time - start > longBlink
  }

  /** A closure that is already timing from a non-zero start keeps its
      start, and clicks exactly once, on the first frame more than the
      long-blink duration after it, unless it has clicked already. */
  lemma {:induction false} TimedClosure(e: EyeTimer, samples: seq<Sample>, longBlink: real)
    requires e.blinkStart != 0.0
    requires AllClosed(samples)
    ensures var r := EyeRun(e, samples, longBlink);
            && r.timer.blinkStart == e.blinkStart
            && r.timer.triggered == (e.triggered || Exceeds(samples, e.blinkStart, longBlink))
            && r.clicks == (if !e.triggered && Exceeds(samples, e.blinkStart, longBlink) then 1 else 0)
    decreases |samples|
  {
    if |samples| > 0 {
      var s := samples[0];
      var r := EyeStep(e, s.closed, s.time, longBlink);
      var tail := samples[1..];
      assert AllClosed(tail) by {
        forall i | 0 <= i < |tail| ensures tail[i].closed {
          assert tail[i] == samples[i + 1];
        }
      }
      TimedClosure(r.timer, tail, longBlink);
      if Exceeds(samples, e.blinkStart, longBlink) {
        var i :| 0 <= i < |samples| && samples[i].time - e.blinkStart > longBlink;
        if i > 0 {
          assert tail[i - 1] == samples[i];
        }
      }
      if Exceeds(tail, e.blinkStart, longBlink) {
        var i :| 0 <= i < |tail| && tail[i].time - e.blinkStart > longBlink;
        assert samples[i + 1] == tail[i];
      }
    }
  }

  /** A whole closure from the reset timer: the first closed frame starts
      the timer (when its clock reads non-zero) and fires nothing; the
      closure then clicks exactly once if a later frame of it comes more than
      the long-blink duration after the first, and never otherwise. */
  lemma ClosureClicksOnce(samples: seq<Sample>, longBlink: real)
    requires |samples| > 0 && samples[0].time != 0.0
    requires AllClosed(samples)
    ensures var r := EyeRun(Unset, samples, longBlink);
            && r.clicks == (if Exceeds(samples[1..], samples[0].time, longBlink) then 1 else 0)
            && r.timer.triggered == Exceeds(samples[1..], samples[0].time, longBlink)
  {
    var tail := samples[1..];
    assert AllClosed(tail) by {
      forall i | 0 <= i < |tail| ensures tail[i].closed {
        assert tail[i] == samples[i + 1];
      }
    }
    TimedClosure(EyeTimer(samples[0].time, false), tail, longBlink);
  }

  /** Opening the eye ends the closure whatever came before: the next run
      starts from the reset timer. */
  lemma {:induction false} ReopenResets(e: EyeTimer, samples: seq<Sample>, longBlink: real)
    requires |samples| > 0 && !samples[|samples| - 1].closed
    ensures EyeRun(e, samples, longBlink).timer == Unset
    decreases |samples|
  {
    if |samples| > 1 {
      var r := EyeStep(e, samples[0].closed, samples[0].time, longBlink);
      ReopenResets(r.timer, samples[1..], longBlink);
    }
  }
}
