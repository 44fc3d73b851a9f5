# Eye and face tracker control loop, modelled in Dafny

This project models the control core of `tracker.py`. That file drives the mouse
cursor from a webcam. It contains two trackers:

- **The face-box tracker** (`FaceTracker`, lines 16-174). It smooths the centre of
  the detected face box and moves the cursor to twice the smoothed position. It
  counts the frame as "eyes closed" when fewer than two eyes are detected,
  and the first closed frame starts the closure:
  - if a later closed frame comes more than `BLINK_DURATION` (0.4 s) after
    the start, the left button is pressed and held until the eyes reopen;
  - otherwise the reopening clicks once, but only if it comes strictly less
    than 0.4 s after the start;
  - otherwise, including a reopening exactly 0.4 s after the start, nothing
    happens.
- **The landmark-based tracker** (`calculate_ear` and the second `run`,
  lines 191-316). Each loop iteration:
  1. consumes a pending calibration request;
  2. reads a frame (a failed read skips the iteration);
  3. smooths the gaze prediction with an exponential moving average. An
     all-zero smoothed point acts as an "unset" sentinel that adopts the next
     sample as is. The block runs only for a non-blink prediction on a
     calibrated tracker;
  4. truncates the smoothed point to pixels with `int()`;
  5. moves the cursor when tracking is active and either axis has moved at
     least `DEADZONE` since the last move;
  6. scores each eye with the eye aspect ratio (EAR) over every detected face;
  7. runs one long-blink click machine per eye, only while tracking is active;
  8. emits one output record.

Every operation is a pure function from state and frame inputs to the new state
and the list of cursor-library calls it would make (`Actuation.Action`). A run
over many frames is a recursive function over a sequence of frame inputs.

Module layout, one file each:

- `Common`: `Option`, `Point`, Python's `int()` as `Trunc`, `Pow`.
- `Actuation`: buttons, cursor calls, click counting.
- `Ear`: `calculate_ear` and the loop over face meshes.
- `Smoothing`: the moving average, its sentinel and the deadzone-gated gaze block.
- `EyeClick`: the landmark tracker's per-eye click machine.
- `BlinkPress`: the face-box tracker's `handle_blink`.
- `FaceTracker`: the face-box tracker's loop.
- `EyeTracker`: the landmark tracker's loop iteration, its output record and runs of it.

Behaviour of the code worth knowing:

- **Per-eye machine.** It has no short click and no release. A closure clicks
  once, on its first closed frame more than `LONG_BLINK_DURATION` after its
  first closed frame (tracker.py:274-282). A closure whose closed frames all
  fall within that duration never clicks, however late the eye reopens.
  Opening the eye resets the machine silently (tracker.py:283-285). Only the
  face-box tracker has the press/release and short-click behaviour
  (tracker.py:98-125).
- **Blink fields of the record.** `blink_left` and `blink_right` carry the
  machines' "already clicked in this closure" flags, not the frame's
  classification (tracker.py:304-305).
- **When the smoother runs.** It does not run on every frame. It runs only when the
  estimator reports features, no blink, and the tracker is calibrated
  (tracker.py:224). On other frames the record carries position (0, 0).
- **Several faces.** Each face overwrites both scores, so the record reports the
  last face's scores. The blink flags are set if the eye is below the threshold
  in any face (tracker.py:261-268).

## Model

| member | source | states |
|---|---|---|
| Common.Trunc | tracker.py:235 | `int()` of a coordinate truncates toward zero: the result lies within 1 of the real value, on the same side of zero, and never further from zero. |
| Ear.Ratio | tracker.py:196-197 | A degenerate eye (corner distance 0) scores 0.0. Otherwise score times twice the corner distance equals the sum of the two lid distances. The score is non-negative for non-negative distances. |
| Ear.CalculateEar | tracker.py:191-197 | The score of the eye with a given six-point contour relates the two lid distances to the corner distance, measured between landmarks scaled to pixel coordinates. A degenerate eye scores 0.0. The score is non-negative whenever the distance function is. |
| Ear.ClosedIff | tracker.py:191-197 | "Score below threshold" holds exactly when the summed lid opening is below twice the threshold times the corner distance. A degenerate eye counts as closed exactly when the threshold is positive. |
| Ear.ScaleInvariant | tracker.py:191-197 | Scaling every distance by the same positive factor leaves the score unchanged. |
| Ear.EyeScanReading | tracker.py:256-268 | For one eye over all faces of a frame, the reported score is the last face's score. The blink flag is set exactly when some face scores below the threshold. Without faces the result is 0.0 and no blink. |
| Ear.ScanReadings | tracker.py:256-268 | The same for both eyes at once: scores from the last face, each blink flag an "exists a face" condition, and non-negative scores. |
| Smoothing.SmoothStep | tracker.py:229-233 | An unset (0, 0) smoother adopts the sample. Otherwise each coordinate lands between its old value and the sample, for any weight in [0, 1]. A smoother already at the sample stays there. |
| Smoothing.EmaConvex | tracker.py:232-233 | For a weight in [0, 1] the moving average is a convex combination: it lies between the old value and the sample. |
| Smoothing.StepGap | tracker.py:232-233 | Away from the sentinel, one update keeps exactly the fraction 1 - alpha of each coordinate's distance to the sample. |
| Smoothing.ConstantInputHeld | tracker.py:229-233 | Once the smoother equals the sample, any number of further updates with that sample keep it there. |
| Smoothing.ConstantInputConverges | tracker.py:229-233 | After n updates with a constant sample, the smoother either equals the sample (after a bootstrap) or keeps exactly (1 - alpha)^n of its initial gap on both axes. |
| Smoothing.GazeUpdate | tracker.py:220-244 | A frame where the block does not run reports (0, 0) and changes nothing. Otherwise it smooths and truncates. A cursor move happens if and only if tracking is active and some axis moved at least the deadzone. The move goes to the truncated gaze and records it as the last position. Without a move the last position is kept. |
| Smoothing.GazeRunSpaced | tracker.py:237-244 | Over any run, each cursor move differs from the previous one by at least the deadzone on some axis. The recorded last position is the target of the last move, or unchanged when nothing moved. |
| Smoothing.IdleRunHoldsSmoothed | tracker.py:224-247 | Frames with no features, a blink, or no calibration leave the smoother and the last position untouched and move nothing. |
| EyeClick.EyeStep | tracker.py:274-285 | An open eye resets the timer silently. The first closed frame records the clock. A click fires if and only if the eye is closed, the timer is running, more than the long-blink duration has elapsed, and this closure has not clicked. A running closure keeps its start time. "A flag implies a running timer" is preserved. |
| EyeClick.AtMostOneClickPerClosure | tracker.py:274-285 | Over any frame sequence, one eye's clicks never outnumber the closures that begin in it, where a closure already running at the start and not yet clicked counts as beginning in the sequence. |
| EyeClick.TimedClosure | tracker.py:275-282 | During a continuing closure the start is kept. The eye clicks exactly once, when some frame is more than the long-blink duration after the start, unless it already clicked. |
| EyeClick.ClosureClicksOnce | tracker.py:275-282 | A closure from the reset timer clicks once if some later frame of it is more than the long-blink duration after its first frame, and never otherwise. The click flag is set exactly then. |
| EyeClick.ReopenResets | tracker.py:283-285 | Whatever came before, a run ending in an open frame leaves the reset timer. |
| BlinkPress.HandleBlink | tracker.py:98-125 | Fewer than two eyes is closed. The first closed frame records the start. The button is pressed if and only if a continuing closure exceeds 0.4 s and is not yet pressed. On reopening: a held button is released; otherwise a click happens if and only if the closure lasted under 0.4 s, and nothing if and only if it lasted at least 0.4 s. At most one call per frame. The fields the source leaves alone in each branch keep their values. "Pressed implies closed" is preserved. |
| BlinkPress.PressReleasePaired | tracker.py:102-125 | Over any frame sequence, presses and releases of the left button alternate, clicks only happen with the button up, and the `pressed` flag ends matching the button. |
| BlinkPress.ClosedStretch | tracker.py:102-111 | Within a continuing closure the start is kept. The button is pressed at most once, exactly when some frame exceeds the blink duration and it was not already pressed. |
| BlinkPress.BlinkLifecycle | tracker.py:98-125 | A full blink from open eyes (closed frames, then one open frame) gives press then release if the closure exceeded 0.4 s. Otherwise it gives one click if the reopening came under 0.4 s after the first closed frame, and nothing if not. It ends with eyes open, the button up and the blink time recorded. |
| BlinkPress.OpenFramesSilent | tracker.py:112-113 | Open frames while the eyes are already open change nothing and send nothing. |
| FaceTracker.Init | tracker.py:40 | The smoother starts at the screen centre, taken as integer halves of the screen size: whole numbers x and y with 2x <= width < 2x + 2 and 2y <= height < 2y + 2. The blink handler starts open and unpressed. |
| FaceTracker.UpdateMouse | tracker.py:85-94 | With weight 0.2 the smoothed position lies between the old position and the target. It keeps 0.8 of the gap on each axis. The cursor goes to the truncation of twice the smoothed position. |
| FaceTracker.FaceStep | tracker.py:141-153 | A frame with a face first moves the cursor as `UpdateMouse` says. A frame without one keeps the smoother. Either way the blink handler's calls follow. |
| FaceTracker.StopsAtFailure | tracker.py:132-136 | The loop ends at the first failed frame: frames after it have no effect. |
| FaceTracker.FaceRunPaired | tracker.py:132-153 | Over the whole loop, cursor moves aside, presses and releases stay paired and the handler's flag matches the button. |
| EyeTracker.ProcessClicks | tracker.py:270-298 | While tracking, each eye's timer advances exactly as its own machine does on its own blink flag. The section sends one click of a button exactly when that eye's machine fires, and nothing but clicks. A left click comes before a right click. |
| EyeTracker.Step | tracker.py:206-312 | A pending calibration is consumed, whether or not the frame is read, and sets `calibrated` from the calibration outcome. Tracking activity is never changed. A failed read sends nothing, emits no record and keeps all timers and the smoother. A read frame emits a record with the active flag, the click flags and the frame's eye scores. |
| EyeTracker.StepPayload | tracker.py:300-309 | The record's position is the truncated smoothed gaze when the gaze block ran. Otherwise it is (0, 0) and the smoother is untouched. |
| EyeTracker.StepActuation | tracker.py:237-298 | A stopped tracker sends nothing and keeps timers and last position. Otherwise a cursor move comes first, only on a calibrated tracker and to the recorded last position. Only clicks follow, at most one per button. |
| EyeTracker.StepFollowsEye | tracker.py:270-298 | While tracking, one iteration advances each eye's timer exactly as that eye's machine does on its own blink flag. It clicks that eye's button exactly when the machine fires. |
| EyeTracker.InactiveRunIsSilent | tracker.py:238-308 | Over any number of iterations with tracking stopped: no move and no click, both timers and the last position unchanged, and every record reports inactive. |
| EyeTracker.CalibrationConsumed | tracker.py:208-210 | After any non-empty run, no calibration request is pending and tracking activity is as it was. `calibrated` is decided by the first iteration alone: its calibration outcome if a request was pending at the start, otherwise the initial value. Later outcomes are ignored. |
| EyeTracker.RunFollowsEye | tracker.py:270-298 | Over a whole run while tracking, each eye's timer and click count equal those of its machine run over that eye's own samples. |
| EyeTracker.AtMostOneClickPerClosure | tracker.py:274-298 | Across the loop, the clicks of each button never outnumber the closures of its eye that begin during the run, where a closure already running at the start and not yet clicked counts as beginning in the run. |

## Left out

- The camera, MediaPipe face mesh, Haar cascades, the eye-tracking estimator and `calibrate()`.
  - Their outputs are inputs here: a gaze observation, face meshes, detected eye counts and the calibration outcome.
  - The calibration routine's body is not part of this model. Neither is the stray fragment at tracker.py:176-188, which belongs to it.
- The mapping from the face box to a screen target (tracker.py:76-83) needs `cap.get` and the screen size. The target is an input of `FaceTracker.FaceStep`.
- `np.linalg.norm` is an abstract distance function parameter, not a concrete square root. Non-negativity is assumed only where a lemma says so.
- Floating-point arithmetic is modelled with real numbers: no rounding, no NaN, no infinities. `int()` is modelled exactly, as truncation toward zero.
- `DEADZONE`, `EAR_THRESHOLD`, `LONG_BLINK_DURATION` and the landmark tracker's smoothing factor are configuration parameters (`EyeTracker.Config`). Their definitions are not in the modelled code. The face-box tracker's constants (0.2, 2.0, 0.4) are fixed as written.
- Cursor-library calls are values, not effects. Exceptions are not modelled. In the source:
  - a failing `moveTo` in the gaze block skips the last-position update (tracker.py:243-249);
  - a failing click would propagate out of the loop.
- The landmark tracker's constructor and the thread that reads START/STOP/CALIBRATE commands are not part of this model. `tracking_active` is only read by the loop and is kept by every step. `calibration_requested` is part of the initial state.
- A face mesh must hold at least 388 landmarks (`Ear.CoversEyes`). The source would raise an index error on a smaller mesh.
- Drawing, `imshow`, `waitKey` and the 'q' exit, the retry delay after a failed read, and JSON serialisation and flushing of the record. The record is modelled as a `Payload` value.
- `main.js`, `preload.js` and `scripts/build-python.js` (the desktop shell that starts the tracker and reads its output) are not part of this model.
- Smoothing.ConstantInputConverges: proves geometric convergence for a constant sample only. It does not bound the lag for a moving sample. The (0, 0) sentinel means a smoother that averages exactly onto the origin re-bootstraps on the next sample. The model keeps that behaviour as written.
