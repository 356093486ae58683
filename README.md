# NeuroSync monitoring core in Dafny

This project models the decision logic of the NeuroSync focus monitor and of its countdown timer, and proves properties of that logic. The monitor watches a webcam and a shared screen, turns what it sees into classified events, scores them, and escalates to an AI analysis when the score reaches its limit.

The model covers:

- **triggerEvent.** The gate and debounce that decide whether an event adds to the anomaly score, repaints the active preset, or is logged.
- **Scorer state and timers.** The bounded event log, the decay timer, the idle monitor, the mouse/keyboard activity handler and the presence edge detector.
- **Per-frame classifier.** The rolling deviation buffers, the activity refresh, the EXPRESSION and lean rules, and the NOD/SHAKE window.
- **Screen sampler.** The 24-bucket colour histogram and the surge and activity thresholds.
- **Escalation.** The effect that resets the score and decides whether to ask for an analysis. Also the log context handed to the analysis, and how a verdict is applied to the preset and the HUD.
- **Focus timer (`useTimer`).** Toggle, reset, switch mode, the one-second tick effect, `formatTime` and `progress`.

Layout:

- `config.dfy`: event kinds, presets, thresholds and constants.
- `vectors.dfy`: squared distances, buffer means and push-and-evict.
- `histogram.dfy`: the colour histogram.
- `classifier.dfy`: the per-frame classifier.
- `scoring.dfy`: the scorer as pure functions over the fields it updates.
- `screen.dfy`: the screen sampler's step.
- `escalation.dfy`: gating, log context and verdict application.
- `session.dfy`: the component's mutable state as the class `Session.Monitor`, whose methods are the callbacks, interval ticks and effects.
- `digits.dfy`: decimal text.
- `focus_timer.dfy`: the timer hook.

Each `Monitor` method is proved against the pure function that specifies it. The properties are lemmas about those functions.

Modelling choices:

- **Clocks.** They are parameters. `now` is the wall clock in milliseconds. The frame handler's presence debounce uses a separate real-valued frame clock.
- **Thresholds.** The live threshold record is a parameter of every call, because the source reads it afresh each time.
- **Preset table.** It is a value, `Config.Presets`. The `Monitor` holds it in a constant field, fixed to `Config.DEFAULT_CONFIGS` by the constructor. The same table also carries the idle and locked presets.
- **Square roots.** Distances are compared squared: `sqrt(d2) > thr` is written `thr < 0 || d2 > thr * thr`. `Vectors.ExceedsMeansDistanceAbove` proves that this agrees with the real comparison.

Behaviours of the code worth noting:

- **Debounced events add no score.** An ordinary event inside the cooldown adds nothing to the score (components/TimerUI.tsx:762). Only presence alerts and NORMAL bypass the cooldown.
- **A verdict repaints only texts.** Applying a verdict changes only the label, thought and message of the active preset. The verdict's colour goes to the HUD alone.
- **No session check on verdicts.** Nothing checks that the session is still running when a verdict is applied.
- **The idle check re-fires with a face present.** An accepted STAGNATION refreshes the activity time and clears the idle flag it has just raised. The check therefore fires again one timeout later rather than once per idle episode (`Scoring.StagnationRearmsIdleCheck`). Without a face it fires once (`Scoring.IdleFiresOnceWithoutFace`).
- **The score is 0 while not sharing.** Every path that adds to the score runs only while the screen is shared. This covers the decay, idle, activity, presence and screen effects, and the frame loop, which the effect starts only while sharing (components/TimerUI.tsx:935) and cancels when sharing stops (:999). Stopping the share zeroes the score. `Session.Monitor.Valid` therefore includes "not sharing implies score 0". Every handler, tick and effect method keeps it. The inner steps (`TriggerEvent` and the frame helpers it serves) keep only the bounds, because they run inside those methods.

## Model

| member | source | states |
|---|---|---|
| Config.PresetWithMessage | components/TimerUI.tsx:766-767 | the repaint config is the kind's preset with only its message replaced, and the message is replaced exactly when a non-empty custom message is given |
| Scoring.TriggerBlockedIsNoOp | components/TimerUI.tsx:757-760 | with the goal modal or microphone up, any non-NORMAL event leaves score, preset, event time, activity and log unchanged |
| Scoring.TriggerDebouncedIsNoOp | components/TimerUI.tsx:754-766 | an ordinary (non-presence, non-NORMAL) event within the cooldown of the last accepted event changes nothing at all, score included |
| Scoring.TriggerAcceptedEffect | components/TimerUI.tsx:766-774 | an accepted event repaints the preset and stamps the event time; a non-presence event refreshes activity and clears the idle flag, while a presence alert leaves both; every kind but NORMAL is appended to the log |
| Scoring.TriggerRejectedIsNoOp | components/TimerUI.tsx:757-765 | an event that is gated or debounced leaves the whole scorer unchanged |
| Scoring.TriggerScore | components/TimerUI.tsx:762-765 | the score changes only for an accepted event with positive weight and no gate, to the sum clamped at 100; it never decreases and stays in [0, 100] |
| Scoring.TriggerAcceptedScore | components/TimerUI.tsx:762-765 | for an accepted event the score is the clamped sum when no gate is up and the weight is positive, else unchanged |
| Scoring.TriggerNormal | components/TimerUI.tsx:757-774 | NORMAL is never gated, debounced, scored or logged: it only repaints the preset, stamps the event time and refreshes activity |
| Scoring.TriggerBounded | components/TimerUI.tsx:765-774 | every event keeps the score in [0, 100] and the log at no more than 10 entries |
| Scoring.BurstWithinCooldown | components/TimerUI.tsx:755-768 | after an ordinary event is accepted, any ordinary event less than a cooldown later is a no-op |
| Scoring.AppendKeepsNewest | components/TimerUI.tsx:774 | appending to the log grows it by one up to 10, the new entry is last, and the older entries are the newest previous ones in order |
| Scoring.AppendTwice | components/TimerUI.tsx:774 | two appends through the 10-entry window equal one window over both entries |
| Scoring.TriggerAllBounded | components/TimerUI.tsx:986-992 | any sequence of events triggered by one frame keeps the scorer bounded |
| Scoring.TriggerAllSnoc | components/TimerUI.tsx:986-992 | triggering one more event extends the frame's event sequence at its end |
| Scoring.SameMomentOnlyFirstCounts | components/TimerUI.tsx:755-768 | of several ordinary events raised at one moment, only the first can have an effect when the cooldown is positive |
| Scoring.DebouncedRest | components/TimerUI.tsx:757-762 | while gated or debounced, a whole sequence of ordinary events changes nothing |
| Scoring.Decay | components/TimerUI.tsx:747 | a decay tick never goes below 0 and never raises the score; it reaches 0 exactly when the score was at most 5, and otherwise takes off exactly 5 |
| Scoring.IdleCheckQuietUnlessTimedOut | components/TimerUI.tsx:922-924 | the idle check does nothing when already idle or not timed out |
| Scoring.IdleFiresOnceWithoutFace | components/TimerUI.tsx:924-928 | without a face, a timed-out check raises the flag, logs one IDLE entry without scoring, and every later check is a no-op until activity |
| Scoring.StagnationRearmsIdleCheck | components/TimerUI.tsx:924-927 | with a face present and STAGNATION accepted, the idle flag ends cleared with activity at `now`, so one timeout later the check fires again |
| Scoring.IdleCheckBounded | components/TimerUI.tsx:919-932 | the idle check keeps the scorer bounded |
| Scoring.ActivityClearsIdle | components/TimerUI.tsx:910-915 | activity refreshes the activity time and leaves the flag cleared; if idle, exactly one NORMAL is emitted (preset repainted with the input message, no score, no log entry), otherwise nothing else changes |
| Scoring.PresenceEdgeEffect | components/TimerUI.tsx:903-908 | no edge, no change; an edge never touches activity or the idle flag, and when ungated repaints with PRESENCE_FOUND on a rising and PRESENCE_LOST on a falling edge |
| Vectors.SqDist | components/TimerUI.tsx:151-155 | the squared distance is non-negative |
| Vectors.EuclideanSq | components/TimerUI.tsx:151-155 | the summing loop computes the squared distance |
| Vectors.SqDistSelf | components/TimerUI.tsx:151-155 | a vector is at distance 0 from itself |
| Vectors.ExceedsMeansDistanceAbove | components/TimerUI.tsx:151-155 | the squared comparisons hold exactly when the distance itself is above (or below) the threshold |
| Vectors.Mean | components/TimerUI.tsx:978 | the mean of a buffer has the samples' dimension |
| Vectors.DeviationOfEmpty | components/TimerUI.tsx:978-979 | against an empty buffer the deviation is 0 (the sample is compared with itself) |
| Vectors.DeviationOfSteadySample | components/TimerUI.tsx:978-979 | a sample equal to every buffered sample deviates by 0 |
| Vectors.PushEvictWindow | components/TimerUI.tsx:979 | push-then-shift keeps a buffer within its capacity, ends with the new sample and keeps the newest previous samples in order |
| Vectors.UpdateRate | components/TimerUI.tsx:977-980 | updateRate returns the deviation against the buffer before the push, and the buffer pushed with eviction beyond 20 |
| Histogram.Bucket | components/TimerUI.tsx:175-177 | a channel value's bucket is its value divided by 32, rounded down, and lies in 0..7 |
| Histogram.Counts | components/TimerUI.tsx:174-178 | the counts have 24 buckets |
| Histogram.CalculateHistogram | components/TimerUI.tsx:171-181 | the loop's result is the per-pixel bucket counts divided by width times height |
| Histogram.CountAll | components/TimerUI.tsx:174-178 | the counting loop over RGBA bytes yields the counts of all pixels |
| Histogram.CountPixel | components/TimerUI.tsx:175-177 | one pixel increments one bucket in each of the three channel ranges |
| Histogram.AddPixelSum | components/TimerUI.tsx:175-177 | one pixel adds exactly one to each of the ranges 0-7, 8-15 and 16-23 |
| Histogram.ChannelTotal | components/TimerUI.tsx:174-178 | the raw counts of each channel (red, green or blue) add up to the pixel count |
| Histogram.CountsNonNegative | components/TimerUI.tsx:173-178 | no bucket count is negative |
| Screen.FirstSampleOnlyRemembered | components/TimerUI.tsx:889-895 | the first sample after the memory is cleared raises nothing |
| Screen.UnchangedScreenIsQuiet | components/TimerUI.tsx:890-893 | an unchanged screen raises no surge and no activity |
| Screen.SurgeCountsAsActivity | components/TimerUI.tsx:892-893 | with a change threshold at or above 0.05, every surge also refreshes activity, whether or not the event itself was accepted |
| Screen.ScreenStepBounded | components/TimerUI.tsx:884-897 | a screen sample keeps the scorer bounded and never lowers the score |
| Classifier.ScoreOf | components/TimerUI.tsx:971 | a blendshape's score is that of the first category with its name, or 0 when there is none |
| Classifier.ExpressionVector | components/TimerUI.tsx:142-149 | the expression vector has one entry per target blendshape |
| Classifier.RotationVector | components/TimerUI.tsx:973 | the rotation vector has 9 entries |
| Classifier.PositionVector | components/TimerUI.tsx:974 | the position vector has 3 entries |
| Classifier.LeanDirection | components/TimerUI.tsx:987 | LEAN_IN exactly on a positional spike with the depth grown by more than the lean distance; LEAN_OUT exactly when it shrank by more |
| Classifier.MaxOf | components/TimerUI.tsx:991-992 | the maximum is an element and bounds every element |
| Classifier.MinOf | components/TimerUI.tsx:991-992 | the minimum is an element and is below every element |
| Classifier.Spread | components/TimerUI.tsx:991-992 | the range is non-negative, bounds every pairwise difference, and is the difference of some pair |
| Classifier.Pitches | components/TimerUI.tsx:990 | the pitch series lists the window's pitches in order |
| Classifier.Yaws | components/TimerUI.tsx:990 | the yaw series lists the window's yaws in order |
| Classifier.GestureRule | components/TimerUI.tsx:988-993 | at most one gesture per frame, only on a window of exactly 15 samples; NOD exactly when the pitch range exceeds its minimum, SHAKE exactly when it does not and the yaw range does |
| Classifier.SteadyPitchNoNod | components/TimerUI.tsx:991 | a window whose pitch differences all stay within the nod range never nods |
| Classifier.PushEvictRows | components/TimerUI.tsx:979 | pushing keeps every buffered sample at the vector's dimension and the buffer within capacity |
| Classifier.ClassifyKeepsBuffersValid | components/TimerUI.tsx:977-994 | a frame keeps every buffer within capacity and dimension, each ends with this frame's sample, and at most three events come out |
| Classifier.LeanReference | components/TimerUI.tsx:987 | the lean compares against the oldest position after the push: the frame itself on an empty buffer, the first buffered one below capacity, the second at capacity |
| Classifier.FirstFrameIsQuiet | components/TimerUI.tsx:978-994 | the first face after the buffers were emptied raises no event and no activity refresh |
| Classifier.StillFaceRaisesNoDeviation | components/TimerUI.tsx:978-994 | a face held perfectly still raises no refresh, no EXPRESSION and no lean; only the gesture window can fire |
| Classifier.PresenceHold | components/TimerUI.tsx:966-967 | a frame with a face raises the presence flag, and it drops once a second passes without one |
| Escalation.FireIff | components/TimerUI.tsx:578-602 | an analysis is requested exactly when no gate is up, the score is at the limit, the warmup is over and the cooldown has elapsed |
| Escalation.ScoreReset | components/TimerUI.tsx:578-602 | any gate zeroes the score without an analysis, whatever its value; at the limit every outcome zeroes it; below the limit with no gate it is kept |
| Escalation.OneRequestPerCooldown | components/TimerUI.tsx:601-602 | after a request, none follows before the cooldown has elapsed |
| Escalation.LogContext | components/TimerUI.tsx:604-608 | the log context has one line per log entry |
| Escalation.LogContextTail | components/TimerUI.tsx:604-608 | the context of a log without its oldest entry is the context without its first line |
| Escalation.DurationsSpanTheLog | components/TimerUI.tsx:604-608 | the durations telescope to the time from the first entry to the newest, and only the newest entry is "now" |
| Escalation.GoalText | components/TimerUI.tsx:641 | the goal handed to the analysis is the user's goal, or a non-empty placeholder when none is set |
| Escalation.ApplyVerdictEffect | components/TimerUI.tsx:610-631 | a verdict without a status changes nothing and says nothing; with one, the preset takes its three texts and keeps everything else, and the HUD takes texts, colour and the direct message, which is spoken exactly when present and non-empty |
| Session.Monitor.constructor | components/TimerUI.tsx:361-395 | the mounted component: locked preset, zero score, empty log and buffers, no gate, the default preset table |
| Session.Monitor.TriggerEvent | components/TimerUI.tsx:751-775 | triggerEvent changes the scorer fields exactly as `Scoring.Trigger` does and keeps the score, log and buffers within their bounds |
| Session.Monitor.ScoreEvent | components/TimerUI.tsx:762-765 | the score step adds the weight as `Scoring.AddWeight` does |
| Session.Monitor.AcceptEvent | components/TimerUI.tsx:766-774 | the accepting step repaints, stamps and logs as `Scoring.Accept` does |
| Session.Monitor.DecayTick | components/TimerUI.tsx:745-749 | while sharing, a tick applies `Scoring.Decay`; otherwise the score is unchanged |
| Session.Monitor.IdleTick | components/TimerUI.tsx:919-932 | while sharing, a tick applies `Scoring.IdleCheck` with the current presence |
| Session.Monitor.UserActivity | components/TimerUI.tsx:910-917 | while sharing, activity applies `Scoring.Activity` |
| Session.Monitor.ObservePresence | components/TimerUI.tsx:903-908 | while sharing, the edge is handled as `Scoring.PresenceEdge` does and the presence is remembered; otherwise nothing changes |
| Session.Monitor.ProcessFrame | components/TimerUI.tsx:934-1000 | outside a session a frame changes nothing, so the score stays 0; inside one it updates the presence debounce, and with a face the buffers become `Classifier.Classify`'s and the scorer is refreshed and then runs the classified events in order; without a face every buffer is emptied and the scorer is untouched |
| Session.Monitor.ObserveFrame | components/TimerUI.tsx:964-994 | a frame updates the presence debounce; with a face the buffers become `Classifier.Classify`'s and the scorer is refreshed and then runs the classified events in order; without one every buffer is emptied and the scorer is untouched |
| Session.Monitor.ObserveFace | components/TimerUI.tsx:969-993 | a face's frame leaves the buffers and the scorer as `Classifier.Classify` and `Scoring.TriggerAll` prescribe |
| Session.Monitor.RaiseFrameEvents | components/TimerUI.tsx:985-993 | the expression spike, the lean against the oldest buffered position and the gesture over the pushed angle window are triggered in that order, as `Scoring.TriggerAll` over `Classifier.FrameEvents` |
| Session.Monitor.PushSamples | components/TimerUI.tsx:971-984 | the three deviations are taken against the buffers before the push, and each buffer is pushed with eviction |
| Session.Monitor.PushAngle | components/TimerUI.tsx:988 | the angle is pushed onto the gesture window with eviction beyond its size |
| Session.Monitor.CheckScreen | components/TimerUI.tsx:884-897 | while sharing, a sample applies `Screen.ScreenStep` to the histogram of the canvas bytes and remembers that histogram; otherwise nothing changes |
| Session.Monitor.CheckEscalation | components/TimerUI.tsx:578-602 | the score and analysis time follow `Escalation.Decide`, and a request carrying the log context, goal and current preset is made exactly on Fire with a credential |
| Session.Monitor.ApplyVerdict | components/TimerUI.tsx:610-631 | the preset and the HUD are updated as `Escalation.ApplyToPreset` and `Escalation.ApplyToHud` prescribe, and what is spoken is `Escalation.Spoken` |
| Session.Monitor.StopScreenShare | components/TimerUI.tsx:780-794 | sharing off, histogram memory cleared, preset locked, score 0, goal cleared, microphone off |
| Session.Monitor.ToggleScreenShare | components/TimerUI.tsx:811-827 | a running session or a refused capture ends stopped and cleared, with the goal modal, event and activity times, idle flag and log unchanged; a granted capture starts sharing with the goal modal up, score 0 and the uplink NORMAL event accepted, without a log entry |
| Session.Monitor.StartSharing | components/TimerUI.tsx:818-823 | a granted capture turns sharing on, raises the goal modal and accepts the uplink NORMAL event: preset repainted, event time and activity stamped, score and log untouched |
| Session.Monitor.SubmitGoal | components/TimerUI.tsx:829-841 | the goal is set (or "General Task"), the modal closed, a one-minute warmup started, and a NORMAL event confirming the directive is triggered |
| Digits.NatToString | hooks/useTimer.ts:44 | the decimal text is non-empty, all digits, and one character exactly below 10 |
| Digits.NatToStringRoundTrip | hooks/useTimer.ts:44 | parsing the decimal text of a number gives the number back |
| Digits.PaddedRoundTrip | hooks/useTimer.ts:44 | the zero-padded text of a number parses back to the number |
| Digits.IntToString | hooks/useTimer.ts:44 | `toString()` starts with a minus sign exactly for a negative number, and its digits parse back to the number's magnitude |
| Digits.PadStart2 | hooks/useTimer.ts:44 | padding yields at least two characters, only zeros in front, and ends with the original text |
| FocusTimer.ToggleTwice | hooks/useTimer.ts:9-11 | toggling twice restores the state |
| FocusTimer.SettledToggleTwice | hooks/useTimer.ts:9-32 | with the tick effect after each toggle, toggling twice restores a settled state, and at zero a toggle cannot start the timer |
| FocusTimer.ResetEffect | hooks/useTimer.ts:13-16 | reset keeps the mode, stops the timer, sets 1500 s in focus or 300 s in break, and brings progress back to 0 |
| FocusTimer.SwitchEffect | hooks/useTimer.ts:18-22 | switching sets the mode, stops the timer, sets the mode's full length and brings progress to 0 |
| FocusTimer.TickEffect | hooks/useTimer.ts:24-32 | a tick takes exactly one second off, only while running above zero; the tick that reaches zero stops the timer; the mode never changes |
| FocusTimer.CountsDown | hooks/useTimer.ts:24-32 | a running timer counts down one second per tick, keeps running until zero and stops there |
| FocusTimer.StoppedStaysPut | hooks/useTimer.ts:24-32 | a stopped timer never moves |
| FocusTimer.OperationsStayConsistent | hooks/useTimer.ts:9-32 | every operation keeps the clock within the mode's length and no timer running at zero |
| FocusTimer.InitialConsistency | hooks/useTimer.ts:3-6 | the mount state is consistent exactly when the initial minutes lie between 0 and 25 |
| FocusTimer.JsRem | hooks/useTimer.ts:43 | the seconds field has the dividend's sign, is smaller than 60 in magnitude, and differs from the dividend by a multiple of 60, as JavaScript's `%` does |
| FocusTimer.FormatTimeRoundTrip | hooks/useTimer.ts:41-45 | a count of m minutes and r < 60 seconds is shown as m and r, each zero-padded to two digits, and parsing the text gives the count back |
| FocusTimer.FormatTimeFields | hooks/useTimer.ts:42-44 | the minutes field of m * 60 + r seconds is m and the seconds field is r |
| FocusTimer.FieldsRoundTrip | hooks/useTimer.ts:44 | the padded minutes and seconds joined by a colon parse back to m * 60 + r |
| FocusTimer.ParseJoined | hooks/useTimer.ts:44 | a colon-joined text parses to the minutes field times 60 plus the two-digit seconds field |
| FocusTimer.ProgressBounds | hooks/useTimer.ts:47-49 | progress is 0 exactly on a full clock, 100 at zero, and within [0, 100] in between |
| FocusTimer.InitialProgress | hooks/useTimer.ts:47-49 | at mount the bar is empty exactly for the default 25 minutes |
| FocusTimer.Timer.constructor | hooks/useTimer.ts:3-6 | the mounted hook: `initialMinutes` minutes on the clock, stopped, in focus mode |
| FocusTimer.Timer.ToggleTimer | hooks/useTimer.ts:9-11 | toggleTimer updates the state as `FocusTimer.Toggle` does |
| FocusTimer.Timer.ResetTimer | hooks/useTimer.ts:13-16 | resetTimer updates the state as `FocusTimer.Reset` does |
| FocusTimer.Timer.SwitchMode | hooks/useTimer.ts:18-22 | switchMode updates the state as `FocusTimer.Switch` does |
| FocusTimer.Timer.RunEffect | hooks/useTimer.ts:24-32 | the tick effect stops a timer at zero and otherwise leaves the state alone |
| FocusTimer.Timer.OnSecond | hooks/useTimer.ts:26-28 | one second of the armed interval updates the state as `FocusTimer.Tick` does |

## Left out

- Webcam and screen capture, MediaPipe landmark detection and video element wiring (components/TimerUI.tsx:796-827, 936-999) are device I/O and foreign calls. A frame arrives as a `Classifier.FaceSample`: its blendshape categories, its transformation matrix, and the pitch and yaw already computed. A screen sample arrives as the 64x64 canvas's RGBA bytes.
- `calculateEulerAngles` (`atan2`), the `sqrt` in `euclideanDistance`, and the wave renderer (`lerp`, `sin`) are floating-point numerics. Angles are inputs, distances are compared squared, and the renderer is not modelled.
- The analysis requests, their prompt text and the parsing of their JSON replies are network work. The model decides when a request is made and what it carries (`Escalation.AnalysisRequest`), and takes a parsed `Escalation.Verdict` as input. `Escalation.SecondStage` states when the visual stage would run. The check inside the request that the microphone and speech are still off is not modelled.
- The live audio session, microphone capture, PCM coding and speech playback are audio I/O. The microphone and speaking flags are set by `SetMicOn` and `SetSpeaking`, and `ApplyVerdict` returns the text to be spoken.
- React's effect scheduling, `setInterval` timing and the ref mirrors of state are not modelled. Each interval tick, effect run and handler is a method, called in whatever order the caller chooses. The ref mirrors of the goal modal and microphone are read as the current state. The only visible difference is in `ToggleScreenShare` and `SubmitGoal`, where the modal ref still holds its previous value; this does not matter for NORMAL, which no gate blocks and which weighs 0.
- Log entry ids: the random fraction added to each id and the display timestamp strings are left out. An entry's id is its wall-clock time. The HUD's display timestamp, set when a verdict is applied (components/TimerUI.tsx:626), is left out too: `Escalation.Hud` does not carry it.
- The `toFixed(2)` rounding of log durations is left out; durations are exact reals.
- JavaScript's double-precision arithmetic is modelled as exact: integers are unbounded and fractions are exact reals. This covers the buffer means (components/TimerUI.tsx:979), the histogram normalisation (:171-181), the timer's progress (hooks/useTimer.ts:47-49) and the squared form of `sqrt(d2) > thr`. Rounding could change a comparison that falls exactly on a threshold.
- Session.Monitor.ProcessFrame: the frame loop is modelled as running only while sharing. One exception in the code is not modelled. If sharing stops while the face landmarker is still loading (components/TimerUI.tsx:939-947), the cleanup (:999) has no loop to cancel, so the loop starts afterwards and scores frames outside a session.
- UI-only state is left out: the rates and angles shown on screen, the settings panel, the modals, the skip of frames while settings are open, the check that the video time advanced, App.tsx, PiPContainer.tsx and types.ts.
- Session.Monitor.ProcessFrame: React only re-renders the presence flag when it changes; the model assigns it on every frame, which leaves the same value.
- FocusTimer.FormatTimeRoundTrip: stated for non-negative whole seconds only, each written as m minutes and r < 60 seconds. Negative counts are formatted with JavaScript's rounding and remainder (`FocusTimer.JsRem`) but are not parsed back. A fractional `initialMinutes` giving fractional seconds is not modelled: seconds are integers.
- FocusTimer.ProgressBounds: the bounds need the clock within the mode's length, which holds from mount only for `initialMinutes` between 0 and 25 (`FocusTimer.InitialConsistency`).
