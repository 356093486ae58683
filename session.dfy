/**
 * The monitoring component's mutable state and its handlers
 * (components/TimerUI.tsx): every ref and state variable the core reads or
 * writes is a field, every callback, interval tick and effect is a method.
 * The clocks are parameters: `now` is the wall clock in milliseconds, the
 * frame clock is a separate real-valued parameter.
 */
module Session {

  import opened Wrappers
  import opened Config
  import opened Vectors
  import opened Histogram
  import opened Classifier
  import opened Scoring
  import opened Screen
  import opened Escalation

  class Monitor {
    /** The preset table the component repaints from; fixed at mount. */
    const presets: Presets
    // The scorer's fields.
    var score: int
    var lastEventTime: int
    var lastActiveTime: int
    var idle: bool
    var active: WaveConfig
    var history: seq<LogEntry>
    // Presence.
    var prevPresence: bool
    var personPresent: bool
    var lastFaceDetected: real
    // The frame handler's buffers.
    var expressionHistory: seq<seq<real>>
    var rotationHistory: seq<seq<real>>
    var positionHistory: seq<seq<real>>
    var angleBuffer: seq<Angles>
    // The screen sampler's memory.
    var prevHistogram: Option<seq<real>>
    // Session and escalation state.
    var sharing: bool
    var goalModal: bool
    var micOn: bool
    var speaking: bool
    var userGoal: string
    var warmupEnd: int
    var lastAnalysis: int
    var hud: Hud

    function ScorerView(): Scorer
      reads this`score, this`lastEventTime, this`lastActiveTime, this`idle, this`active, this`history
    {
      Scorer(score, lastEventTime, lastActiveTime, idle, active, history)
    }

    function BuffersView(): Buffers
      reads this`expressionHistory, this`rotationHistory, this`positionHistory, this`angleBuffer
    {
      Buffers(expressionHistory, rotationHistory, positionHistory, angleBuffer)
    }

    function GatesView(): Gates
      reads this`goalModal, this`micOn
    {
      Gates(goalModal, micOn)
    }

    function ConditionsView(): Conditions
      reads this
    {
      Conditions(goalModal, micOn, speaking, warmupEnd)
    }

    /** The component's invariant: the bounds below, and a score of 0 whenever the screen is not shared. */
    predicate Valid()
      reads this`score, this`lastEventTime, this`lastActiveTime, this`idle, this`active, this`history,
        this`expressionHistory, this`rotationHistory, this`positionHistory, this`angleBuffer,
        this`prevHistogram, this`sharing
    {
      WithinBounds() && (!sharing ==> score == 0)
    }

    /** Score in [0, 100], at most 10 log entries, buffers within bounds, a 24-bucket previous histogram. */
    predicate WithinBounds()
      reads this`score, this`lastEventTime, this`lastActiveTime, this`idle, this`active, this`history,
        this`expressionHistory, this`rotationHistory, this`positionHistory, this`angleBuffer,
        this`prevHistogram
    {
      Bounded(ScorerView()) && SamplesValid()
    }

    predicate SamplesValid()
      reads this`expressionHistory, this`rotationHistory, this`positionHistory, this`angleBuffer,
        this`prevHistogram
    {
      && BuffersValid(BuffersView())
      && (prevHistogram.Some? ==> |prevHistogram.value| == HISTOGRAM_SIZE)
    }

    /** The component as mounted at wall-clock time `now`. */
    constructor (now: int)
      ensures Valid() && presets == DEFAULT_CONFIGS
      ensures ScorerView() == Scorer(0, 0, now, false, LOCKED_CONFIG, [])
      ensures BuffersView() == EMPTY_BUFFERS && prevHistogram == None
      ensures !prevPresence && !personPresent && lastFaceDetected == 0.0
      ensures !sharing && !goalModal && !micOn && !speaking
      ensures userGoal == "" && warmupEnd == 0 && lastAnalysis == 0 && hud == INITIAL_HUD
    {
      presets := DEFAULT_CONFIGS;
      score, lastEventTime, lastActiveTime, idle := 0, 0, now, false;
      active, history := LOCKED_CONFIG, [];
      prevPresence, personPresent, lastFaceDetected := false, false, 0.0;
      expressionHistory, rotationHistory, positionHistory, angleBuffer := [], [], [], [];
      prevHistogram := None;
      sharing, goalModal, micOn, speaking := false, false, false, false;
      userGoal, warmupEnd, lastAnalysis := "", 0, 0;
      hud := INITIAL_HUD;
    }

    /** triggerEvent, with the live thresholds and the wall clock. */
    method TriggerEvent(k: EventKind, msg: string, now: int, t: Thresholds)
      requires WithinBounds()
      modifies this`score, this`lastEventTime, this`lastActiveTime, this`idle, this`active, this`history
      ensures WithinBounds()
      ensures ScorerView() == Trigger(presets, old(ScorerView()), k, msg, now, t, GatesView())
    {
      ghost var s0, g := ScorerView(), GatesView();
      TriggerBounded(presets, s0, k, msg, now, t, g);
      var isDebounced := now - lastEventTime < t.idle.eventCooldownMs;
      if (goalModal || micOn) && k != NORMAL {
        return;
      }
      ScoreEvent(k, now, t);
      ghost var scored := AddWeight(s0, k, now, t, g);
      if !IsSystemAlert(k) && isDebounced && k != NORMAL {
        assert Trigger(presets, s0, k, msg, now, t, g) == scored;
        return;
      }
      AcceptEvent(k, msg, now);
      assert Trigger(presets, s0, k, msg, now, t, g) == Accept(presets, scored, k, msg, now);
    }

    /** triggerEvent's score step: the weight added unless debounced or gated. */
    method ScoreEvent(k: EventKind, now: int, t: Thresholds)
      modifies this`score
      ensures ScorerView() == AddWeight(old(ScorerView()), k, now, t, GatesView())
    {
      var isDebounced := now - lastEventTime < t.idle.eventCooldownMs;
      if IsSystemAlert(k) || !isDebounced || k == NORMAL {
        var weight := Weight(t, k);
        if weight > 0 && !goalModal && !micOn {
          score := Min(ANOMALY_LIMIT, score + weight);
        }
      }
    }

    /** triggerEvent past its early returns: repaint, stamp, refresh activity, log. */
    method AcceptEvent(k: EventKind, msg: string, now: int)
      modifies this`lastEventTime, this`lastActiveTime, this`idle, this`active, this`history
      ensures ScorerView() == Accept(presets, old(ScorerView()), k, msg, now)
    {
      var newConfig := PresetWithMessage(presets, k, msg);
      lastEventTime := now;
      if !IsSystemAlert(k) {
        lastActiveTime := now;
        idle := false;
      }
      active := newConfig;
      if k == NORMAL {
        return;
      }
      history := KeepLast(history + [LogEntry(now, newConfig)]);
    }

    /** The decay interval's tick (it runs only while sharing). */
    method DecayTick()
      requires Valid()
      modifies this`score
      ensures Valid()
      ensures score == if sharing then Decay(old(score)) else old(score)
    {
      if sharing {
        score := Max(0, score - DECAY_RATE);
      }
    }

    /** The idle check's tick (it runs only while sharing). */
    method IdleTick(now: int, t: Thresholds)
      requires Valid()
      modifies this`score, this`lastEventTime, this`lastActiveTime, this`idle, this`active, this`history
      ensures Valid()
      ensures ScorerView() == if sharing then IdleCheck(presets, old(ScorerView()), now, t, personPresent, GatesView())
                              else old(ScorerView())
    {
      if !sharing {
        return;
      }
      var isTimeOut := now - lastActiveTime > t.idle.timeoutMs;
      if !idle && isTimeOut {
        idle := true;
        if personPresent {
          TriggerEvent(STAGNATION, "", now, t);
        } else {
          history := KeepLast(history + [LogEntry(now, presets.idle)]);
        }
      }
    }

    /** The mouse and keyboard handler (installed only while sharing). */
    method UserActivity(now: int, t: Thresholds)
      requires Valid()
      modifies this`score, this`lastEventTime, this`lastActiveTime, this`idle, this`active, this`history
      ensures Valid()
      ensures ScorerView() == if sharing then Activity(presets, old(ScorerView()), now, t, GatesView())
                              else old(ScorerView())
    {
      if !sharing {
        return;
      }
      lastActiveTime := now;
      if idle {
        idle := false;
        TriggerEvent(NORMAL, "Input detected. System active.", now, t);
      }
    }

    /** The presence edge effect, run after the presence flag or the sharing flag changed. */
    method ObservePresence(now: int, t: Thresholds)
      requires Valid()
      modifies this`score, this`lastEventTime, this`lastActiveTime, this`idle, this`active, this`history,
        this`prevPresence
      ensures Valid()
      ensures sharing ==>
        && ScorerView() == PresenceEdge(presets, old(ScorerView()), old(prevPresence), personPresent, now, t, GatesView())
        && prevPresence == personPresent
      ensures !sharing ==> ScorerView() == old(ScorerView()) && prevPresence == old(prevPresence)
    {
      if !sharing {
        return;
      }
      if personPresent && !prevPresence {
        TriggerEvent(PRESENCE_FOUND, "", now, t);
      } else if !personPresent && prevPresence {
        TriggerEvent(PRESENCE_LOST, "", now, t);
      }
      prevPresence := personPresent;
    }

    /**
     * One frame of the video loop, which runs only while sharing: a frame
     * outside a session changes nothing, one inside it is observed.
     */
    method ProcessFrame(face: Option<FaceSample>, frameTime: real, now: int, t: Thresholds)
      requires Valid()
      requires face.Some? ==> WellFormed(face.value)
      modifies this`lastFaceDetected, this`personPresent,
        this`expressionHistory, this`rotationHistory, this`positionHistory, this`angleBuffer,
        this`score, this`lastEventTime, this`lastActiveTime, this`idle, this`active, this`history
      ensures Valid()
      ensures !sharing ==>
        && lastFaceDetected == old(lastFaceDetected) && personPresent == old(personPresent)
        && BuffersView() == old(BuffersView()) && ScorerView() == old(ScorerView())
      ensures sharing ==>
        && lastFaceDetected == (if face.Some? then frameTime else old(lastFaceDetected))
        && personPresent == PresentDebounced(lastFaceDetected, frameTime)
      ensures sharing && face.None? ==> BuffersView() == EMPTY_BUFFERS && ScorerView() == old(ScorerView())
      ensures sharing && face.Some? ==>
        var outcome := Classify(old(BuffersView()), face.value, t);
        && BuffersView() == outcome.buffers
        && ScorerView() == TriggerAll(presets, Refreshed(old(ScorerView()), outcome.refresh, now), outcome.events, now, t, GatesView())
    {
      if !sharing {
        return;
      }
      ObserveFrame(face, frameTime, now, t);
    }

    /**
     * One processed video frame, with or without a detected face: the
     * presence debounce on the frame clock, then for a face the deviation
     * buffers, the activity refresh and the classified events in order; no
     * face empties every buffer.
     */
    method ObserveFrame(face: Option<FaceSample>, frameTime: real, now: int, t: Thresholds)
      requires WithinBounds()
      requires face.Some? ==> WellFormed(face.value)
      modifies this`lastFaceDetected, this`personPresent,
        this`expressionHistory, this`rotationHistory, this`positionHistory, this`angleBuffer,
        this`score, this`lastEventTime, this`lastActiveTime, this`idle, this`active, this`history
      ensures WithinBounds()
      ensures lastFaceDetected == if face.Some? then frameTime else old(lastFaceDetected)
      ensures personPresent == PresentDebounced(lastFaceDetected, frameTime)
      ensures face.None? ==> BuffersView() == EMPTY_BUFFERS && ScorerView() == old(ScorerView())
      ensures face.Some? ==>
        var outcome := Classify(old(BuffersView()), face.value, t);
        && BuffersView() == outcome.buffers
        && ScorerView() == TriggerAll(presets, Refreshed(old(ScorerView()), outcome.refresh, now), outcome.events, now, t, GatesView())
    {
      if face.Some? {
        lastFaceDetected := frameTime;
      }
      personPresent := PresentDebounced(lastFaceDetected, frameTime);
      if face.None? {
        expressionHistory, rotationHistory, positionHistory, angleBuffer := [], [], [], [];
        return;
      }
      ObserveFace(face.value, now, t);
    }

    /** A frame with a face: push the samples, refresh activity, then raise the frame's events in order. */
    method ObserveFace(f: FaceSample, now: int, t: Thresholds)
      requires WithinBounds() && WellFormed(f)
      modifies this`expressionHistory, this`rotationHistory, this`positionHistory, this`angleBuffer,
        this`score, this`lastEventTime, this`lastActiveTime, this`idle, this`active, this`history
      ensures WithinBounds()
      ensures var outcome := Classify(old(BuffersView()), f, t);
        && BuffersView() == outcome.buffers
        && ScorerView() == TriggerAll(presets, Refreshed(old(ScorerView()), outcome.refresh, now), outcome.events, now, t, GatesView())
    {
      ghost var before := BuffersView();
      ghost var outcome := Classify(before, f, t);
      ClassifyKeepsBuffersValid(before, f, t);
      var rates, pos := PushSamples(f);
      assert rates == outcome.rates;
      if Refreshes(rates, t) {
        lastActiveTime := now;
      }
      assert ScorerView() == Refreshed(old(ScorerView()), outcome.refresh, now);
      RaiseFrameEvents(rates, pos, f.angles, now, t);
      assert BuffersView() == outcome.buffers;
    }

    /**
     * The frame's classified events, triggered in order: the expression
     * spike, then a lean against the oldest buffered position, then (after
     * the head angles are pushed) a gesture over the angle window.
     */
    method RaiseFrameEvents(rates: Rates, pos: seq<real>, angles: Angles, now: int, t: Thresholds)
      requires WithinBounds() && |pos| == POSITION_DIM
      modifies this`angleBuffer,
        this`score, this`lastEventTime, this`lastActiveTime, this`idle, this`active, this`history
      ensures WithinBounds()
      ensures angleBuffer == PushEvict(old(angleBuffer), angles, GESTURE_BUFFER_SIZE)
      ensures ScorerView() == TriggerAll(presets, old(ScorerView()),
        FrameEvents(rates, pos, if |positionHistory| > 0 then positionHistory[0] else pos, angleBuffer, t), now, t, GatesView())
    {
      ghost var start := ScorerView();
      var spike := if ExpressionSpike(rates, t) then Some(EXPRESSION) else None;
      TriggerIfAny(spike, now, t, start, []);
      var oldest := if |positionHistory| > 0 then positionHistory[0] else pos;
      var lean := LeanEvent(pos, oldest, rates, t);
      TriggerIfAny(lean, now, t, start, Optional(spike));
      PushAngle(angles);
      var gesture := GestureEvent(angleBuffer, t);
      TriggerIfAny(gesture, now, t, start, Optional(spike) + Optional(lean));
      assert Optional(spike) == Spike(rates, t);
    }

    /** The three samples of a frame pushed onto their buffers; returns the deviations against the buffers before the push. */
    method PushSamples(f: FaceSample) returns (rates: Rates, pos: seq<real>)
      requires SamplesValid() && WellFormed(f)
      modifies this`expressionHistory, this`rotationHistory, this`positionHistory
      ensures SamplesValid()
      ensures pos == PositionVector(f.matrix)
      ensures rates == Rates(Deviation(old(expressionHistory), ExpressionVector(f.categories)),
                             Deviation(old(rotationHistory), RotationVector(f.matrix)),
                             Deviation(old(positionHistory), pos))
      ensures expressionHistory == PushEvict(old(expressionHistory), ExpressionVector(f.categories), RATE_BUFFER_CAPACITY)
      ensures rotationHistory == PushEvict(old(rotationHistory), RotationVector(f.matrix), RATE_BUFFER_CAPACITY)
      ensures positionHistory == PushEvict(old(positionHistory), pos, RATE_BUFFER_CAPACITY)
    {
      var e := ExpressionVector(f.categories);
      var rot := RotationVector(f.matrix);
      pos := PositionVector(f.matrix);
      PushEvictRows(expressionHistory, e, RATE_BUFFER_CAPACITY);
      PushEvictRows(rotationHistory, rot, RATE_BUFFER_CAPACITY);
      PushEvictRows(positionHistory, pos, RATE_BUFFER_CAPACITY);
      var eRate, rRate, pRate;
      eRate, expressionHistory := UpdateRate(e, expressionHistory);
      rRate, rotationHistory := UpdateRate(rot, rotationHistory);
      pRate, positionHistory := UpdateRate(pos, positionHistory);
      rates := Rates(eRate, rRate, pRate);
    }

    /** The head angles pushed onto the gesture window, the oldest dropped beyond its size. */
    method PushAngle(a: Angles)
      requires SamplesValid()
      modifies this`angleBuffer
      ensures SamplesValid()
      ensures angleBuffer == PushEvict(old(angleBuffer), a, GESTURE_BUFFER_SIZE)
    {
      angleBuffer := angleBuffer + [a];
      if |angleBuffer| > GESTURE_BUFFER_SIZE {
        angleBuffer := angleBuffer[1..];
      }
    }

    /** Triggers the event a classifier step found, if any, extending the events raised so far. */
    method TriggerIfAny(k: Option<EventKind>, now: int, t: Thresholds, ghost start: Scorer, ghost fired: seq<EventKind>)
      requires WithinBounds() && ScorerView() == TriggerAll(presets, start, fired, now, t, GatesView())
      modifies this`score, this`lastEventTime, this`lastActiveTime, this`idle, this`active, this`history
      ensures WithinBounds()
      ensures ScorerView() == TriggerAll(presets, start, fired + Optional(k), now, t, GatesView())
    {
      if k.Some? {
        TriggerEvent(k.value, "", now, t);
        TriggerAllSnoc(presets, start, fired, k.value, now, t, GatesView());
      } else {
        assert fired + Optional(k) == fired;
      }
    }

    /** The screen sampler's tick (it runs only while sharing) over the 64x64 canvas's RGBA bytes. */
    method CheckScreen(pixels: seq<Byte>, now: int, t: Thresholds)
      requires Valid()
      requires |pixels| == 4 * (CANVAS_SIDE * CANVAS_SIDE)
      modifies this`score, this`lastEventTime, this`lastActiveTime, this`idle, this`active, this`history,
        this`prevHistogram
      ensures Valid()
      ensures var current := Normalize(Counts(pixels, CANVAS_SIDE * CANVAS_SIDE), CANVAS_SIDE * CANVAS_SIDE);
        if old(sharing) then
          && ScorerView() == ScreenStep(presets, old(ScorerView()), old(prevHistogram), current, now, t, GatesView())
          && prevHistogram == Some(current)
        else ScorerView() == old(ScorerView()) && prevHistogram == old(prevHistogram)
    {
      if !sharing {
        return;
      }
      var current := CalculateHistogram(pixels, CANVAS_SIDE, CANVAS_SIDE);
      if prevHistogram.Some? {
        var diff := EuclideanSq(current, prevHistogram.value);
        if Exceeds(diff, t.screen.changeThreshold) {
          TriggerEvent(VISUAL_SURGE, "", now, t);
        }
        if Exceeds(diff, SCREEN_ACTIVITY_FLOOR) {
          lastActiveTime := now;
        }
      }
      prevHistogram := Some(current);
    }

    /**
     * The escalation effect: the gates reset the score, and at the limit an
     * analysis is requested (when a credential is set) once warmup and
     * cooldown allow it, with the analysis time stamped first.
     */
    method CheckEscalation(now: int, t: Thresholds, hasApiKey: bool) returns (request: Option<AnalysisRequest>)
      requires Valid()
      modifies this`score, this`lastAnalysis
      ensures Valid()
      ensures var d := Decide(old(score), old(lastAnalysis), ConditionsView(), now, t);
        && score == ScoreAfter(old(score), d)
        && lastAnalysis == LastAnalysisAfter(old(lastAnalysis), d, now)
        && request == RequestFor(d, hasApiKey, history, userGoal, active)
    {
      request := None;
      if goalModal {
        score := 0;
        return;
      }
      if micOn || speaking {
        score := 0;
        return;
      }
      if score >= ANOMALY_LIMIT {
        if now < warmupEnd {
          score := 0;
          return;
        }
        if now - lastAnalysis < t.ai.analysisCooldownMs {
          score := 0;
          return;
        }
        lastAnalysis := now;
        if hasApiKey {
          request := Some(AnalysisRequest(LogContext(history), GoalText(userGoal), active));
        }
        score := 0;
      }
    }

    /** applyAiUpdates, for either stage's verdict; returns what is to be spoken. */
    method ApplyVerdict(v: Verdict) returns (speak: Option<string>)
      requires Valid()
      modifies this`active, this`hud
      ensures Valid()
      ensures active == ApplyToPreset(old(active), v) && hud == ApplyToHud(old(hud), v)
      ensures speak == Spoken(v)
    {
      speak := None;
      if v.status.None? {
        return;
      }
      var ss := v.status.value;
      active := active.(labelText := ss.labelText, thought := ss.thought, message := ss.message);
      hud := Hud(ss.labelText, ss.thought, ss.message, DirectMessage(v), ss.color);
      if DirectMessage(v).Some? {
        speak := DirectMessage(v);
      }
    }

    /** stopScreenShare: sharing off, preset locked, score and goal cleared, microphone off. */
    method StopScreenShare()
      requires Valid()
      modifies this`sharing, this`prevHistogram, this`active, this`score, this`userGoal, this`micOn
      ensures Valid()
      ensures !sharing && prevHistogram == None && active == presets.locked && score == 0
      ensures userGoal == "" && !micOn
    {
      sharing := false;
      prevHistogram := None;
      active := presets.locked;
      score := 0;
      userGoal := "";
      micOn := false;
    }

    /**
     * toggleScreenShare: a running session stops; otherwise the session is
     * reset and, when the capture is granted, starts with the goal modal up
     * and a NORMAL event announcing the uplink.
     */
    method ToggleScreenShare(granted: bool, now: int, t: Thresholds)
      requires Valid()
      modifies this`sharing, this`prevHistogram, this`userGoal, this`micOn, this`goalModal,
        this`score, this`lastEventTime, this`lastActiveTime, this`idle, this`active, this`history
      ensures Valid()
      ensures old(sharing) || !granted ==>
        && !sharing && prevHistogram == None && active == presets.locked && score == 0 && userGoal == "" && !micOn
        && goalModal == old(goalModal) && lastEventTime == old(lastEventTime) && lastActiveTime == old(lastActiveTime)
        && idle == old(idle) && history == old(history)
      ensures !old(sharing) && granted ==>
        && sharing && goalModal && !micOn && score == 0 && userGoal == "" && prevHistogram == None
        && active == PresetWithMessage(presets, NORMAL, "Visual Uplink Established.")
        && lastEventTime == now && lastActiveTime == now && !idle && history == old(history)
    {
      if sharing {
        StopScreenShare();
        return;
      }
      StopScreenShare();
      if granted {
        StartSharing(now, t);
      } else {
        StopScreenShare();
      }
    }

    /** A granted capture: sharing on, the goal modal up, and the uplink announced by a NORMAL event. */
    method StartSharing(now: int, t: Thresholds)
      requires Valid()
      modifies this`sharing, this`goalModal,
        this`score, this`lastEventTime, this`lastActiveTime, this`idle, this`active, this`history
      ensures Valid() && sharing && goalModal
      ensures ScorerView() == old(ScorerView()).(lastEventTime := now, lastActiveTime := now, idle := false,
                                                 active := PresetWithMessage(presets, NORMAL, "Visual Uplink Established."))
    {
      sharing := true;
      goalModal := true;
      TriggerNormal(presets, ScorerView(), "Visual Uplink Established.", now, t, GatesView());
      TriggerEvent(NORMAL, "Visual Uplink Established.", now, t);
    }

    /**
     * handleGoalSubmit: the goal (or "General Task"), the modal closed, a
     * NORMAL event confirming the directive, and a one-minute warmup.
     */
    method SubmitGoal(tempGoal: string, now: int, t: Thresholds)
      requires Valid()
      modifies this`userGoal, this`goalModal, this`warmupEnd,
        this`score, this`lastEventTime, this`lastActiveTime, this`idle, this`active, this`history
      ensures Valid()
      ensures userGoal == (if tempGoal == "" then "General Task" else tempGoal) && !goalModal
      ensures warmupEnd == now + WARMUP_MS
      ensures ScorerView() == Trigger(presets, old(ScorerView()), NORMAL, "Directive Confirmed: " + userGoal, now, t, GatesView())
    {
      var goal := if tempGoal == "" then "General Task" else tempGoal;
      userGoal := goal;
      goalModal := false;
      TriggerNormal(presets, ScorerView(), "Directive Confirmed: " + goal, now, t, GatesView());
      TriggerEvent(NORMAL, "Directive Confirmed: " + goal, now, t);
      warmupEnd := now + WARMUP_MS;
    }

    /** The microphone flag, as set by the microphone toggle. */
    method SetMicOn(on: bool)
      requires Valid()
      modifies this`micOn
      ensures Valid() && micOn == on
    {
      micOn := on;
    }

    /** The speaking flag, as raised and lowered by speech playback. */
    method SetSpeaking(on: bool)
      requires Valid()
      modifies this`speaking
      ensures Valid() && speaking == on
    {
      speaking := on;
    }
  }
}
