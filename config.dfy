/**
 * Event kinds, the visual preset each kind selects, and the threshold
 * configuration that every tick reads afresh (components/TimerUI.tsx:38-140).
 */
module Config {

  /** The closed set of classified events. */
  datatype EventKind =
    | NORMAL | NOD | SHAKE | LEAN_IN | LEAN_OUT | EXPRESSION
    | VISUAL_SURGE | STAGNATION | PRESENCE_FOUND | PRESENCE_LOST

  /** The presentation bundle an event selects (WaveConfig). */
  datatype WaveConfig = WaveConfig(
    speed: real, frequency: real, amplitude: real,
    colorPrimary: string, colorSecondary: string, jitter: real,
    labelText: string, thought: string, message: string)

  const ANOMALY_LIMIT: int := 100
  const DECAY_RATE: int := 5
  /** Capacity of the event log. */
  const LOG_CAPACITY: nat := 10
  /** Capacity of the expression, rotation and position deviation buffers. */
  const RATE_BUFFER_CAPACITY: nat := 20
  /** GESTURE.BUFFER_SIZE: the settings surface has no control for it, so it stays 15. */
  const GESTURE_BUFFER_SIZE: nat := 15
  /** A screen change above this (fixed) distance counts as user activity. */
  const SCREEN_ACTIVITY_FLOOR: real := 0.05
  /** Positional deviation must stay below this (fixed) bound for EXPRESSION. */
  const EXPRESSION_STILLNESS_BOUND: real := 0.1
  /** The presence flag stays raised this long (ms) after the last detected face. */
  const PRESENCE_HOLD_MS: real := 1000.0
  /** Grace period after a goal is confirmed during which no analysis runs. */
  const WARMUP_MS: int := 60000

  datatype Scoring = Scoring(
    stagnation: int, presenceLost: int, nod: int, shake: int, visualSurge: int,
    expression: int, leanIn: int, leanOut: int, presenceFound: int)
  datatype ExpressionThresholds = ExpressionThresholds(spike: real, reset: real)
  datatype MovementThresholds = MovementThresholds(spike: real, leanZDistance: real, reset: real)
  datatype RotationThresholds = RotationThresholds(reset: real)
  datatype GestureThresholds = GestureThresholds(pitchRangeMin: real, yawRangeMin: real)
  datatype ScreenThresholds = ScreenThresholds(sampleIntervalMs: int, changeThreshold: real)
  datatype IdleThresholds = IdleThresholds(timeoutMs: int, eventCooldownMs: int)
  datatype AiThresholds = AiThresholds(analysisCooldownMs: int)

  /**
   * The live threshold configuration. The weight of NORMAL and the gesture
   * window size have no control on the settings surface and are constants.
   */
  datatype Thresholds = Thresholds(
    scoring: Scoring,
    expression: ExpressionThresholds,
    movement: MovementThresholds,
    rotation: RotationThresholds,
    gesture: GestureThresholds,
    screen: ScreenThresholds,
    idle: IdleThresholds,
    ai: AiThresholds)

  const DEFAULT_THRESHOLDS: Thresholds := Thresholds(
    Scoring(100, 35, 50, 50, 35, 35, 35, 35, 35),
    ExpressionThresholds(0.2, 0.1),
    MovementThresholds(0.15, 0.4, 0.05),
    RotationThresholds(0.1),
    GestureThresholds(12.0, 15.0),
    ScreenThresholds(1000, 0.15),
    IdleThresholds(30000, 1500),
    AiThresholds(60000))

  /**
   * The distance thresholds are non-negative, as every slider of the
   * settings surface and every default is.
   */
  predicate NonNegativeDistances(t: Thresholds) {
    && t.expression.spike >= 0.0 && t.expression.reset >= 0.0
    && t.movement.spike >= 0.0 && t.movement.leanZDistance >= 0.0 && t.movement.reset >= 0.0
    && t.rotation.reset >= 0.0
    && t.gesture.pitchRangeMin >= 0.0 && t.gesture.yawRangeMin >= 0.0
    && t.screen.changeThreshold >= 0.0
  }

  /** The configured score weight of an event kind; NORMAL weighs 0. */
  function Weight(t: Thresholds, k: EventKind): int {
    match k
    case NORMAL => 0
    case NOD => t.scoring.nod
    case SHAKE => t.scoring.shake
    case LEAN_IN => t.scoring.leanIn
    case LEAN_OUT => t.scoring.leanOut
    case EXPRESSION => t.scoring.expression
    case VISUAL_SURGE => t.scoring.visualSurge
    case STAGNATION => t.scoring.stagnation
    case PRESENCE_FOUND => t.scoring.presenceFound
    case PRESENCE_LOST => t.scoring.presenceLost
  }

  /** Presence alerts bypass the event cooldown and leave the idle baseline alone. */
  predicate IsSystemAlert(k: EventKind) {
    k == PRESENCE_FOUND || k == PRESENCE_LOST
  }

  const IDLE_CONFIG: WaveConfig := WaveConfig(
    0.01, 0.005, 10.0, "#94a3b8", "rgba(148, 163, 184, 0.2)", 0.0,
    "SYS.IDLE", "No input detected for 30s.", "Entering power save mode.")

  const LOCKED_CONFIG: WaveConfig := WaveConfig(
    0.005, 0.002, 5.0, "#475569", "rgba(71, 85, 105, 0.1)", 0.0,
    "SYS.LOCKED", "Waiting for visual uplink...", "System Standby.")

  /**
   * The preset table: one entry per event kind, then the idle entry the idle
   * monitor logs and the locked preset shown while not sharing.
   */
  datatype Presets = Presets(
    normal: WaveConfig, nod: WaveConfig, shake: WaveConfig, leanIn: WaveConfig, leanOut: WaveConfig,
    expression: WaveConfig, visualSurge: WaveConfig, stagnation: WaveConfig,
    presenceFound: WaveConfig, presenceLost: WaveConfig, idle: WaveConfig, locked: WaveConfig)

  /** DEFAULT_CONFIGS, one entry per event kind, followed by IDLE_CONFIG and LOCKED_CONFIG. */
  const DEFAULT_CONFIGS: Presets := Presets(
    // NORMAL
    WaveConfig(
      0.05, 0.01, 20.0, "#22d3ee", "rgba(34, 211, 238, 0.2)", 0.0,
      "SYS.MONITOR", "Scanning biometric telemetry.", "Monitoring subject..."),
    // NOD
    WaveConfig(
      0.1, 0.02, 45.0, "#4ade80", "rgba(74, 222, 128, 0.3)", 0.02,
      "DET.GESTURE", "Vertical oscillation identified.", "Affirmative Action."),
    // SHAKE
    WaveConfig(
      0.15, 0.08, 40.0, "#f87171", "rgba(248, 113, 113, 0.3)", 0.25,
      "DET.GESTURE", "Horizontal instability detected.", "Negative Response."),
    // LEAN_IN
    WaveConfig(
      0.08, 0.015, 50.0, "#facc15", "rgba(250, 204, 21, 0.3)", 0.01,
      "DET.PROXIMITY", "Z-axis translation spike (+).", "Movement: Leaning Forward."),
    // LEAN_OUT
    WaveConfig(
      0.08, 0.015, 50.0, "#fb923c", "rgba(251, 146, 60, 0.3)", 0.01,
      "DET.PROXIMITY", "Z-axis translation spike (-).", "Movement: Leaning Back."),
    // EXPRESSION
    WaveConfig(
      0.12, 0.06, 45.0, "#d946ef", "rgba(217, 70, 239, 0.3)", 0.15,
      "BIO.EMOTION", "Blendshape variance exceeded threshold.", "Micro-expression detected."),
    // VISUAL_SURGE
    WaveConfig(
      0.18, 0.1, 35.0, "#3b82f6", "rgba(59, 130, 246, 0.3)", 0.1,
      "SYS.VISUAL", "Optical flow variance spike.", "Significant screen activity."),
    // STAGNATION
    WaveConfig(
      0.02, 0.15, 10.0, "#f43f5e", "rgba(244, 63, 94, 0.2)", 0.4,
      "BIO.STAGNANT", "Subject immobile for extended period.", "Vitality Check Required."),
    // PRESENCE_FOUND
    WaveConfig(
      0.1, 0.02, 60.0, "#34d399", "rgba(52, 211, 153, 0.2)", 0.0,
      "SYS.ALERT", "Biometric signature acquired.", "Subject DETECTED."),
    // PRESENCE_LOST
    WaveConfig(
      0.01, 0.005, 2.0, "#ef4444", "rgba(239, 68, 68, 0.2)", 0.05,
      "SYS.WARN", "Signal interrupted.", "Subject MISSING."),
    IDLE_CONFIG,
    LOCKED_CONFIG)

  /** The preset of an event kind in a table. */
  function Preset(p: Presets, k: EventKind): WaveConfig {
    match k
    case NORMAL => p.normal
    case NOD => p.nod
    case SHAKE => p.shake
    case LEAN_IN => p.leanIn
    case LEAN_OUT => p.leanOut
    case EXPRESSION => p.expression
    case VISUAL_SURGE => p.visualSurge
    case STAGNATION => p.stagnation
    case PRESENCE_FOUND => p.presenceFound
    case PRESENCE_LOST => p.presenceLost
  }

  /**
   * The preset an event repaints with: the kind's preset, its message
   * replaced by a non-empty caller message.
   */
  function PresetWithMessage(p: Presets, k: EventKind, customMessage: string): (c: WaveConfig)
    ensures c.(message := Preset(p, k).message) == Preset(p, k)
    ensures c.message == if customMessage == "" then Preset(p, k).message else customMessage
  {
    if customMessage == "" then Preset(p, k) else Preset(p, k).(message := customMessage)
  }
}
