/**
 * The scorer: triggerEvent's gate and debounce, the bounded event log, the
 * decay timer, the idle monitor, the activity handler and the presence edge
 * detector (components/TimerUI.tsx:745-775, 903-932), as functions over the
 * fields they update.
 */
module Scoring {

  import opened Config

  /** One event-log entry: its timestamp id and the preset it selected. */
  datatype LogEntry = LogEntry(id: int, config: WaveConfig)

  /**
   * The fields triggerEvent and the idle monitor update: the anomaly score,
   * the last accepted event and activity times, the idle flag, the active
   * preset and the event log.
   */
  datatype Scorer = Scorer(
    score: int, lastEventTime: int, lastActiveTime: int, idle: bool,
    active: WaveConfig, history: seq<LogEntry>)

  /** What triggerEvent reads besides the scorer: goal modal open, microphone on. */
  datatype Gates = Gates(goalModal: bool, micOn: bool)

  predicate Blocked(g: Gates) {
    g.goalModal || g.micOn
  }

  /** The invariant every step keeps: score within [0, 100], at most 10 log entries. */
  predicate Bounded(s: Scorer) {
    0 <= s.score <= ANOMALY_LIMIT && |s.history| <= LOG_CAPACITY
  }

  function Min(a: int, b: int): int { if a <= b then a else b }
  function Max(a: int, b: int): int { if a >= b then a else b }

  /** `.slice(-10)`: the newest ten entries, in order. */
  function KeepLast(h: seq<LogEntry>): (r: seq<LogEntry>)
    ensures |r| == if |h| > LOG_CAPACITY then LOG_CAPACITY else |h|
    ensures r == h[|h| - |r|..]
  {
    if |h| > LOG_CAPACITY then h[|h| - LOG_CAPACITY..] else h
  }

  /** Appending an entry to the log: the entry is newest, older ones keep their order. */
  function Append(h: seq<LogEntry>, e: LogEntry): seq<LogEntry> {
    KeepLast(h + [e])
  }

  lemma AppendKeepsNewest(h: seq<LogEntry>, e: LogEntry)
    requires |h| <= LOG_CAPACITY
    ensures |Append(h, e)| == if |h| < LOG_CAPACITY then |h| + 1 else LOG_CAPACITY
    ensures Append(h, e)[|Append(h, e)| - 1] == e
    ensures Append(h, e)[..|Append(h, e)| - 1] == h[|h| + 1 - |Append(h, e)|..]
  {
    var r := Append(h, e);
    assert r == (h + [e])[|h| + 1 - |r|..];
    assert r[..|r| - 1] == (h + [e])[|h| + 1 - |r|..|h|];
  }

  /** Two appends through the window equal one window over both entries. */
  lemma {:induction false} AppendTwice(h: seq<LogEntry>, e1: LogEntry, e2: LogEntry)
    ensures Append(Append(h, e1), e2) == KeepLast(h + [e1, e2])
  {
    var h1 := h + [e1];
    var k1 := KeepLast(h1);
    assert k1 + [e2] == (h1 + [e2])[|h1| - |k1|..];
    assert h1 + [e2] == h + [e1, e2];
  }

  /** The moment lies within the cooldown of the last accepted event. */
  predicate Debounced(s: Scorer, now: int, t: Thresholds) {
    now - s.lastEventTime < t.idle.eventCooldownMs
  }

  /** Whether triggerEvent gets past its early returns and repaints the preset. */
  predicate Accepted(s: Scorer, k: EventKind, now: int, t: Thresholds, g: Gates) {
    && (!Blocked(g) || k == NORMAL)
    && (IsSystemAlert(k) || k == NORMAL || !Debounced(s, now, t))
  }

  /**
   * triggerEvent: a blocked non-NORMAL event returns at once; otherwise an
   * event that is an alert, NORMAL or outside the cooldown adds its weight
   * (clamped to the limit) unless a gate is up; a debounced ordinary event
   * stops there; the rest repaint the preset, stamp the event time, refresh
   * activity (non-alerts only) and are logged (non-NORMAL only).
   */
  function Trigger(p: Presets, s: Scorer, k: EventKind, msg: string, now: int, t: Thresholds, g: Gates): Scorer {
    if Blocked(g) && k != NORMAL then s
    else
      var scored := AddWeight(s, k, now, t, g);
      if !IsSystemAlert(k) && Debounced(s, now, t) && k != NORMAL then scored
      else Accept(p, scored, k, msg, now)
  }

  /** The score step: the weight is added, clamped, unless debounced or gated. */
  function AddWeight(s: Scorer, k: EventKind, now: int, t: Thresholds, g: Gates): Scorer {
    if (IsSystemAlert(k) || !Debounced(s, now, t) || k == NORMAL) && Weight(t, k) > 0 && !Blocked(g)
    then s.(score := Min(ANOMALY_LIMIT, s.score + Weight(t, k)))
    else s
  }

  /** The accepting step: repaint, stamp, refresh activity for non-alerts, log non-NORMAL kinds. */
  function Accept(p: Presets, s: Scorer, k: EventKind, msg: string, now: int): Scorer {
    var c := PresetWithMessage(p, k, msg);
    var stamped := s.(lastEventTime := now, active := c);
    var refreshed := if IsSystemAlert(k) then stamped else stamped.(lastActiveTime := now, idle := false);
    if k == NORMAL then refreshed
    else refreshed.(history := Append(refreshed.history, LogEntry(now, c)))
  }

  /** While the goal modal or the microphone is up, a non-NORMAL event changes nothing. */
  lemma TriggerBlockedIsNoOp(p: Presets, s: Scorer, k: EventKind, msg: string, now: int, t: Thresholds, g: Gates)
    requires Blocked(g) && k != NORMAL
    ensures Trigger(p, s, k, msg, now, t, g) == s
  {
  }

  /** An ordinary event inside the cooldown changes nothing: no score, no preset, no log entry. */
  lemma TriggerDebouncedIsNoOp(p: Presets, s: Scorer, k: EventKind, msg: string, now: int, t: Thresholds, g: Gates)
    requires !IsSystemAlert(k) && k != NORMAL && Debounced(s, now, t)
    ensures Trigger(p, s, k, msg, now, t, g) == s
  {
  }

  /**
   * An accepted event: the preset is repainted and the event time stamped;
   * a non-alert refreshes activity and clears the idle flag, an alert leaves
   * both; every kind but NORMAL is logged at the tail.
   */
  lemma TriggerAcceptedEffect(p: Presets, s: Scorer, k: EventKind, msg: string, now: int, t: Thresholds, g: Gates)
    requires Accepted(s, k, now, t, g)
    ensures Trigger(p, s, k, msg, now, t, g).lastEventTime == now
    ensures Trigger(p, s, k, msg, now, t, g).active == PresetWithMessage(p, k, msg)
    ensures !IsSystemAlert(k) ==>
      Trigger(p, s, k, msg, now, t, g).lastActiveTime == now && !Trigger(p, s, k, msg, now, t, g).idle
    ensures IsSystemAlert(k) ==>
      Trigger(p, s, k, msg, now, t, g).lastActiveTime == s.lastActiveTime
      && Trigger(p, s, k, msg, now, t, g).idle == s.idle
    ensures Trigger(p, s, k, msg, now, t, g).history ==
      if k == NORMAL then s.history else Append(s.history, LogEntry(now, PresetWithMessage(p, k, msg)))
  {
  }

  /** An event that is not accepted leaves the scorer exactly as it was. */
  lemma TriggerRejectedIsNoOp(p: Presets, s: Scorer, k: EventKind, msg: string, now: int, t: Thresholds, g: Gates)
    requires !Accepted(s, k, now, t, g)
    ensures Trigger(p, s, k, msg, now, t, g) == s
  {
  }

  /**
   * The score moves only for an accepted event with positive weight while
   * no gate is up, and then to the sum clamped at the limit; it never
   * decreases and stays within [0, 100].
   */
  lemma TriggerScore(p: Presets, s: Scorer, k: EventKind, msg: string, now: int, t: Thresholds, g: Gates)
    requires 0 <= s.score <= ANOMALY_LIMIT
    ensures var r := Trigger(p, s, k, msg, now, t, g);
      && s.score <= r.score <= ANOMALY_LIMIT
      && r.score == (if Accepted(s, k, now, t, g) && !Blocked(g) && Weight(t, k) > 0
                     then Min(ANOMALY_LIMIT, s.score + Weight(t, k)) else s.score)
  {
    if Accepted(s, k, now, t, g) {
      TriggerAcceptedScore(p, s, k, msg, now, t, g);
    } else {
      TriggerRejectedIsNoOp(p, s, k, msg, now, t, g);
    }
  }

  lemma TriggerAcceptedScore(p: Presets, s: Scorer, k: EventKind, msg: string, now: int, t: Thresholds, g: Gates)
    requires Accepted(s, k, now, t, g)
    ensures Trigger(p, s, k, msg, now, t, g).score
         == if !Blocked(g) && Weight(t, k) > 0 then Min(ANOMALY_LIMIT, s.score + Weight(t, k)) else s.score
  {
  }

  /**
   * NORMAL is never gated, debounced, scored or logged: it only repaints the
   * preset, stamps the event time and refreshes activity.
   */
  lemma TriggerNormal(p: Presets, s: Scorer, msg: string, now: int, t: Thresholds, g: Gates)
    ensures Trigger(p, s, NORMAL, msg, now, t, g)
         == s.(lastEventTime := now, active := PresetWithMessage(p, NORMAL, msg), lastActiveTime := now, idle := false)
  {
  }

  lemma TriggerBounded(p: Presets, s: Scorer, k: EventKind, msg: string, now: int, t: Thresholds, g: Gates)
    requires Bounded(s)
    ensures Bounded(Trigger(p, s, k, msg, now, t, g))
  {
    TriggerScore(p, s, k, msg, now, t, g);
  }

  /**
   * A burst: once an ordinary event is accepted at `now`, any ordinary event
   * less than the cooldown later changes nothing.
   */
  lemma BurstWithinCooldown(p: Presets, s: Scorer, k1: EventKind, k2: EventKind, msg1: string, msg2: string,
                            now: int, later: int, t: Thresholds, g: Gates)
    requires !IsSystemAlert(k1) && !IsSystemAlert(k2) && k2 != NORMAL
    requires Accepted(s, k1, now, t, g)
    requires now <= later < now + t.idle.eventCooldownMs
    ensures var s1 := Trigger(p, s, k1, msg1, now, t, g);
      Trigger(p, s1, k2, msg2, later, t, g) == s1
  {
    TriggerAcceptedEffect(p, s, k1, msg1, now, t, g);
  }

  /** A list of events triggered one after another at the same moment. */
  function TriggerAll(p: Presets, s: Scorer, events: seq<EventKind>, now: int, t: Thresholds, g: Gates): Scorer
    decreases |events|
  {
    if |events| == 0 then s
    else TriggerAll(p, Trigger(p, s, events[0], "", now, t, g), events[1..], now, t, g)
  }

  lemma {:induction false} TriggerAllBounded(p: Presets, s: Scorer, events: seq<EventKind>, now: int, t: Thresholds, g: Gates)
    requires Bounded(s)
    ensures Bounded(TriggerAll(p, s, events, now, t, g))
    decreases |events|
  {
    if |events| > 0 {
      TriggerBounded(p, s, events[0], "", now, t, g);
      TriggerAllBounded(p, Trigger(p, s, events[0], "", now, t, g), events[1..], now, t, g);
    }
  }

  /** Triggering one more event extends the list at its end. */
  lemma {:induction false} TriggerAllSnoc(p: Presets, s: Scorer, events: seq<EventKind>, k: EventKind, now: int, t: Thresholds, g: Gates)
    ensures TriggerAll(p, s, events + [k], now, t, g) == Trigger(p, TriggerAll(p, s, events, now, t, g), k, "", now, t, g)
    decreases |events|
  {
    if |events| > 0 {
      assert (events + [k])[1..] == events[1..] + [k];
      TriggerAllSnoc(p, Trigger(p, s, events[0], "", now, t, g), events[1..], k, now, t, g);
    }
  }

  /** A frame or screen sample that counts as activity refreshes the activity time. */
  function Refreshed(s: Scorer, refresh: bool, now: int): Scorer {
    if refresh then s.(lastActiveTime := now) else s
  }

  /**
   * Several ordinary events at one moment: with a positive cooldown only the
   * first can be accepted, because it stamps the event time.
   */
  lemma {:induction false} SameMomentOnlyFirstCounts(p: Presets, s: Scorer, events: seq<EventKind>, now: int, t: Thresholds, g: Gates)
    requires |events| > 0 && t.idle.eventCooldownMs > 0
    requires forall j :: 0 <= j < |events| ==> !IsSystemAlert(events[j]) && events[j] != NORMAL
    ensures TriggerAll(p, s, events, now, t, g) == Trigger(p, s, events[0], "", now, t, g)
  {
    var s1 := Trigger(p, s, events[0], "", now, t, g);
    if Accepted(s, events[0], now, t, g) {
      TriggerAcceptedEffect(p, s, events[0], "", now, t, g);
    } else {
      TriggerRejectedIsNoOp(p, s, events[0], "", now, t, g);
    }
    assert s1.lastEventTime == now || s1 == s;
    if s1 == s {
      assert Blocked(g) || Debounced(s, now, t);
    }
    DebouncedRest(p, s1, events[1..], now, t, g);
  }

  lemma {:induction false} DebouncedRest(p: Presets, s: Scorer, events: seq<EventKind>, now: int, t: Thresholds, g: Gates)
    requires Blocked(g) || Debounced(s, now, t)
    requires forall j :: 0 <= j < |events| ==> !IsSystemAlert(events[j]) && events[j] != NORMAL
    ensures TriggerAll(p, s, events, now, t, g) == s
    decreases |events|
  {
    if |events| > 0 {
      TriggerRejectedIsNoOp(p, s, events[0], "", now, t, g);
      DebouncedRest(p, s, events[1..], now, t, g);
    }
  }

  /** The decay timer's tick: five points off, never below zero. */
  function Decay(score: int): (r: int)
    ensures 0 <= r
    ensures score >= 0 ==> r <= score
    ensures r == 0 <==> score <= DECAY_RATE
    ensures score > DECAY_RATE ==> score - r == DECAY_RATE
  {
    Max(0, score - DECAY_RATE)
  }

  /**
   * The idle check's tick: when not already idle and inactive for longer
   * than the timeout, raise the idle flag and either trigger STAGNATION
   * (face present) or log an unscored IDLE entry (no face).
   */
  function IdleCheck(p: Presets, s: Scorer, now: int, t: Thresholds, present: bool, g: Gates): Scorer {
    if !s.idle && now - s.lastActiveTime > t.idle.timeoutMs then
      var raised := s.(idle := true);
      if present then Trigger(p, raised, STAGNATION, "", now, t, g)
      else raised.(history := Append(raised.history, LogEntry(now, p.idle)))
    else s
  }

  predicate TimedOut(s: Scorer, now: int, t: Thresholds) {
    now - s.lastActiveTime > t.idle.timeoutMs
  }

  /** The idle check does nothing unless the user is not yet idle and has timed out. */
  lemma IdleCheckQuietUnlessTimedOut(p: Presets, s: Scorer, now: int, t: Thresholds, present: bool, g: Gates)
    requires s.idle || !TimedOut(s, now, t)
    ensures IdleCheck(p, s, now, t, present, g) == s
  {
  }

  /**
   * Without a face the idle check fires once per episode: it logs one IDLE
   * entry, leaves the score alone, and every later check is a no-op until
   * activity clears the flag.
   */
  lemma IdleFiresOnceWithoutFace(p: Presets, s: Scorer, now: int, later: int, t: Thresholds, g: Gates, present2: bool)
    requires !s.idle && TimedOut(s, now, t)
    ensures var s1 := IdleCheck(p, s, now, t, false, g);
      && s1.idle && s1.score == s.score
      && s1.history == Append(s.history, LogEntry(now, p.idle))
      && IdleCheck(p, s1, later, t, present2, g) == s1
  {
  }

  /**
   * With a face present and STAGNATION accepted, the event clears the idle
   * flag it has just raised and refreshes activity, so the idle check fires
   * again one timeout later (it raises the flag, or its STAGNATION refreshes
   * activity once more): it is not once per episode.
   */
  lemma StagnationRearmsIdleCheck(p: Presets, s: Scorer, now: int, t: Thresholds, g: Gates)
    requires !s.idle && TimedOut(s, now, t) && t.idle.timeoutMs >= 0
    requires Accepted(s.(idle := true), STAGNATION, now, t, g)
    ensures var s1 := IdleCheck(p, s, now, t, true, g);
      && !s1.idle && s1.lastActiveTime == now
      && var later := now + t.idle.timeoutMs + 1;
         var s2 := IdleCheck(p, s1, later, t, true, g);
         s2.idle || s2.lastActiveTime == later
  {
    TriggerAcceptedEffect(p, s.(idle := true), STAGNATION, "", now, t, g);
    var s1 := IdleCheck(p, s, now, t, true, g);
    var later := now + t.idle.timeoutMs + 1;
    var raised := s1.(idle := true);
    if Accepted(raised, STAGNATION, later, t, g) {
      TriggerAcceptedEffect(p, raised, STAGNATION, "", later, t, g);
    } else {
      TriggerRejectedIsNoOp(p, raised, STAGNATION, "", later, t, g);
    }
  }

  lemma IdleCheckBounded(p: Presets, s: Scorer, now: int, t: Thresholds, present: bool, g: Gates)
    requires Bounded(s)
    ensures Bounded(IdleCheck(p, s, now, t, present, g))
  {
    if !s.idle && TimedOut(s, now, t) && present {
      TriggerBounded(p, s.(idle := true), STAGNATION, "", now, t, g);
    }
  }

  /**
   * The mouse/keyboard handler: activity is refreshed; if the user was idle
   * the flag is cleared and exactly one NORMAL event is emitted.
   */
  function Activity(p: Presets, s: Scorer, now: int, t: Thresholds, g: Gates): Scorer {
    var touched := s.(lastActiveTime := now);
    if s.idle then Trigger(p, touched.(idle := false), NORMAL, "Input detected. System active.", now, t, g)
    else touched
  }

  lemma ActivityClearsIdle(p: Presets, s: Scorer, now: int, t: Thresholds, g: Gates)
    ensures var r := Activity(p, s, now, t, g);
      && !r.idle && r.lastActiveTime == now
      && r.score == s.score && r.history == s.history
      && (s.idle ==> r.active == PresetWithMessage(p, NORMAL, "Input detected. System active.") && r.lastEventTime == now)
      && (!s.idle ==> r == s.(lastActiveTime := now))
  {
  }

  /** The presence edge detector: a rising edge is PRESENCE_FOUND, a falling edge PRESENCE_LOST. */
  function PresenceEdge(p: Presets, s: Scorer, previous: bool, present: bool, now: int, t: Thresholds, g: Gates): Scorer {
    if present && !previous then Trigger(p, s, PRESENCE_FOUND, "", now, t, g)
    else if !present && previous then Trigger(p, s, PRESENCE_LOST, "", now, t, g)
    else s
  }

  /**
   * No edge, no event; an edge is a presence alert, which bypasses the
   * cooldown and never touches the activity time or the idle flag.
   */
  lemma PresenceEdgeEffect(p: Presets, s: Scorer, previous: bool, present: bool, now: int, t: Thresholds, g: Gates)
    ensures previous == present ==> PresenceEdge(p, s, previous, present, now, t, g) == s
    ensures var r := PresenceEdge(p, s, previous, present, now, t, g);
      && r.lastActiveTime == s.lastActiveTime && r.idle == s.idle
    ensures previous != present && !Blocked(g) ==>
      PresenceEdge(p, s, previous, present, now, t, g).active
        == Preset(p, if present then PRESENCE_FOUND else PRESENCE_LOST)
  {
  }
}
