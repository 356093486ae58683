/**
 * Escalation (components/TimerUI.tsx:578-631, 641, 719): the gates that reset
 * the score, the decision to ask for an analysis, the event-log context
 * handed to it, and how a verdict is applied to the preset and the HUD.
 */
module Escalation {

  import opened Wrappers
  import opened Config
  import opened Scoring

  /** What the escalation effect reads besides the score and the last analysis time. */
  datatype Conditions = Conditions(goalModal: bool, micOn: bool, speaking: bool, warmupEnd: int)

  /** The escalation effect's outcome, one per early return. */
  datatype Decision = Suppressed | BelowLimit | WarmingUp | CoolingDown | Fire

  predicate Gated(c: Conditions) {
    c.goalModal || c.micOn || c.speaking
  }

  function Decide(score: int, lastAnalysis: int, c: Conditions, now: int, t: Thresholds): Decision {
    if c.goalModal then Suppressed
    else if c.micOn || c.speaking then Suppressed
    else if score < ANOMALY_LIMIT then BelowLimit
    else if now < c.warmupEnd then WarmingUp
    else if now - lastAnalysis < t.ai.analysisCooldownMs then CoolingDown
    else Fire
  }

  /** Every outcome but BelowLimit resets the score to 0. */
  function ScoreAfter(score: int, d: Decision): int {
    if d == BelowLimit then score else 0
  }

  /** The analysis time is stamped before the request is made. */
  function LastAnalysisAfter(lastAnalysis: int, d: Decision, now: int): int {
    if d == Fire then now else lastAnalysis
  }

  /**
   * An analysis is requested exactly when no gate is up, the score has
   * reached the limit, the warmup is over and the cooldown has elapsed.
   */
  lemma FireIff(score: int, lastAnalysis: int, c: Conditions, now: int, t: Thresholds)
    ensures Decide(score, lastAnalysis, c, now, t) == Fire
      <==> !Gated(c) && score >= ANOMALY_LIMIT && now >= c.warmupEnd
           && now - lastAnalysis >= t.ai.analysisCooldownMs
  {
  }

  /**
   * Any gate zeroes the score whatever its value, without an analysis; at
   * the limit, every outcome zeroes it; below the limit with no gate the
   * score is kept.
   */
  lemma ScoreReset(score: int, lastAnalysis: int, c: Conditions, now: int, t: Thresholds)
    ensures Gated(c) ==>
      && ScoreAfter(score, Decide(score, lastAnalysis, c, now, t)) == 0
      && LastAnalysisAfter(lastAnalysis, Decide(score, lastAnalysis, c, now, t), now) == lastAnalysis
    ensures score >= ANOMALY_LIMIT ==> ScoreAfter(score, Decide(score, lastAnalysis, c, now, t)) == 0
    ensures !Gated(c) && score < ANOMALY_LIMIT ==> ScoreAfter(score, Decide(score, lastAnalysis, c, now, t)) == score
  {
  }

  /** After a request at `now`, none follows before the cooldown has elapsed. */
  lemma OneRequestPerCooldown(score: int, lastAnalysis: int, c: Conditions, now: int,
                              score2: int, c2: Conditions, later: int, t: Thresholds)
    requires Decide(score, lastAnalysis, c, now, t) == Fire
    requires later < now + t.ai.analysisCooldownMs
    ensures Decide(score2, LastAnalysisAfter(lastAnalysis, Decide(score, lastAnalysis, c, now, t), now), c2, later, t) != Fire
  {
  }

  /** One line of the log context: the time until the next entry in seconds (none for the newest), and the entry's texts. */
  datatype LogLine = LogLine(duration: Option<real>, kind: string, message: string, thought: string)

  /** logData: each entry with the gap to its successor; the newest one is "now". */
  function LogContext(h: seq<LogEntry>): (ctx: seq<LogLine>)
    ensures |ctx| == |h|
  {
    seq(|h|, i requires 0 <= i < |h| =>
      LogLine(if i < |h| - 1 then Some((h[i + 1].id - h[i].id) as real / 1000.0) else None,
              h[i].config.labelText, h[i].config.message, h[i].config.thought))
  }

  /** The sum of the known durations of a context. */
  function TotalSeconds(ctx: seq<LogLine>): real
    decreases |ctx|
  {
    if |ctx| == 0 then 0.0
    else (if ctx[0].duration.Some? then ctx[0].duration.value else 0.0) + TotalSeconds(ctx[1..])
  }

  lemma LogContextTail(h: seq<LogEntry>)
    requires |h| > 0
    ensures LogContext(h)[1..] == LogContext(h[1..])
  {
  }

  /**
   * The durations telescope: together they span the log, first entry to
   * newest, and only the newest entry is "now".
   */
  lemma {:induction false} DurationsSpanTheLog(h: seq<LogEntry>)
    requires |h| > 0
    ensures TotalSeconds(LogContext(h)) == (h[|h| - 1].id - h[0].id) as real / 1000.0
    ensures forall i :: 0 <= i < |h| ==> (LogContext(h)[i].duration == None <==> i == |h| - 1)
    decreases |h|
  {
    if |h| > 1 {
      LogContextTail(h);
      DurationsSpanTheLog(h[1..]);
      assert h[1..][|h| - 2] == h[|h| - 1];
    }
  }

  /** The goal text handed to the analysis. */
  function GoalText(userGoal: string): (g: string)
    ensures userGoal != "" ==> g == userGoal
    ensures g != ""
  {
    if userGoal == "" then "No specific goal set" else userGoal
  }

  /** What an analysis is asked about: the log context, the goal and the current preset's texts. */
  datatype AnalysisRequest = AnalysisRequest(log: seq<LogLine>, goal: string, current: WaveConfig)

  /** The request made on Fire, when a credential is configured. */
  function RequestFor(d: Decision, hasApiKey: bool, history: seq<LogEntry>, userGoal: string, active: WaveConfig): Option<AnalysisRequest> {
    if d == Fire && hasApiKey then Some(AnalysisRequest(LogContext(history), GoalText(userGoal), active))
    else None
  }

  /** The status part of a verdict: the texts for the preset and the HUD colour. */
  datatype Status = Status(labelText: string, thought: string, message: string, color: string)

  /** A parsed analysis verdict; absent fields are None, an absent flag is false. */
  datatype Verdict = Verdict(furtherAnalysisNeeded: bool, status: Option<Status>, directMessage: Option<string>)

  /** The AI panel of the HUD. */
  datatype Hud = Hud(labelText: string, thought: string, message: string, directMessage: Option<string>, colorPrimary: string)

  const INITIAL_HUD: Hud := Hud("AI.WAITING", "Initializing neural connection...",
    "Awaiting sufficient telemetry data for analysis.", None, "#475569")

  /** A direct message counts only when present and non-empty. */
  function DirectMessage(v: Verdict): Option<string> {
    if v.directMessage.Some? && v.directMessage.value != "" then v.directMessage else None
  }

  /** applyAiUpdates on the preset: only its three texts change. */
  function ApplyToPreset(active: WaveConfig, v: Verdict): WaveConfig {
    match v.status
    case None => active
    case Some(s) => active.(labelText := s.labelText, thought := s.thought, message := s.message)
  }

  /** applyAiUpdates on the HUD: texts, direct message and colour. */
  function ApplyToHud(hud: Hud, v: Verdict): Hud {
    match v.status
    case None => hud
    case Some(s) => Hud(s.labelText, s.thought, s.message, DirectMessage(v), s.color)
  }

  /** What is spoken: the direct message of a verdict that carries a status. */
  function Spoken(v: Verdict): Option<string> {
    if v.status.Some? then DirectMessage(v) else None
  }

  /**
   * A verdict without a status changes nothing and says nothing; with one,
   * the preset takes its texts but keeps its colours and motion, and the HUD
   * takes texts, colour and the direct message, which is spoken.
   */
  lemma ApplyVerdictEffect(active: WaveConfig, hud: Hud, v: Verdict)
    ensures v.status == None ==>
      ApplyToPreset(active, v) == active && ApplyToHud(hud, v) == hud && Spoken(v) == None
    ensures v.status.Some? ==>
      var p := ApplyToPreset(active, v);
      && p.labelText == v.status.value.labelText && p.thought == v.status.value.thought
      && p.message == v.status.value.message
      && p.(labelText := active.labelText, thought := active.thought, message := active.message) == active
      && ApplyToHud(hud, v).labelText == v.status.value.labelText
      && ApplyToHud(hud, v).thought == v.status.value.thought
      && ApplyToHud(hud, v).message == v.status.value.message
      && ApplyToHud(hud, v).colorPrimary == v.status.value.color
      && ApplyToHud(hud, v).directMessage == Spoken(v)
    ensures Spoken(v).Some? <==> v.status.Some? && v.directMessage.Some? && v.directMessage.value != ""
  {
  }

  /** The second, visual stage runs when the first verdict asks for it and some frame was captured. */
  function SecondStage(first: Verdict, webcamFrame: bool, screenFrame: bool): bool {
    first.furtherAnalysisNeeded && (webcamFrame || screenFrame)
  }
}
