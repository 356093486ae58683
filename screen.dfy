/**
 * The screen sampler's tick (components/TimerUI.tsx:884-897): the distance
 * between this histogram and the previous one, a VISUAL_SURGE above the
 * configured change threshold, and activity above a fixed floor of 0.05.
 */
module Screen {

  import opened Wrappers
  import opened Config
  import opened Vectors
  import opened Scoring

  /** The side length of the off-screen canvas the screen is scaled down to. */
  const CANVAS_SIDE: nat := 64

  /**
   * One screen sample against the previous histogram: none before the first
   * sample; otherwise a surge event when the (squared) distance exceeds the
   * change threshold, then an activity refresh when it exceeds the floor.
   */
  function ScreenStep(p: Presets, s: Scorer, previous: Option<seq<real>>, current: seq<real>,
                      now: int, t: Thresholds, g: Gates): Scorer
    requires previous.Some? ==> |previous.value| == |current|
  {
    if previous.None? then s
    else
      var d2 := SqDist(current, previous.value);
      var surged := if Exceeds(d2, t.screen.changeThreshold) then Trigger(p, s, VISUAL_SURGE, "", now, t, g) else s;
      Refreshed(surged, Exceeds(d2, SCREEN_ACTIVITY_FLOOR), now)
  }

  /** The first sample of a session is only remembered. */
  lemma FirstSampleOnlyRemembered(p: Presets, s: Scorer, current: seq<real>, now: int, t: Thresholds, g: Gates)
    ensures ScreenStep(p, s, None, current, now, t, g) == s
  {
  }

  /** A screen that did not change raises nothing (for a non-negative change threshold). */
  lemma UnchangedScreenIsQuiet(p: Presets, s: Scorer, current: seq<real>, now: int, t: Thresholds, g: Gates)
    requires t.screen.changeThreshold >= 0.0
    ensures ScreenStep(p, s, Some(current), current, now, t, g) == s
  {
    SqDistSelf(current);
    assert !Exceeds(SqDist(current, current), t.screen.changeThreshold);
    assert !Exceeds(SqDist(current, current), SCREEN_ACTIVITY_FLOOR);
  }

  /**
   * With a change threshold at or above the fixed floor, every surge also
   * counts as activity, whether or not the surge event itself was accepted.
   */
  lemma SurgeCountsAsActivity(p: Presets, s: Scorer, previous: seq<real>, current: seq<real>, now: int, t: Thresholds, g: Gates)
    requires |previous| == |current|
    requires t.screen.changeThreshold >= SCREEN_ACTIVITY_FLOOR
    requires Exceeds(SqDist(current, previous), t.screen.changeThreshold)
    ensures ScreenStep(p, s, Some(previous), current, now, t, g).lastActiveTime == now
  {
    var thr := t.screen.changeThreshold;
    if thr > SCREEN_ACTIVITY_FLOOR {
      SquareStrictlyMonotone(SCREEN_ACTIVITY_FLOOR, thr);
    }
    assert Exceeds(SqDist(current, previous), SCREEN_ACTIVITY_FLOOR);
  }

  /** The score moves only through the surge event, and stays within its bounds. */
  lemma ScreenStepBounded(p: Presets, s: Scorer, previous: Option<seq<real>>, current: seq<real>, now: int, t: Thresholds, g: Gates)
    requires previous.Some? ==> |previous.value| == |current|
    requires Bounded(s)
    ensures Bounded(ScreenStep(p, s, previous, current, now, t, g))
    ensures ScreenStep(p, s, previous, current, now, t, g).score >= s.score
  {
    if previous.Some? {
      var d2 := SqDist(current, previous.value);
      var surged := if Exceeds(d2, t.screen.changeThreshold) then Trigger(p, s, VISUAL_SURGE, "", now, t, g) else s;
      TriggerScore(p, s, VISUAL_SURGE, "", now, t, g);
      TriggerBounded(p, s, VISUAL_SURGE, "", now, t, g);
      assert Bounded(surged) && surged.score >= s.score;
      assert ScreenStep(p, s, previous, current, now, t, g) == Refreshed(surged, Exceeds(d2, SCREEN_ACTIVITY_FLOOR), now);
    }
  }
}
