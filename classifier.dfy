/**
 * The per-frame face classifier (components/TimerUI.tsx:142-149, 964-994):
 * feature extraction from a detected face, the three rolling deviation
 * buffers, the refresh, expression and lean rules, and the nod/shake window.
 * Distances are squared (see module Vectors); the Euler angles arrive
 * already computed with the sample.
 */
module Classifier {

  import opened Wrappers
  import opened Config
  import opened Vectors

  /** One blendshape category reported by the landmarker. */
  datatype Category = Category(name: string, score: real)

  datatype Angles = Angles(pitch: real, yaw: real)

  /**
   * One detected face: its blendshape categories, the 16 entries of its
   * facial transformation matrix, and the pitch and yaw derived from it.
   */
  datatype FaceSample = FaceSample(categories: seq<Category>, matrix: seq<real>, angles: Angles)

  predicate WellFormed(f: FaceSample) {
    |f.matrix| == 16
  }

  const EXPRESSION_DIM: nat := 11
  const ROTATION_DIM: nat := 9
  const POSITION_DIM: nat := 3

  /** The blendshapes whose scores make up the expression vector. */
  const TARGET_BLENDSHAPES: seq<string> := [
    "browDownLeft", "browDownRight", "browInnerUp",
    "eyeWideLeft", "eyeWideRight",
    "jawOpen",
    "mouthSmileLeft", "mouthSmileRight",
    "mouthPucker",
    "mouthFrownLeft", "mouthFrownRight"]

  /** The score of the first category with this name, or 0 when there is none. */
  function ScoreOf(categories: seq<Category>, name: string): (r: real)
    ensures (forall j :: 0 <= j < |categories| ==> categories[j].name != name) ==> r == 0.0
    ensures forall j ::
      (0 <= j < |categories| && categories[j].name == name
       && forall i :: 0 <= i < j ==> categories[i].name != name)
      ==> r == categories[j].score
    decreases |categories|
  {
    if |categories| == 0 then 0.0
    else if categories[0].name == name then categories[0].score
    else ScoreOf(categories[1..], name)
  }

  /** The expression vector: one score per target blendshape, in order. */
  function ExpressionVector(categories: seq<Category>): (v: seq<real>)
    ensures |v| == EXPRESSION_DIM
  {
    seq(EXPRESSION_DIM, i requires 0 <= i < EXPRESSION_DIM => ScoreOf(categories, TARGET_BLENDSHAPES[i]))
  }

  /** The rotation part of the matrix: entries 0-2, 4-6 and 8-10. */
  function RotationVector(m: seq<real>): (v: seq<real>)
    requires |m| == 16
    ensures |v| == ROTATION_DIM
  {
    [m[0], m[1], m[2], m[4], m[5], m[6], m[8], m[9], m[10]]
  }

  /** The translation part of the matrix, scaled down by 10. */
  function PositionVector(m: seq<real>): (v: seq<real>)
    requires |m| == 16
    ensures |v| == POSITION_DIM
  {
    [m[12] / 10.0, m[13] / 10.0, m[14] / 10.0]
  }

  /** The rolling sample buffers the frame handler keeps between frames. */
  datatype Buffers = Buffers(
    expression: seq<seq<real>>, rotation: seq<seq<real>>, position: seq<seq<real>>,
    angles: seq<Angles>)

  const EMPTY_BUFFERS: Buffers := Buffers([], [], [], [])

  /** Every sample has its vector's dimension and no buffer exceeds its capacity. */
  predicate BuffersValid(b: Buffers) {
    && Rows(b.expression, EXPRESSION_DIM) && |b.expression| <= RATE_BUFFER_CAPACITY
    && Rows(b.rotation, ROTATION_DIM) && |b.rotation| <= RATE_BUFFER_CAPACITY
    && Rows(b.position, POSITION_DIM) && |b.position| <= RATE_BUFFER_CAPACITY
    && |b.angles| <= GESTURE_BUFFER_SIZE
  }

  /** The three squared deviations of one frame. */
  datatype Rates = Rates(expression: real, rotation: real, position: real)

  /** Any deviation above its reset threshold counts as activity. */
  predicate Refreshes(r: Rates, t: Thresholds) {
    || Exceeds(r.expression, t.expression.reset)
    || Exceeds(r.rotation, t.rotation.reset)
    || Exceeds(r.position, t.movement.reset)
  }

  /** An expression spike while the head holds still (positional deviation under 0.1). */
  predicate ExpressionSpike(r: Rates, t: Thresholds) {
    Exceeds(r.expression, t.expression.spike) && Within(r.position, EXPRESSION_STILLNESS_BOUND)
  }

  function Abs(x: real): real { if x < 0.0 then -x else x }

  /**
   * The lean rule: a positional spike together with a depth change, against
   * the oldest buffered position, larger than the lean distance; forward
   * when depth grew.
   */
  function LeanEvent(pos: seq<real>, oldest: seq<real>, r: Rates, t: Thresholds): Option<EventKind>
    requires |pos| == POSITION_DIM && |oldest| == POSITION_DIM
  {
    var dz := pos[2] - oldest[2];
    if Exceeds(r.position, t.movement.spike) && Abs(dz) > t.movement.leanZDistance
    then Some(if dz > 0.0 then LEAN_IN else LEAN_OUT)
    else None
  }

  /** Forward and back are decided by the sign of the depth change. */
  lemma LeanDirection(pos: seq<real>, oldest: seq<real>, r: Rates, t: Thresholds)
    requires |pos| == POSITION_DIM && |oldest| == POSITION_DIM
    requires t.movement.leanZDistance >= 0.0
    ensures LeanEvent(pos, oldest, r, t) == Some(LEAN_IN)
      <==> Exceeds(r.position, t.movement.spike) && pos[2] - oldest[2] > t.movement.leanZDistance
    ensures LeanEvent(pos, oldest, r, t) == Some(LEAN_OUT)
      <==> Exceeds(r.position, t.movement.spike) && oldest[2] - pos[2] > t.movement.leanZDistance
    ensures LeanEvent(pos, oldest, r, t) != None ==> LeanEvent(pos, oldest, r, t).value in {LEAN_IN, LEAN_OUT}
  {
  }

  function MaxOf(xs: seq<real>): (m: real)
    requires |xs| > 0
    ensures m in xs
    ensures forall i :: 0 <= i < |xs| ==> xs[i] <= m
    decreases |xs|
  {
    if |xs| == 1 then xs[0]
    else
      var rest := MaxOf(xs[1..]);
      if xs[0] >= rest then xs[0] else rest
  }

  function MinOf(xs: seq<real>): (m: real)
    requires |xs| > 0
    ensures m in xs
    ensures forall i :: 0 <= i < |xs| ==> m <= xs[i]
    decreases |xs|
  {
    if |xs| == 1 then xs[0]
    else
      var rest := MinOf(xs[1..]);
      if xs[0] <= rest then xs[0] else rest
  }

  /** The range of a non-empty series, `max - min`. */
  function Spread(xs: seq<real>): (d: real)
    requires |xs| > 0
    ensures d >= 0.0
    ensures forall i, j :: 0 <= i < |xs| && 0 <= j < |xs| ==> xs[i] - xs[j] <= d
    ensures exists i, j :: 0 <= i < |xs| && 0 <= j < |xs| && xs[i] - xs[j] == d
  {
    MaxOf(xs) - MinOf(xs)
  }

  function Pitches(w: seq<Angles>): (p: seq<real>)
    ensures |p| == |w| && forall i :: 0 <= i < |w| ==> p[i] == w[i].pitch
  {
    seq(|w|, i requires 0 <= i < |w| => w[i].pitch)
  }

  function Yaws(w: seq<Angles>): (y: seq<real>)
    ensures |y| == |w| && forall i :: 0 <= i < |w| ==> y[i] == w[i].yaw
  {
    seq(|w|, i requires 0 <= i < |w| => w[i].yaw)
  }

  /**
   * The gesture window, judged only when it holds exactly BUFFER_SIZE
   * samples: a pitch range above the minimum is a NOD, otherwise a yaw range
   * above its minimum is a SHAKE.
   */
  function GestureEvent(w: seq<Angles>, t: Thresholds): Option<EventKind> {
    if |w| == GESTURE_BUFFER_SIZE then
      if Spread(Pitches(w)) > t.gesture.pitchRangeMin then Some(NOD)
      else if Spread(Yaws(w)) > t.gesture.yawRangeMin then Some(SHAKE)
      else None
    else None
  }

  /** At most one gesture per frame, only on a full window, NOD first. */
  lemma GestureRule(w: seq<Angles>, t: Thresholds)
    ensures GestureEvent(w, t) in {None, Some(NOD), Some(SHAKE)}
    ensures GestureEvent(w, t) != None ==> |w| == GESTURE_BUFFER_SIZE
    ensures GestureEvent(w, t) == Some(NOD)
      <==> |w| == GESTURE_BUFFER_SIZE && Spread(Pitches(w)) > t.gesture.pitchRangeMin
    ensures GestureEvent(w, t) == Some(SHAKE)
      <==> |w| == GESTURE_BUFFER_SIZE && Spread(Pitches(w)) <= t.gesture.pitchRangeMin
           && Spread(Yaws(w)) > t.gesture.yawRangeMin
  {
  }

  /**
   * A window whose pitches all lie within the nod range cannot nod: the
   * spread is bounded by any bound on pairwise differences.
   */
  lemma {:induction false} SteadyPitchNoNod(w: seq<Angles>, t: Thresholds)
    requires |w| > 0
    requires forall i, j :: 0 <= i < |w| && 0 <= j < |w| ==> w[i].pitch - w[j].pitch <= t.gesture.pitchRangeMin
    ensures GestureEvent(w, t) != Some(NOD)
  {
    var p := Pitches(w);
    var hi := MaxOf(p);
    var lo := MinOf(p);
    var i :| 0 <= i < |p| && p[i] == hi;
    var j :| 0 <= j < |p| && p[j] == lo;
    assert w[i].pitch - w[j].pitch <= t.gesture.pitchRangeMin;
  }

  function Optional(k: Option<EventKind>): seq<EventKind> {
    if k.Some? then [k.value] else []
  }

  /** What one frame with a face yields: the updated buffers, whether activity is refreshed, and the events in order. */
  datatype FrameOutcome = FrameOutcome(rates: Rates, buffers: Buffers, refresh: bool, events: seq<EventKind>)

  /**
   * One frame with a face: the three deviations against the buffers, each
   * sample pushed (oldest evicted beyond 20), the angle pushed (oldest evicted
   * beyond BUFFER_SIZE), then EXPRESSION, a lean and a gesture in that order.
   * The lean compares against the oldest position after the push.
   */
  function Classify(b: Buffers, f: FaceSample, t: Thresholds): FrameOutcome
    requires BuffersValid(b) && WellFormed(f)
  {
    var e := ExpressionVector(f.categories);
    var rot := RotationVector(f.matrix);
    var pos := PositionVector(f.matrix);
    var rates := Rates(Deviation(b.expression, e), Deviation(b.rotation, rot), Deviation(b.position, pos));
    var positions := PushEvict(b.position, pos, RATE_BUFFER_CAPACITY);
    var oldest := if |positions| > 0 then positions[0] else pos;
    var window := PushEvict(b.angles, f.angles, GESTURE_BUFFER_SIZE);
    var next := Buffers(
      PushEvict(b.expression, e, RATE_BUFFER_CAPACITY),
      PushEvict(b.rotation, rot, RATE_BUFFER_CAPACITY),
      positions, window);
    FrameOutcome(rates, next, Refreshes(rates, t), FrameEvents(rates, pos, oldest, window, t))
  }

  /** The events of a frame, in the order they are triggered: EXPRESSION, a lean, a gesture. */
  function FrameEvents(rates: Rates, pos: seq<real>, oldest: seq<real>, window: seq<Angles>, t: Thresholds): seq<EventKind>
    requires |pos| == |oldest| == POSITION_DIM
  {
    Spike(rates, t) + Optional(LeanEvent(pos, oldest, rates, t)) + Optional(GestureEvent(window, t))
  }

  /** The expression event of a frame, if its deviation spiked. */
  function Spike(rates: Rates, t: Thresholds): seq<EventKind> {
    if ExpressionSpike(rates, t) then [EXPRESSION] else []
  }

  lemma PushEvictRows(buffer: seq<seq<real>>, x: seq<real>, capacity: nat)
    requires Rows(buffer, |x|) && |buffer| <= capacity && capacity > 0
    ensures Rows(PushEvict(buffer, x, capacity), |x|)
    ensures |PushEvict(buffer, x, capacity)| <= capacity
  {
  }

  /**
   * The buffers stay within their capacities and dimensions, each ends with
   * this frame's sample, and at most three events come out, with at most one
   * gesture.
   */
  lemma ClassifyKeepsBuffersValid(b: Buffers, f: FaceSample, t: Thresholds)
    requires BuffersValid(b) && WellFormed(f)
    ensures BuffersValid(Classify(b, f, t).buffers)
    ensures var nb := Classify(b, f, t).buffers;
      && nb.expression[|nb.expression| - 1] == ExpressionVector(f.categories)
      && nb.rotation[|nb.rotation| - 1] == RotationVector(f.matrix)
      && nb.position[|nb.position| - 1] == PositionVector(f.matrix)
      && nb.angles[|nb.angles| - 1] == f.angles
    ensures |Classify(b, f, t).events| <= 3
  {
    ClassifiedBuffersValid(b, f, t);
    ClassifiedLastSamples(b, f, t);
    ClassifiedEvents(b, f, t);
  }

  /** The pushed buffers keep their capacities and row dimensions. */
  lemma ClassifiedBuffersValid(b: Buffers, f: FaceSample, t: Thresholds)
    requires BuffersValid(b) && WellFormed(f)
    ensures BuffersValid(Classify(b, f, t).buffers)
  {
    ClassifiedBuffers(b, f, t);
    PushEvictRows(b.expression, ExpressionVector(f.categories), RATE_BUFFER_CAPACITY);
    PushEvictRows(b.rotation, RotationVector(f.matrix), RATE_BUFFER_CAPACITY);
    PushEvictRows(b.position, PositionVector(f.matrix), RATE_BUFFER_CAPACITY);
    PushEvictWindow(b.angles, f.angles, GESTURE_BUFFER_SIZE);
  }

  /** Each pushed buffer ends with this frame's sample. */
  lemma ClassifiedLastSamples(b: Buffers, f: FaceSample, t: Thresholds)
    requires BuffersValid(b) && WellFormed(f)
    ensures var nb := Classify(b, f, t).buffers;
      && |nb.expression| > 0 && nb.expression[|nb.expression| - 1] == ExpressionVector(f.categories)
      && |nb.rotation| > 0 && nb.rotation[|nb.rotation| - 1] == RotationVector(f.matrix)
      && |nb.position| > 0 && nb.position[|nb.position| - 1] == PositionVector(f.matrix)
      && |nb.angles| > 0 && nb.angles[|nb.angles| - 1] == f.angles
  {
    ClassifiedBuffers(b, f, t);
    PushEvictWindow(b.expression, ExpressionVector(f.categories), RATE_BUFFER_CAPACITY);
    PushEvictWindow(b.rotation, RotationVector(f.matrix), RATE_BUFFER_CAPACITY);
    PushEvictWindow(b.position, PositionVector(f.matrix), RATE_BUFFER_CAPACITY);
    PushEvictWindow(b.angles, f.angles, GESTURE_BUFFER_SIZE);
  }

  /** The buffers Classify returns are the four pushes. */
  lemma ClassifiedBuffers(b: Buffers, f: FaceSample, t: Thresholds)
    requires BuffersValid(b) && WellFormed(f)
    ensures Classify(b, f, t).buffers == Buffers(
      PushEvict(b.expression, ExpressionVector(f.categories), RATE_BUFFER_CAPACITY),
      PushEvict(b.rotation, RotationVector(f.matrix), RATE_BUFFER_CAPACITY),
      PushEvict(b.position, PositionVector(f.matrix), RATE_BUFFER_CAPACITY),
      PushEvict(b.angles, f.angles, GESTURE_BUFFER_SIZE))
  {
  }

  /** A frame raises at most one event of each of its three kinds. */
  lemma ClassifiedEvents(b: Buffers, f: FaceSample, t: Thresholds)
    requires BuffersValid(b) && WellFormed(f)
    ensures |Classify(b, f, t).events| <= 3
  {
  }

  /**
   * The lean reference is the oldest position once this frame's is pushed:
   * the frame itself on an empty buffer, the first buffered position while
   * the buffer has room, the second once it is full.
   */
  lemma LeanReference(b: Buffers, f: FaceSample)
    requires BuffersValid(b) && WellFormed(f)
    ensures var positions := PushEvict(b.position, PositionVector(f.matrix), RATE_BUFFER_CAPACITY);
      && |positions| > 0
      && positions[0] == (if |b.position| == 0 then PositionVector(f.matrix)
                          else if |b.position| < RATE_BUFFER_CAPACITY then b.position[0]
                          else b.position[1])
  {
  }

  /**
   * The first face after the buffers were emptied raises nothing: every
   * deviation is zero, the lean reference is the frame itself, and the
   * gesture window holds one sample.
   */
  lemma FirstFrameIsQuiet(f: FaceSample, t: Thresholds)
    requires WellFormed(f) && NonNegativeDistances(t)
    ensures Classify(EMPTY_BUFFERS, f, t).events == []
    ensures !Classify(EMPTY_BUFFERS, f, t).refresh
  {
    DeviationOfEmpty(ExpressionVector(f.categories));
    DeviationOfEmpty(RotationVector(f.matrix));
    DeviationOfEmpty(PositionVector(f.matrix));
  }

  /**
   * A face held perfectly still (every buffered sample equals this frame's)
   * has zero deviations: no refresh, no EXPRESSION, no lean; only the
   * gesture window can still fire.
   */
  lemma StillFaceRaisesNoDeviation(b: Buffers, f: FaceSample, t: Thresholds)
    requires BuffersValid(b) && WellFormed(f) && NonNegativeDistances(t)
    requires forall j :: 0 <= j < |b.expression| ==> b.expression[j] == ExpressionVector(f.categories)
    requires forall j :: 0 <= j < |b.rotation| ==> b.rotation[j] == RotationVector(f.matrix)
    requires forall j :: 0 <= j < |b.position| ==> b.position[j] == PositionVector(f.matrix)
    ensures !Classify(b, f, t).refresh
    ensures Classify(b, f, t).events == Optional(GestureEvent(Classify(b, f, t).buffers.angles, t))
  {
    DeviationOfSteadySample(b.expression, ExpressionVector(f.categories));
    DeviationOfSteadySample(b.rotation, RotationVector(f.matrix));
    DeviationOfSteadySample(b.position, PositionVector(f.matrix));
    LeanReference(b, f);
    var o := Classify(b, f, t);
    assert o.rates == Rates(0.0, 0.0, 0.0);
    ZeroExceedsNothing(t.expression.spike);
    ZeroExceedsNothing(t.expression.reset);
    ZeroExceedsNothing(t.movement.spike);
    ZeroExceedsNothing(t.movement.reset);
    ZeroExceedsNothing(t.rotation.reset);
    assert Spike(o.rates, t) == [];
    var pos := PositionVector(f.matrix);
    var positions := PushEvict(b.position, pos, RATE_BUFFER_CAPACITY);
    assert positions[0] == pos;
    assert LeanEvent(pos, positions[0], o.rates, t) == None;
  }

  /**
   * The presence flag: raised while the last detected face is less than a
   * second old (the frame clock), so a frame with a face always raises it.
   */
  function PresentDebounced(lastFaceDetected: real, now: real): bool {
    now - lastFaceDetected < PRESENCE_HOLD_MS
  }

  lemma PresenceHold(lastFaceDetected: real, now: real)
    ensures PresentDebounced(now, now)
    ensures now >= lastFaceDetected + PRESENCE_HOLD_MS ==> !PresentDebounced(lastFaceDetected, now)
  {
  }
}
