/**
 * Feature vectors, their rolling deviation buffers and distance thresholds
 * (components/TimerUI.tsx:152-156, 977-981).
 *
 * Distances are kept squared: the source compares `sqrt(sum) > threshold`,
 * which for a non-negative square root is `Exceeds(sum, threshold)` below.
 */
module Vectors {

  import opened Config

  function Sq(x: real): real { x * x }

  /** The squared Euclidean distance of two vectors of equal length. */
  function SqDist(a: seq<real>, b: seq<real>): (r: real)
    requires |a| == |b|
    ensures r >= 0.0
    decreases |a|
  {
    if |a| == 0 then 0.0
    else SqDist(a[..|a| - 1], b[..|b| - 1]) + Sq(a[|a| - 1] - b[|b| - 1])
  }

  /** euclideanDistance's loop: the running sum of squared component differences. */
  method EuclideanSq(v1: seq<real>, v2: seq<real>) returns (sum: real)
    requires |v1| == |v2|
    ensures sum == SqDist(v1, v2)
  {
    sum := 0.0;
    for i := 0 to |v1|
      invariant sum == SqDist(v1[..i], v2[..i])
    {
      assert v1[..i + 1][..i] == v1[..i] && v2[..i + 1][..i] == v2[..i];
      sum := sum + (v1[i] - v2[i]) * (v1[i] - v2[i]);
    }
    assert v1[..|v1|] == v1 && v2[..|v2|] == v2;
  }

  lemma {:induction false} SqDistSelf(a: seq<real>)
    ensures SqDist(a, a) == 0.0
    decreases |a|
  {
    if |a| > 0 { SqDistSelf(a[..|a| - 1]); }
  }

  /** `sqrt(d2) > threshold`, stated on the squared distance. */
  predicate Exceeds(d2: real, threshold: real) {
    threshold < 0.0 || d2 > threshold * threshold
  }

  /** A zero distance exceeds no non-negative threshold. */
  lemma ZeroExceedsNothing(threshold: real)
    requires threshold >= 0.0
    ensures !Exceeds(0.0, threshold)
  {
    assert threshold * threshold >= 0.0;
  }

  /** `sqrt(d2) < bound`, stated on the squared distance. */
  predicate Within(d2: real, bound: real) {
    bound > 0.0 && d2 < bound * bound
  }

  /** The squared comparisons agree with comparing the distance itself. */
  lemma ExceedsMeansDistanceAbove(d: real, threshold: real)
    requires d >= 0.0
    ensures Exceeds(d * d, threshold) <==> d > threshold
    ensures Within(d * d, threshold) <==> d < threshold
  {
    if threshold >= 0.0 {
      if d > threshold {
        SquareStrictlyMonotone(threshold, d);
      } else if d < threshold {
        SquareStrictlyMonotone(d, threshold);
      }
    }
  }

  lemma SquareStrictlyMonotone(x: real, y: real)
    requires 0.0 <= x < y
    ensures x * x < y * y
  {
    var e := y - x;
    assert y * y == x * x + e * (x + y);
    assert e * (x + y) > 0.0;
  }

  /** Every buffered sample has the dimension of the feature vector. */
  predicate Rows(buffer: seq<seq<real>>, n: nat) {
    forall j :: 0 <= j < |buffer| ==> |buffer[j]| == n
  }

  /** Sum of component i over all samples of the buffer. */
  function ColumnSum(buffer: seq<seq<real>>, i: nat): real
    requires forall j :: 0 <= j < |buffer| ==> i < |buffer[j]|
    decreases |buffer|
  {
    if |buffer| == 0 then 0.0
    else ColumnSum(buffer[..|buffer| - 1], i) + buffer[|buffer| - 1][i]
  }

  /** The component-wise mean of a non-empty buffer of n-dimensional samples. */
  function Mean(buffer: seq<seq<real>>, n: nat): (avg: seq<real>)
    requires |buffer| > 0 && Rows(buffer, n)
    ensures |avg| == n
  {
    seq(n, i requires 0 <= i < n => ColumnSum(buffer, i) / (|buffer| as real))
  }

  /**
   * The squared deviation of a sample: its distance from the mean of the
   * previous samples, or from itself when there are none.
   */
  function Deviation(buffer: seq<seq<real>>, current: seq<real>): real
    requires Rows(buffer, |current|)
  {
    if |buffer| == 0 then SqDist(current, current)
    else SqDist(current, Mean(buffer, |current|))
  }

  /** An empty buffer gives no deviation. */
  lemma DeviationOfEmpty(current: seq<real>)
    ensures Deviation([], current) == 0.0
  {
    SqDistSelf(current);
  }

  lemma {:induction false} ColumnSumOfConstant(buffer: seq<seq<real>>, v: seq<real>, i: nat)
    requires i < |v|
    requires forall j :: 0 <= j < |buffer| ==> buffer[j] == v
    ensures ColumnSum(buffer, i) == (|buffer| as real) * v[i]
    decreases |buffer|
  {
    if |buffer| > 0 {
      ColumnSumOfConstant(buffer[..|buffer| - 1], v, i);
    }
  }

  /** A sample equal to every buffered sample deviates by nothing. */
  lemma DeviationOfSteadySample(buffer: seq<seq<real>>, current: seq<real>)
    requires forall j :: 0 <= j < |buffer| ==> buffer[j] == current
    ensures Rows(buffer, |current|)
    ensures Deviation(buffer, current) == 0.0
  {
    if |buffer| == 0 {
      DeviationOfEmpty(current);
    } else {
      var avg := Mean(buffer, |current|);
      forall i | 0 <= i < |current| ensures avg[i] == current[i] {
        ColumnSumOfConstant(buffer, current, i);
      }
      assert avg == current;
      SqDistSelf(current);
    }
  }

  /**
   * Append a sample and evict the oldest one when the capacity is exceeded
   * (`push` then at most one `shift`).
   */
  function PushEvict<T>(buffer: seq<T>, x: T, capacity: nat): seq<T> {
    var pushed := buffer + [x];
    if |pushed| > capacity then pushed[1..] else pushed
  }

  /** A buffer within its capacity stays within it, keeps the newest samples in order and ends with x. */
  lemma PushEvictWindow<T>(buffer: seq<T>, x: T, capacity: nat)
    requires |buffer| <= capacity && capacity > 0
    ensures |PushEvict(buffer, x, capacity)| == if |buffer| < capacity then |buffer| + 1 else capacity
    ensures PushEvict(buffer, x, capacity)[|PushEvict(buffer, x, capacity)| - 1] == x
    ensures PushEvict(buffer, x, capacity)
         == (buffer + [x])[|buffer| + 1 - |PushEvict(buffer, x, capacity)|..]
  {
  }

  /**
   * updateRate: the deviation of a sample against the buffer, and the buffer
   * with the sample pushed and the oldest evicted beyond capacity 20.
   */
  method UpdateRate(current: seq<real>, buffer: seq<seq<real>>) returns (dist2: real, updated: seq<seq<real>>)
    requires Rows(buffer, |current|)
    ensures dist2 == Deviation(buffer, current)
    ensures updated == PushEvict(buffer, current, RATE_BUFFER_CAPACITY)
    ensures Rows(updated, |current|)
  {
    var avg := current;
    if |buffer| > 0 {
      avg := Mean(buffer, |current|);
    }
    dist2 := EuclideanSq(current, avg);
    updated := buffer + [current];
    if |updated| > RATE_BUFFER_CAPACITY {
      updated := updated[1..];
    }
  }
}
