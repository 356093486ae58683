/**
 * The screen sampler's colour histogram (components/TimerUI.tsx:171-181):
 * 8 buckets per channel, red in 0-7, green in 8-15, blue in 16-23, over RGBA
 * bytes, normalised by the pixel count.
 */
module Histogram {

  import opened Vectors

  /** One byte of canvas image data. */
  type Byte = x: int | 0 <= x < 256

  const BUCKETS_PER_CHANNEL: nat := 8
  const HISTOGRAM_SIZE: nat := 24

  /** The bucket of a channel value: floor(v / 32). */
  function Bucket(v: Byte): (k: nat)
    ensures k < BUCKETS_PER_CHANNEL
    ensures 32 * k <= v < 32 * (k + 1)
  {
    v / 32
  }

  function Bump(h: seq<int>, k: nat): seq<int>
    requires k < |h|
  {
    h[k := h[k] + 1]
  }

  /** One pixel counted: one bucket incremented in each channel's range. */
  function AddPixel(h: seq<int>, r: Byte, g: Byte, b: Byte): seq<int>
    requires |h| == HISTOGRAM_SIZE
  {
    Bump(Bump(Bump(h, Bucket(r)), 8 + Bucket(g)), 16 + Bucket(b))
  }

  /** The raw bucket counts of the first n pixels of RGBA image data (alpha is ignored). */
  function Counts(data: seq<Byte>, n: nat): (h: seq<int>)
    requires 4 * n <= |data|
    ensures |h| == HISTOGRAM_SIZE
  {
    if n == 0 then seq(HISTOGRAM_SIZE, _ => 0)
    else
      var i := 4 * (n - 1);
      AddPixel(Counts(data, n - 1), data[i], data[i + 1], data[i + 2])
  }

  /** Every count divided by the pixel count. */
  function Normalize(h: seq<int>, pixels: nat): (r: seq<real>)
    requires pixels > 0
    ensures |r| == |h|
  {
    seq(|h|, k requires 0 <= k < |h| => h[k] as real / pixels as real)
  }

  /**
   * calculateHistogram: one pass over the pixels, each incrementing one
   * bucket per channel, then normalisation by width * height.
   */
  method CalculateHistogram(data: seq<Byte>, width: nat, height: nat) returns (hist: seq<real>)
    requires width * height > 0 && |data| == 4 * (width * height)
    ensures hist == Normalize(Counts(data, width * height), width * height)
  {
    var pixels := width * height;
    var counts := CountAll(data, pixels);
    hist := Normalize(counts, pixels);
  }

  /** The counting loop over every RGBA quadruple of the image data. */
  method CountAll(data: seq<Byte>, pixels: nat) returns (counts: seq<int>)
    requires |data| == 4 * pixels
    ensures counts == Counts(data, pixels)
  {
    var buckets := new int[HISTOGRAM_SIZE](_ => 0);
    assert buckets[..] == Counts(data, 0);
    for p := 0 to pixels
      invariant buckets[..] == Counts(data, p)
    {
      CountsStep(data, p);
      CountPixel(buckets, data[4 * p], data[4 * p + 1], data[4 * p + 2]);
    }
    counts := buckets[..];
  }

  lemma CountsStep(data: seq<Byte>, p: nat)
    requires 4 * (p + 1) <= |data|
    ensures Counts(data, p + 1) == AddPixel(Counts(data, p), data[4 * p], data[4 * p + 1], data[4 * p + 2])
  {
  }

  /** One pixel's three bucket increments, in place. */
  method CountPixel(counts: array<int>, r: Byte, g: Byte, b: Byte)
    requires counts.Length == HISTOGRAM_SIZE
    modifies counts
    ensures counts[..] == AddPixel(old(counts[..]), r, g, b)
  {
    counts[r / 32] := counts[r / 32] + 1;
    counts[8 + g / 32] := counts[8 + g / 32] + 1;
    counts[16 + b / 32] := counts[16 + b / 32] + 1;
  }

  /** Sum of h[lo..hi]. */
  function RangeSum(h: seq<int>, lo: nat, hi: nat): int
    requires lo <= hi <= |h|
    decreases hi - lo
  {
    if hi == lo then 0 else RangeSum(h, lo, hi - 1) + h[hi - 1]
  }

  lemma {:induction false} RangeSumBump(h: seq<int>, k: nat, lo: nat, hi: nat)
    requires k < |h| && lo <= hi <= |h|
    ensures RangeSum(Bump(h, k), lo, hi) == RangeSum(h, lo, hi) + (if lo <= k < hi then 1 else 0)
    decreases hi - lo
  {
    if hi > lo {
      RangeSumBump(h, k, lo, hi - 1);
    }
  }

  lemma {:induction false} RangeSumZero(lo: nat, hi: nat)
    requires lo <= hi <= HISTOGRAM_SIZE
    ensures RangeSum(seq(HISTOGRAM_SIZE, _ => 0), lo, hi) == 0
    decreases hi - lo
  {
    if hi > lo {
      RangeSumZero(lo, hi - 1);
    }
  }

  lemma AddPixelSum(h: seq<int>, r: Byte, g: Byte, b: Byte, lo: nat, hi: nat)
    requires |h| == HISTOGRAM_SIZE && lo <= hi <= HISTOGRAM_SIZE
    ensures RangeSum(AddPixel(h, r, g, b), lo, hi)
         == RangeSum(h, lo, hi)
          + (if lo <= Bucket(r) < hi then 1 else 0)
          + (if lo <= 8 + Bucket(g) < hi then 1 else 0)
          + (if lo <= 16 + Bucket(b) < hi then 1 else 0)
  {
    var h1 := Bump(h, Bucket(r));
    var h2 := Bump(h1, 8 + Bucket(g));
    RangeSumBump(h, Bucket(r), lo, hi);
    RangeSumBump(h1, 8 + Bucket(g), lo, hi);
    RangeSumBump(h2, 16 + Bucket(b), lo, hi);
  }

  /** The first bucket of each channel's range: 0 for red, 8 for green, 16 for blue. */
  predicate ChannelStart(lo: nat) {
    lo == 0 || lo == 8 || lo == 16
  }

  /** One pixel adds exactly one to a channel's range. */
  lemma AddPixelChannel(h: seq<int>, r: Byte, g: Byte, b: Byte, lo: nat)
    requires |h| == HISTOGRAM_SIZE && ChannelStart(lo)
    ensures RangeSum(AddPixel(h, r, g, b), lo, lo + 8) == RangeSum(h, lo, lo + 8) + 1
  {
    var kr, kg, kb := Bucket(r), Bucket(g), Bucket(b);
    assert kr < 8 && kg < 8 && kb < 8;
    AddPixelSum(h, r, g, b, lo, lo + 8);
  }

  /** A channel's counts over the first n pixels add up to n. */
  lemma {:induction false} ChannelTotal(data: seq<Byte>, n: nat, lo: nat)
    requires 4 * n <= |data| && ChannelStart(lo)
    ensures RangeSum(Counts(data, n), lo, lo + 8) == n
  {
    if n == 0 {
      RangeSumZero(lo, lo + 8);
    } else {
      var p := n - 1;
      ChannelTotal(data, p, lo);
      CountsStep(data, p);
      AddPixelChannel(Counts(data, p), data[4 * p], data[4 * p + 1], data[4 * p + 2], lo);
    }
  }

  /** No bucket count is negative. */
  lemma {:induction false} CountsNonNegative(data: seq<Byte>, n: nat)
    requires 4 * n <= |data|
    ensures forall k :: 0 <= k < HISTOGRAM_SIZE ==> Counts(data, n)[k] >= 0
  {
    if n > 0 {
      CountsNonNegative(data, n - 1);
    }
  }
}
