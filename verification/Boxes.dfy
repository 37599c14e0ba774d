/** Pixel boxes of the app's tracker (RaspberryPiClient.kt): overlap and
    smoothing. */
module Boxes {

  datatype Box = Box(x: int, y: int, width: int, height: int)

  const IOU_MATCH_THRESHOLD: real := 0.3

  function Max(a: int, b: int): int {
    if a >= b then a else b
  }

  function Min(a: int, b: int): int {
    if a <= b then a else b
  }

  /** How far two intervals overlap. */
  function Overlap(a: int, aLen: int, b: int, bLen: int): int {
    Max(0, Min(a + aLen, b + bLen) - Max(a, b))
  }

  function Intersection(a: Box, b: Box): int {
    Overlap(a.x, a.width, b.x, b.width) * Overlap(a.y, a.height, b.y, b.height)
  }

  function Area(a: Box): int {
    a.width * a.height
  }

  function Union(a: Box, b: Box): int {
    Area(a) + Area(b) - Intersection(a, b)
  }

  /** Intersection over union, as an exact quotient. */
  function IoU(a: Box, b: Box): real {
    if Union(a, b) > 0 then Intersection(a, b) as real / Union(a, b) as real else 0.0
  }

  ghost predicate Proper(a: Box) {
    a.width >= 0 && a.height >= 0
  }

  /** A box of at least one pixel inside a frame. */
  ghost predicate InFrame(b: Box, width: int, height: int) {
    && 0 <= b.x && 1 <= b.width && b.x + b.width <= width
    && 0 <= b.y && 1 <= b.height && b.y + b.height <= height
  }

  lemma ProductMonotone(a: int, b: int, c: int, d: int)
    requires 0 <= a <= c && 0 <= b <= d
    ensures 0 <= a * b <= c * d
  {
    assert a * b <= c * b <= c * d;
  }

  /** What two boxes share is part of each. */
  lemma IntersectionWithin(a: Box, b: Box)
    requires Proper(a) && Proper(b)
    ensures 0 <= Intersection(a, b) <= Area(a)
    ensures Intersection(a, b) <= Area(b)
  {
    var w, h := Overlap(a.x, a.width, b.x, b.width), Overlap(a.y, a.height, b.y, b.height);
    ProductMonotone(w, h, a.width, a.height);
    ProductMonotone(w, h, b.width, b.height);
  }

  lemma QuotientAtMostOne(n: int, d: int)
    requires 0 <= n && 0 < d
    ensures 0.0 <= n as real / d as real
    ensures n as real / d as real <= 1.0 <==> n <= d
    ensures n as real / d as real == 1.0 <==> n == d
    ensures n as real / d as real == 0.0 <==> n == 0
  {
    var q := n as real / d as real;
    assert q * d as real == n as real;
    if q <= 1.0 {
      assert q * d as real <= 1.0 * d as real;
    } else {
      assert q * d as real > 1.0 * d as real;
    }
  }

  /** Overlap is a proportion, symmetric, 0 exactly for boxes that share nothing,
      and 1 exactly for equal boxes of positive area. */
  lemma IoUIsProportion(a: Box, b: Box)
    requires Proper(a) && Proper(b)
    ensures 0.0 <= IoU(a, b) <= 1.0
    ensures IoU(a, b) == IoU(b, a)
    ensures IoU(a, b) == 0.0 <==> Intersection(a, b) == 0
    ensures IoU(a, b) == 1.0 <==> a == b && Area(a) > 0
  {
    IntersectionWithin(a, b);
    assert Intersection(a, b) == Intersection(b, a);
    if Union(a, b) > 0 {
      QuotientAtMostOne(Intersection(a, b), Union(a, b));
    }
    if IoU(a, b) == 1.0 {
      SharesAll(a, b);
    }
  }

  lemma SharesAll(a: Box, b: Box)
    requires Proper(a) && Proper(b) && Intersection(a, b) == Area(a) == Area(b) > 0
    ensures a == b
  {
    var w, h := Overlap(a.x, a.width, b.x, b.width), Overlap(a.y, a.height, b.y, b.height);
    PartIsLess(w, h, a.width, a.height);
    PartIsLess(w, h, b.width, b.height);
  }

  lemma PartIsLess(w: int, h: int, width: int, height: int)
    requires 0 <= w <= width && 0 <= h <= height && width * height > 0
    ensures w < width || h < height ==> w * h < width * height
  {
    assert w * h <= w * height <= width * height && w * h <= width * h <= width * height;
    if w < width {
      assert w * height < width * height;
    }
    if h < height {
      assert width * h < width * height;
    }
  }

  const INT_MAX := 0x7fff_ffff

  /** Inside the 1920x1080 frame no step of the computation leaves 32 bits. */
  lemma NoOverflow(a: Box, b: Box)
    requires InFrame(a, 1920, 1080) && InFrame(b, 1920, 1080)
    ensures 0 <= Intersection(a, b) <= Union(a, b) <= Area(a) + Area(b) <= INT_MAX
  {
    IntersectionWithin(a, b);
    ProductMonotone(a.width, a.height, 1920, 1080);
    ProductMonotone(b.width, b.height, 1920, 1080);
  }

  // ------------------------------------------------------------- smoothing

  /** Division by ten as `toInt` rounds it: toward zero. */
  function Tenth(n: int): int {
    if n >= 0 then n / 10 else -(-n / 10)
  }

  /** Seven tenths of the new sample and three of the old. */
  function EmaInt(before: int, sample: int): int {
    Tenth(7 * sample + 3 * before)
  }

  function SmoothBox(before: Box, sample: Box): Box {
    Box(EmaInt(before.x, sample.x), EmaInt(before.y, sample.y),
        EmaInt(before.width, sample.width), EmaInt(before.height, sample.height))
  }

  predicate Between(a: int, m: int, b: int) {
    Min(a, b) <= m <= Max(a, b)
  }

  /** Smoothing never leaves the range between the old and the new value. */
  lemma EmaBetween(before: int, sample: int)
    ensures Between(before, EmaInt(before, sample), sample)
  {
  }

  /** A smoothed box lies in the frame, although its edges are smoothed apart. */
  lemma SmoothInFrame(a: Box, b: Box, width: int, height: int)
    requires InFrame(a, width, height) && InFrame(b, width, height)
    ensures InFrame(SmoothBox(a, b), width, height)
  {
  }

  /** For pixels, a smoothed coordinate stands still only on its target or one
      pixel below it. */
  lemma EmaFixedIff(before: nat, sample: nat)
    ensures EmaInt(before, sample) == before <==> sample == before || sample == before + 1
  {
  }

  /** One such pixel. */
  lemma EmaStaysShort()
    ensures EmaInt(99, 100) == 99 && EmaInt(101, 100) == 100
  {
  }

  /** The coordinate after `n` batches with the same detection. */
  function Settled(before: int, sample: int, n: nat): int {
    if n == 0 then before else EmaInt(Settled(before, sample, n - 1), sample)
  }

  function Power(b: nat, n: nat): (p: nat)
    ensures 0 < b ==> 0 < p
  {
    if n == 0 then 1 else b * Power(b, n - 1)
  }

  /** One batch leaves three tenths of the distance: rounded down from above, rounded
      up from below. */
  lemma EmaStep(before: nat, sample: nat)
    ensures var s := EmaInt(before, sample);
      && 0 <= s
      && (before >= sample ==> sample <= s && 10 * (s - sample) <= 3 * (before - sample))
      && (before < sample ==> s < sample && 10 * (7 * (sample - s) - 9) <= 3 * (7 * (sample - before) - 9))
  {
  }

  lemma Shrinks(t: int, x: int, y: int, z: int, p: nat)
    requires 10 * x <= 3 * y && t * y <= p * z && 0 < t
    ensures (10 * t) * x <= (3 * p) * z
  {
    assert t * (10 * x) <= t * (3 * y);
    assert (10 * t) * x == t * (10 * x) && t * (3 * y) == 3 * (t * y) && (3 * p) * z == 3 * (p * z);
  }

  /** It settles geometrically: each batch leaves at most three tenths of the distance
      from above, and from below of the distance less nine sevenths. */
  lemma {:induction false} EmaSettles(before: nat, sample: nat, n: nat)
    ensures var s := Settled(before, sample, n);
      && 0 <= s
      && (before >= sample ==> sample <= s && Power(10, n) * (s - sample) <= Power(3, n) * (before - sample))
      && (before < sample ==>
          s < sample && Power(10, n) * (7 * (sample - s) - 9) <= Power(3, n) * (7 * (sample - before) - 9))
  {
    if n > 0 {
      EmaSettles(before, sample, n - 1);
      var last, s := Settled(before, sample, n - 1), Settled(before, sample, n);
      EmaStep(last, sample);
      if before >= sample {
        Shrinks(Power(10, n - 1), s - sample, last - sample, before - sample, Power(3, n - 1));
      } else {
        var left, earlier := 7 * (sample - s) - 9, 7 * (sample - last) - 9;
        Shrinks(Power(10, n - 1), left, earlier, 7 * (sample - before) - 9, Power(3, n - 1));
      }
    }
  }

  lemma NoneLeft(t: nat, x: int, bound: int)
    requires 0 < t && t * x < t * bound
    ensures x < bound
  {
  }

  /** So it has arrived once three tenths to the number of batches are small against
      the distance: on the detection from above, one pixel short of it from below. */
  lemma EmaArrives(before: nat, sample: nat, n: nat)
    ensures before >= sample && Power(3, n) * (before - sample) < Power(10, n) ==>
      Settled(before, sample, n) == sample
    ensures before < sample && Power(3, n) * (7 * (sample - before) - 9) < 5 * Power(10, n) ==>
      Settled(before, sample, n) == sample - 1
  {
    EmaSettles(before, sample, n);
    var s, t := Settled(before, sample, n), Power(10, n);
    if before >= sample && Power(3, n) * (before - sample) < t {
      NoneLeft(t, s - sample, 1);
    }
    if before < sample && Power(3, n) * (7 * (sample - before) - 9) < 5 * t {
      NoneLeft(t, 7 * (sample - s) - 9, 5);
    }
  }

  /** Anywhere in the video, seven batches do. */
  lemma SevenBatchesDo(before: nat, sample: nat)
    requires before <= 1920 && sample <= 1920
    ensures Settled(before, sample, 7) == if before >= sample then sample else sample - 1
  {
    EmaArrives(before, sample, 7);
    assert Power(3, 3) == 27 && Power(10, 3) == 1000;
    assert Power(3, 5) == 243 && Power(10, 5) == 100000;
    assert Power(3, 7) == 2187 && Power(10, 7) == 10000000;
  }
}
