/** Box geometry of the person detector (pi-streaming/person_streamer.py): the
    frame is fitted into the model's canvas, boxes are mapped back and then scaled
    up to the video the app shows. */
module Letterbox {
  import opened Boxes
  import Sorting

  // ----------------------------------------------------------- rounding

  /** Python's `round`: to the nearest integer, ties to the even one. */
  function Round(x: real): int {
    var f := x.Floor;
    var rest := x - f as real;
    if rest < 0.5 || (rest == 0.5 && f % 2 == 0) then f else f + 1
  }

  lemma RoundNear(x: real)
    ensures -0.5 <= Round(x) as real - x <= 0.5
  {
  }

  lemma RoundMonotone(x: real, y: real)
    requires x <= y
    ensures Round(x) <= Round(y)
  {
    assert x.Floor <= y.Floor;
  }

  /** Rounding stays within integer bounds, and keeps integers. */
  lemma RoundBelow(x: real, n: int)
    ensures x <= n as real ==> Round(x) <= n
    ensures n as real <= x ==> n <= Round(x)
  {
    assert (n as real).Floor == n;
    if x <= n as real {
      RoundMonotone(x, n as real);
    } else {
      RoundMonotone(n as real, x);
    }
  }

  /** A tie rounds to 0, so exactly the values above one half round to 1 or more. */
  lemma RoundPositive(x: real)
    requires x >= 0.0
    ensures Round(x) > 0 <==> x > 0.5
  {
  }

  // ---------------------------------------------------------- letterboxing

  function Quotient(a: nat, b: nat): real
    requires b > 0
  {
    a as real / b as real
  }

  function Scale(origW: nat, origH: nat, inW: nat, inH: nat): real
    requires origW > 0 && origH > 0
  {
    var sx, sy := Quotient(inW, origW), Quotient(inH, origH);
    if sx <= sy then sx else sy
  }

  /** A side after resizing, and the padding before it. */
  function Resized(side: nat, scale: real): int {
    Round(side as real * scale)
  }

  function Pad(room: nat, size: int): int {
    (room - size) / 2
  }

  lemma QuotientTimes(a: nat, b: nat)
    requires b > 0
    ensures b as real * Quotient(a, b) == a as real
    ensures a > 0 ==> Quotient(a, b) > 0.0
  {
  }

  lemma TimesMonotone(n: nat, x: real, y: real)
    requires x <= y
    ensures n as real * x <= n as real * y
  {
  }

  /** Scaled sides fit the canvas, and one of them fills it. */
  lemma ScaleFits(origW: nat, origH: nat, inW: nat, inH: nat)
    requires origW > 0 && origH > 0 && inW > 0 && inH > 0
    ensures var s := Scale(origW, origH, inW, inH);
      && s > 0.0
      && 0.0 <= origW as real * s <= inW as real && 0.0 <= origH as real * s <= inH as real
      && (origW as real * s == inW as real || origH as real * s == inH as real)
  {
    var s := Scale(origW, origH, inW, inH);
    QuotientTimes(inW, origW);
    QuotientTimes(inH, origH);
    TimesMonotone(origW, s, Quotient(inW, origW));
    TimesMonotone(origH, s, Quotient(inH, origH));
    TimesMonotone(origW, 0.0, s);
    TimesMonotone(origH, 0.0, s);
  }

  /** For every frame and canvas size the resized image fits the canvas, fills it
      in one direction and is centred, to the pixel, in both. */
  lemma FitsCanvas(origW: nat, origH: nat, inW: nat, inH: nat)
    requires origW > 0 && origH > 0 && inW > 0 && inH > 0
    ensures var s := Scale(origW, origH, inW, inH);
      var newW, newH := Resized(origW, s), Resized(origH, s);
      && 0 <= newW && 0 <= Pad(inW, newW) && Pad(inW, newW) + newW <= inW
      && 0 <= newH && 0 <= Pad(inH, newH) && Pad(inH, newH) + newH <= inH
      && (newW == inW || newH == inH)
      && 0 <= (inW - newW) - 2 * Pad(inW, newW) <= 1
      && 0 <= (inH - newH) - 2 * Pad(inH, newH) <= 1
  {
    var s := Scale(origW, origH, inW, inH);
    ScaleFits(origW, origH, inW, inH);
    RoundBelow(origW as real * s, inW);
    RoundBelow(origW as real * s, 0);
    RoundBelow(origH as real * s, inH);
    RoundBelow(origH as real * s, 0);
  }

  lemma TimesOrder(v: real, b: real, scale: real)
    requires scale > 0.0
    ensures v > b <==> v * scale > b * scale
  {
    if v > b {
      assert v * scale > b * scale;
    } else {
      assert v * scale <= b * scale;
    }
  }

  lemma CompareQuotient(m: real, n: real, half: real)
    requires n > 0.0
    ensures m / n > half <==> m > half * n
  {
    var q := m / n;
    assert q * n == m;
    if q > half {
      assert q * n > half * n;
    } else {
      assert q * n <= half * n;
    }
  }

  /** Half a unit of a ratio, in integers. */
  lemma HalfTimes(q: real, a: nat, b: nat, c: nat)
    requires b > 0 && b as real * q == a as real
    ensures c as real * q > 0.5 <==> 2 * (c * a) > b
  {
    var m := c as real * q;
    assert m * b as real == c as real * (b as real * q) == (c * a) as real;
    TimesOrder(m, 0.5, b as real);
  }

  lemma SameQuotient(x: real, y: real, n: real)
    requires n > 0.0
    ensures x * (y / n) == (x / n) * y == x * y / n
  {
    var q, r := x / n, y / n;
    assert x == q * n && y == r * n;
    assert (q * n) * r == q * (r * n);
    assert x * y == (x * r) * n;
  }

  /** A side whose own ratio `p` is the lesser survives, as the other's says too. */
  lemma OwnRatioSurvives(side: nat, p: real, q: real, otherSide: nat, otherRoom: nat)
    requires otherSide > 0 && otherSide as real * q == otherRoom as real
    requires 1.0 <= side as real * p && p <= q
    ensures 2 * (side * otherRoom) > otherSide
  {
    TimesMonotone(side, p, q);
    HalfTimes(q, otherRoom, otherSide, side);
  }

  lemma ResizedPositive(side: nat, s: real)
    requires side as real * s >= 0.0
    ensures Resized(side, s) > 0 <==> side as real * s > 0.5
  {
    RoundPositive(side as real * s);
  }

  lemma LesserRatio(w: nat, h: nat, p: real, q: real, inW: nat, inH: nat)
    requires w > 0 && h > 0 && inW > 0 && inH > 0 && p <= q
    requires w as real * p == inW as real && h as real * q == inH as real && p > 0.0
    ensures Resized(w, p) > 0 && 2 * (w * inH) > h
    ensures Resized(h, p) > 0 <==> 2 * (h * inW) > w
  {
    TimesMonotone(h, 0.0, p);
    ResizedPositive(w, p);
    ResizedPositive(h, p);
    OwnRatioSurvives(w, p, q, h, inH);
    HalfTimes(p, inW, w, h);
  }

  /** Neither side of the resized image vanishes exactly when the frame is less
      than twice the canvas side times as long as it is wide, or wide as it is
      long; otherwise there is nothing to resize to. */
  lemma NothingVanishesIff(origW: nat, origH: nat, inW: nat, inH: nat)
    requires origW > 0 && origH > 0 && inW > 0 && inH > 0
    ensures var s := Scale(origW, origH, inW, inH);
      && (Resized(origW, s) > 0 <==> 2 * (origW * inH) > origH)
      && (Resized(origH, s) > 0 <==> 2 * (origH * inW) > origW)
  {
    var p, q := Quotient(inW, origW), Quotient(inH, origH);
    QuotientTimes(inW, origW);
    QuotientTimes(inH, origH);
    if p <= q {
      LesserRatio(origW, origH, p, q, inW, inH);
    } else {
      LesserRatio(origH, origW, q, p, inH, inW);
    }
  }

  /** Such a frame, one pixel high, for the 640x640 model. */
  lemma ThinFrameVanishes()
    ensures Resized(1, Scale(1281, 1, 640, 640)) == 0
  {
    NothingVanishesIff(1281, 1, 640, 640);
    FitsCanvas(1281, 1, 640, 640);
  }

  // ------------------------------------------------------------ mapping back

  function Clamp(n: int, last: int): int {
    Max(0, Min(n, last))
  }

  /** A canvas coordinate taken back to the frame. */
  function MapBack(c: real, pad: int, scale: real, side: nat): int
    requires scale > 0.0
  {
    Clamp(Round((c - pad as real) / scale), side - 1)
  }

  /** Where the resize puts a point: it stretches the frame to the rounded size. */
  function Placed(x: real, side: nat, size: int, pad: int): real
    requires side > 0
  {
    x * (size as real / side as real) + pad as real
  }

  /** Clamping to a range brings a number no farther from anything in the range. */
  lemma ClampCloser(n: int, last: int, x: real, d: real)
    requires 0.0 <= x <= last as real && -d <= n as real - x <= d
    ensures -d <= Clamp(n, last) as real - x <= d
  {
  }

  lemma Proportion(t: real, e: real)
    requires 0.0 <= t <= 1.0 && -0.5 <= e <= 0.5
    ensures -0.5 <= t * e <= 0.5
  {
    if e >= 0.0 {
      assert 0.0 <= t * e <= 1.0 * e;
    } else {
      assert 0.0 <= t * -e <= 1.0 * -e;
      assert t * -e == -(t * e);
    }
  }

  lemma DividedBound(v: real, scale: real)
    requires scale > 0.0 && -0.5 <= v * scale <= 0.5
    ensures -(0.5 / scale) <= v <= 0.5 / scale
  {
    var b := 0.5 / scale;
    assert b * scale == 0.5;
    assert -b * scale == -(b * scale);
    TimesOrder(v, b, scale);
    TimesOrder(-b, v, scale);
  }

  lemma InUnit(x: real, n: real)
    requires 0.0 <= x <= n && 0.0 < n
    ensures 0.0 <= x / n <= 1.0
  {
    CompareQuotient(x, n, 1.0);
    TimesOrder(0.0, x / n, n);
  }

  /** Stretching by size/n instead of `scale`, then undoing `scale`. */
  lemma StretchOffset(x: real, n: real, size: real, scale: real)
    requires n > 0.0 && scale > 0.0
    ensures (x * (size / n) / scale - x) * scale == (x / n) * (size - n * scale)
  {
    var t := x / n;
    SameQuotient(x, size, n);
    var u := t * size / scale;
    assert u * scale == t * size;
    assert t * (n * scale) == (t * n) * scale == x * scale;
    assert t * (size - n * scale) == t * size - t * (n * scale);
  }

  /** A stretch to a size that is off by at most half a pixel. */
  lemma StretchBound(x: real, n: real, size: real, scale: real)
    requires 0.0 <= x <= n && n > 0.0 && scale > 0.0 && -0.5 <= size - n * scale <= 0.5
    ensures -(0.5 / scale) <= x * (size / n) / scale - x <= 0.5 / scale
  {
    InUnit(x, n);
    Proportion(x / n, size - n * scale);
    StretchOffset(x, n, size, scale);
    DividedBound(x * (size / n) / scale - x, scale);
  }

  lemma RoundedNear(x: real, u: real, last: int, d: real)
    requires 0.0 <= x <= last as real && -d <= u - x <= d
    ensures -(d + 0.5) <= Clamp(Round(u), last) as real - x <= d + 0.5
  {
    RoundNear(u);
    ClampCloser(Round(u), last, x, d + 0.5);
  }

  lemma ResizedNear(side: nat, scale: real)
    ensures -0.5 <= Resized(side, scale) as real - side as real * scale <= 0.5
  {
    RoundNear(side as real * scale);
  }

  lemma PlacedBack(x: real, side: nat, size: int, scale: real, pad: int)
    requires side > 0 && scale > 0.0
    ensures MapBack(Placed(x, side, size, pad), pad, scale, side)
         == Clamp(Round(x * (size as real / side as real) / scale), side - 1)
  {
    var moved := x * (size as real / side as real);
    assert moved + pad as real - pad as real == moved;
  }

  lemma MapBackNear(x: real, side: nat, size: int, scale: real, pad: int, d: real)
    requires side > 0 && scale > 0.0 && 0.0 <= x <= (side - 1) as real
    requires -d <= x * (size as real / side as real) / scale - x <= d
    ensures -(d + 0.5) <= MapBack(Placed(x, side, size, pad), pad, scale, side) as real - x <= d + 0.5
  {
    PlacedBack(x, side, size, scale, pad);
    RoundedNear(x, x * (size as real / side as real) / scale, side - 1, d);
  }

  lemma SizedError(x: real, side: nat, size: int, scale: real, pad: int)
    requires side > 0 && scale > 0.0 && 0.0 <= x <= (side - 1) as real
    requires -0.5 <= size as real - side as real * scale <= 0.5
    ensures var e := 0.5 / scale + 0.5;
      -e <= MapBack(Placed(x, side, size, pad), pad, scale, side) as real - x <= e
  {
    StretchBound(x, side as real, size as real, scale);
    MapBackNear(x, side, size, scale, pad, 0.5 / scale);
  }

  /** Taking back a point that the resize placed errs by at most half a pixel more
      than half a canvas pixel's worth of frame. */
  lemma MapBackError(x: real, side: nat, scale: real, pad: int)
    requires side > 0 && scale > 0.0 && 0.0 <= x <= (side - 1) as real
    ensures var c := Placed(x, side, Resized(side, scale), pad);
      -(0.5 / scale + 0.5) <= MapBack(c, pad, scale, side) as real - x <= 0.5 / scale + 0.5
  {
    var size := Resized(side, scale);
    ResizedNear(side, scale);
    SizedError(x, side, size, scale, pad);
  }

  // ------------------------------------------------------------- detections

  /** A model output on the canvas: score and corners, in canvas fractions. */
  datatype Output = Output(score: real, ymin: real, xmin: real, ymax: real, xmax: real)

  datatype Found = Found(score: real, box: Box)

  /** The fit of a frame into the model's canvas. */
  datatype Fit = Fit(origW: nat, origH: nat, inW: nat, inH: nat)

  ghost predicate Real(f: Fit) {
    f.origW > 0 && f.origH > 0 && f.inW > 0 && f.inH > 0
  }

  function Corner(v: real, room: nat, side: nat, scale: real): int
    requires scale > 0.0
  {
    MapBack(v * room as real, Pad(room, Resized(side, scale)), scale, side)
  }

  function ToFrame(f: Fit, o: Output): Box
    requires Real(f)
  {
    ScaleFits(f.origW, f.origH, f.inW, f.inH);
    var s := Scale(f.origW, f.origH, f.inW, f.inH);
    var x1, y1 := Corner(o.xmin, f.inW, f.origW, s), Corner(o.ymin, f.inH, f.origH, s);
    var x2, y2 := Corner(o.xmax, f.inW, f.origW, s), Corner(o.ymax, f.inH, f.origH, s);
    Box(x1, y1, Max(1, x2 - x1), Max(1, y2 - y1))
  }

  /** Whatever the model puts out, the box returned lies inside the frame. */
  lemma ToFrameInFrame(f: Fit, o: Output)
    requires Real(f)
    ensures InFrame(ToFrame(f, o), f.origW, f.origH)
  {
  }

  /** Where a frame coordinate lies on the canvas, as a fraction of it. */
  function OnCanvas(x: real, room: nat, side: nat, scale: real): real
    requires room > 0 && side > 0
  {
    Placed(x, side, Resized(side, scale), Pad(room, Resized(side, scale))) / room as real
  }

  /** What a perfect model puts out for a region of the frame. */
  function Perfect(f: Fit, score: real, x1: real, y1: real, x2: real, y2: real): Output
    requires Real(f)
  {
    var s := Scale(f.origW, f.origH, f.inW, f.inH);
    Output(score, OnCanvas(y1, f.inH, f.origH, s), OnCanvas(x1, f.inW, f.origW, s),
           OnCanvas(y2, f.inH, f.origH, s), OnCanvas(x2, f.inW, f.origW, s))
  }

  predicate Near(a: real, b: real, d: real) {
    -d <= a - b <= d
  }

  lemma CornerAt(v: real, c: real, room: nat, side: nat, scale: real)
    requires scale > 0.0 && v * room as real == c
    ensures Corner(v, room, side, scale) == MapBack(c, Pad(room, Resized(side, scale)), scale, side)
  {
  }

  lemma WholeAgain(c: real, n: real)
    requires n > 0.0
    ensures c / n * n == c
  {
  }

  lemma CornerError(x: real, room: nat, side: nat, scale: real)
    requires room > 0 && side > 0 && scale > 0.0 && 0.0 <= x <= (side - 1) as real
    ensures Near(Corner(OnCanvas(x, room, side, scale), room, side, scale) as real, x, 0.5 / scale + 0.5)
  {
    var pad := Pad(room, Resized(side, scale));
    var c, v := Placed(x, side, Resized(side, scale), pad), OnCanvas(x, room, side, scale);
    WholeAgain(c, room as real);
    assert v == c / room as real && v * room as real == c;
    CornerAt(v, c, room, side, scale);
    MapBackError(x, side, scale, pad);
  }

  lemma SpanError(a: int, b: int, x: real, y: real, d: real)
    requires Near(a as real, x, d) && Near(b as real, y, d) && y - x >= 1.0
    ensures Near(Max(1, b - a) as real, y - x, 2.0 * d)
  {
  }

  lemma AxisRoundTrip(x1: real, x2: real, room: nat, side: nat, scale: real)
    requires room > 0 && side > 0 && scale > 0.0 && 0.0 <= x1 && x1 + 1.0 <= x2 <= (side - 1) as real
    ensures var a := Corner(OnCanvas(x1, room, side, scale), room, side, scale);
      var b := Corner(OnCanvas(x2, room, side, scale), room, side, scale);
      var e := 0.5 / scale + 0.5;
      Near(a as real, x1, e) && Near(Max(1, b - a) as real, x2 - x1, 2.0 * e)
  {
    CornerError(x1, room, side, scale);
    CornerError(x2, room, side, scale);
    var a := Corner(OnCanvas(x1, room, side, scale), room, side, scale);
    var b := Corner(OnCanvas(x2, room, side, scale), room, side, scale);
    SpanError(a, b, x1, x2, 0.5 / scale + 0.5);
  }

  /** Round trip: a region the model finds exactly comes back, after letterboxing
      and its inverse, in its place and size, each corner to within the error of
      one coordinate. */
  lemma BoxRoundTrip(f: Fit, score: real, x1: real, y1: real, x2: real, y2: real)
    requires Real(f)
    requires 0.0 <= x1 && x1 + 1.0 <= x2 <= (f.origW - 1) as real
    requires 0.0 <= y1 && y1 + 1.0 <= y2 <= (f.origH - 1) as real
    ensures var e := 0.5 / Scale(f.origW, f.origH, f.inW, f.inH) + 0.5;
      var b := ToFrame(f, Perfect(f, score, x1, y1, x2, y2));
      && Near(b.x as real, x1, e) && Near(b.width as real, x2 - x1, 2.0 * e)
      && Near(b.y as real, y1, e) && Near(b.height as real, y2 - y1, 2.0 * e)
  {
    var s := Scale(f.origW, f.origH, f.inW, f.inH);
    ScaleFits(f.origW, f.origH, f.inW, f.inH);
    AxisRoundTrip(x1, x2, f.inW, f.origW, s);
    AxisRoundTrip(y1, y2, f.inH, f.origH, s);
  }

  /** The outputs that reach the threshold, taken back to the frame. */
  function Detections(f: Fit, outputs: seq<Output>, threshold: real): seq<Found>
    requires Real(f)
  {
    if outputs == [] then []
    else
      var last := outputs[|outputs| - 1];
      Detections(f, outputs[..|outputs| - 1], threshold)
        + (if last.score < threshold then [] else [Found(last.score, ToFrame(f, last))])
  }

  lemma {:induction false} DetectionsInFrame(f: Fit, outputs: seq<Output>, threshold: real)
    requires Real(f)
    ensures forall k :: 0 <= k < |Detections(f, outputs, threshold)| ==>
      var d := Detections(f, outputs, threshold)[k]; InFrame(d.box, f.origW, f.origH) && d.score >= threshold
  {
    if outputs != [] {
      DetectionsInFrame(f, outputs[..|outputs| - 1], threshold);
      ToFrameInFrame(f, outputs[|outputs| - 1]);
    }
  }

  const SCORE: Found -> real := (d: Found) => d.score

  /** Sorting keeps every detection where it was found. */
  lemma SortedByScore(f: Fit, dets: seq<Found>, threshold: real)
    requires forall d :: d in dets ==> InFrame(d.box, f.origW, f.origH) && d.score >= threshold
    ensures var sorted := Sorting.SortByDescending(dets, SCORE);
      && (forall i, j :: 0 <= i < j < |sorted| ==> sorted[i].score >= sorted[j].score)
      && multiset(sorted) == multiset(dets)
      && forall k :: 0 <= k < |sorted| ==> InFrame(sorted[k].box, f.origW, f.origH) && sorted[k].score >= threshold
  {
    var sorted := Sorting.SortByDescending(dets, SCORE);
    Sorting.SortIsStable(dets, SCORE, 0.0);
    Sorting.SameMembers(dets, SCORE);
    forall k | 0 <= k < |sorted|
      ensures sorted[k] in dets
    {
      assert sorted[k] in sorted;
    }
    forall i, j | 0 <= i < j < |sorted|
      ensures sorted[i].score >= sorted[j].score
    {
      assert SCORE(sorted[i]) >= SCORE(sorted[j]);
    }
  }

  /** `detect`, from the model's outputs on: those over the threshold, sorted by
      descending score, equal scores in the model's order. */
  method Detect(f: Fit, outputs: seq<Output>, threshold: real) returns (dets: seq<Found>)
    requires f.origW > 0 && f.origH > 0 && f.inW > 0 && f.inH > 0
    ensures dets == Sorting.SortByDescending(Detections(f, outputs, threshold), SCORE)
    ensures forall i, j :: 0 <= i < j < |dets| ==> dets[i].score >= dets[j].score
    ensures multiset(dets) == multiset(Detections(f, outputs, threshold))
    ensures forall k :: 0 <= k < |dets| ==> InFrame(dets[k].box, f.origW, f.origH) && dets[k].score >= threshold
  {
    dets := [];
    for i := 0 to |outputs|
      invariant dets == Detections(f, outputs[..i], threshold)
    {
      assert outputs[..i + 1][..i] == outputs[..i];
      if outputs[i].score >= threshold {
        dets := dets + [Found(outputs[i].score, ToFrame(f, outputs[i]))];
      }
    }
    assert outputs[..|outputs|] == outputs;
    DetectionsInFrame(f, outputs, threshold);
    SortedByScore(f, dets, threshold);
    dets := Sorting.SortByDescending(dets, SCORE);
  }

  // ------------------------------------------------------------- rescaling

  /** One and a half times a coordinate, rounded. */
  function Up(n: int): int {
    Round(n as real * 1.5)
  }

  /** In groups of four: exact for even numbers, up by half for 1 and down by half
      for 3. */
  lemma UpByFours(n: nat)
    ensures 2 * Up(n) == 3 * n + Extra(n)
  {
    UpAt(n, n / 4, n % 4);
  }

  lemma UpAt(n: nat, q: nat, r: nat)
    requires r < 4 && n == 4 * q + r
    ensures Up(n) == 6 * q + [0, 2, 3, 4][r]
  {
    var x := n as real * 1.5;
    assert x == (6 * q) as real + r as real * 1.5;
    assert x.Floor == 6 * q + [0, 1, 3, 4][r];
  }

  function UpBox(b: Box): Box {
    Box(Up(b.x), Up(b.y), Up(b.width), Up(b.height))
  }

  ghost predicate AlwaysFits(width: nat) {
    forall x: nat, w: nat :: x + w <= width ==> 2 * (Up(x) + Up(w)) <= 3 * width
  }

  /** What rounding adds to three halves of `n`, in halves. */
  function Extra(n: nat): int {
    if n % 4 == 1 then 1 else if n % 4 == 3 then -1 else 0
  }

  lemma ExtraFits(x: nat, w: nat, width: nat)
    requires x + w <= width && width % 4 == 0
    ensures 3 * x + Extra(x) + 3 * w + Extra(w) <= 3 * width
  {
  }

  lemma UpFits(x: nat, w: nat, width: nat)
    requires x + w <= width && width % 4 == 0
    ensures 2 * (Up(x) + Up(w)) <= 3 * width
  {
    UpByFours(x);
    UpByFours(w);
    ExtraFits(x, w, width);
  }

  /** Position and length are rounded apart; together they stay inside one and a
      half times a frame exactly when its width is a multiple of four. */
  lemma RescaleFitsIff(width: nat)
    ensures AlwaysFits(width) <==> width % 4 == 0
  {
    if width % 4 == 0 {
      forall x: nat, w: nat | x + w <= width
        ensures 2 * (Up(x) + Up(w)) <= 3 * width
      {
        UpFits(x, w, width);
      }
    } else {
      TooFar(width);
    }
  }

  /** In any other width some box overshoots: the whole frame, or one pixel in and
      the rest of it. */
  lemma TooFar(width: nat)
    requires width % 4 != 0
    ensures var x := if width % 4 == 1 then 0 else 1;
      2 * (Up(x) + Up(width - x)) > 3 * width
    ensures !AlwaysFits(width)
  {
    var x := if width % 4 == 1 then 0 else 1;
    UpByFours(x);
    UpByFours(width - x);
    assert Extra(x) + Extra(width - x) > 0;
  }

  /** The camera's boxes, found in 1280x720 and scaled up, lie inside 1920x1080. */
  lemma RescaledInFrame(b: Box)
    requires InFrame(b, 1280, 720)
    ensures InFrame(UpBox(b), 1920, 1080)
  {
    UpFits(b.x, b.width, 1280);
    UpFits(b.y, b.height, 720);
    UpPositive(b.x);
    UpPositive(b.y);
    UpPositive(b.width);
    UpPositive(b.height);
  }

  lemma UpPositive(n: nat)
    ensures 0 <= Up(n) && (1 <= n ==> 1 <= Up(n))
  {
    UpByFours(n);
  }
}
