/**
 * The arithmetic of the touch handlers: the drag distance along the
 * slider's axis (`_getTouchDistance`), JavaScript's `Math.round`, the
 * speed test and the slide a finished swipe goes to.  Pixel samples and
 * sizes are integers and times are integer milliseconds; the thresholds,
 * a fraction of the frame width times that width, are reals.
 */
module Gesture {
  import opened Arithmetic

  /** A drag: `along` the slider's axis and `across` it. */
  datatype Distance = Distance(along: int, across: int)

  /** `_getTouchDistance`: end minus start, with the axes swapped for a vertical slider. */
  function TouchDistance(horizontal: bool, startX: int, startY: int, endX: int, endY: int): Distance {
    var x := endX - startX;
    var y := endY - startY;
    if horizontal then Distance(x, y) else Distance(y, x)
  }

  /** A vertical slider reads a drag exactly as a horizontal one reads the mirrored drag. */
  lemma VerticalIsMirroredHorizontal(startX: int, startY: int, endX: int, endY: int)
    ensures TouchDistance(false, startX, startY, endX, endY) == TouchDistance(true, startY, startX, endY, endX)
  {
  }

  /** The distance measures the drag only: moving start and end by the same offset changes nothing. */
  lemma TouchDistanceIgnoresPlace(horizontal: bool, startX: int, startY: int, endX: int, endY: int, ox: int, oy: int)
    ensures TouchDistance(horizontal, startX + ox, startY + oy, endX + ox, endY + oy)
            == TouchDistance(horizontal, startX, startY, endX, endY)
  {
  }

  /**
   * A drag in two legs measures the sum of the legs, and the drag back
   * measures the opposite: the distance is a displacement.
   */
  lemma TouchDistanceAdds(horizontal: bool, x0: int, y0: int, x1: int, y1: int, x2: int, y2: int)
    ensures var ab := TouchDistance(horizontal, x0, y0, x1, y1);
            var bc := TouchDistance(horizontal, x1, y1, x2, y2);
            var ac := TouchDistance(horizontal, x0, y0, x2, y2);
            && ac == Distance(ab.along + bc.along, ab.across + bc.across)
            && TouchDistance(horizontal, x1, y1, x0, y0) == Distance(-ab.along, -ab.across)
  {
  }

  /** With no movement across the axis the whole drag counts along it, whatever the orientation. */
  lemma TouchDistanceAlongAxis(horizontal: bool, startX: int, startY: int, endX: int, endY: int)
    requires if horizontal then endY == startY else endX == startX
    ensures var d := TouchDistance(horizontal, startX, startY, endX, endY);
            && d.across == 0
            && d.along == (if horizontal then endX - startX else endY - startY)
  {
  }

  function Abs(x: int): nat {
    if x < 0 then -x else x
  }

  /** `Math.round(a / b)` for b > 0: the nearest integer, halves rounded up. */
  function JsRound(a: int, b: int): int
    requires b > 0
  {
    (2 * a + b) / (2 * b)
  }

  /** The rounded quotient r satisfies r - 1/2 <= a / b < r + 1/2. */
  lemma JsRoundNearest(a: int, b: int)
    requires b > 0
    ensures var r := JsRound(a, b); 2 * b * r - b <= 2 * a < 2 * b * r + b
  {
    var r := JsRound(a, b);
    assert 2 * b * r <= 2 * a + b < 2 * b * r + 2 * b;
  }

  /** Rounding keeps the sign of the quotient, and gives zero below one half. */
  lemma JsRoundSign(a: int, b: int)
    requires b > 0
    ensures a > 0 ==> JsRound(a, b) >= 0
    ensures a < 0 ==> JsRound(a, b) <= 0
    ensures -b <= 2 * a < b ==> JsRound(a, b) == 0
  {
    var r := JsRound(a, b);
    JsRoundNearest(a, b);
    if r >= 1 {
      MulLe(1, r, 2 * b);
    } else if r <= -1 {
      MulLe(r, -1, 2 * b);
    }
  }

  /** Halves go up: round(1.5) is 2 and round(-1.5) is -1. */
  lemma JsRoundHalves()
    ensures JsRound(3, 2) == 2 && JsRound(-3, 2) == -1
  {
  }

  /**
   * `|dx| / elapsed * 1000 > threshold`, compared without division: a zero
   * elapsed time gives Infinity for a drag and NaN (never greater) for none.
   */
  function SpeedExceeds(absDx: nat, elapsed: int, threshold: real): bool {
    if elapsed > 0 then (absDx * 1000) as real > threshold * elapsed as real
    else if elapsed == 0 then absDx > 0
    else ((absDx * 1000) as real) < threshold * elapsed as real
  }

  /**
   * The test is the source's speed test: for a non-zero elapsed time,
   * |dx| / elapsed * 1000 exceeds the threshold; for none, the speed is
   * Infinity when the finger moved and NaN when it did not.
   */
  lemma SpeedExceedsMeansFaster(absDx: nat, elapsed: int, threshold: real)
    ensures elapsed != 0 ==>
              (SpeedExceeds(absDx, elapsed, threshold) <==> (absDx as real) / (elapsed as real) * 1000.0 > threshold)
    ensures elapsed == 0 ==> (SpeedExceeds(absDx, elapsed, threshold) <==> absDx > 0)
  {
    if elapsed != 0 {
      var e := elapsed as real;
      var speed := (absDx as real) / e * 1000.0;
      assert speed * e == (absDx * 1000) as real;
      if elapsed > 0 {
        assert speed > threshold <==> speed * e > threshold * e;
      } else {
        assert speed > threshold <==> speed * e < threshold * e;
      }
    }
  }

  /** A swipe is accepted when it is long enough or fast enough. */
  predicate Accepted(dx: int, elapsed: int, distanceThreshold: real, speedThreshold: real) {
    Abs(dx) as real > distanceThreshold || SpeedExceeds(Abs(dx), elapsed, speedThreshold)
  }

  /**
   * The index a finished swipe passes to `goTo` from `current`: unchanged
   * when rejected; otherwise |round(dx / size)| slides against the drag,
   * raised to one slide for a fast swipe that rounds to none.
   */
  function SwipeTarget(current: int, dx: int, elapsed: int, size: int, distanceThreshold: real, speedThreshold: real): int
    requires size > 0
  {
    if !Accepted(dx, elapsed, distanceThreshold, speedThreshold) then current
    else
      var fast := SpeedExceeds(Abs(dx), elapsed, speedThreshold);
      var n := Abs(JsRound(dx, size));
      var count := if n < 1 && fast then 1 else n;
      current + (if dx > 0 then -1 else 1) * count
  }

  /** A rejected swipe goes back to the current slide. */
  lemma RejectedSwipeStays(current: int, dx: int, elapsed: int, size: int, distanceThreshold: real, speedThreshold: real)
    requires size > 0
    requires !Accepted(dx, elapsed, distanceThreshold, speedThreshold)
    ensures SwipeTarget(current, dx, elapsed, size, distanceThreshold, speedThreshold) == current
  {
  }

  /**
   * An accepted swipe moves against the drag (a drag towards the end
   * reveals earlier slides) by the number of slide sizes dragged, rounded
   * to the nearest: |dx| / size - 1/2 <= moved <= |dx| / size + 1/2;
   * or by exactly one slide when it was fast and that number is zero.
   */
  lemma AcceptedSwipeMoves(current: int, dx: int, elapsed: int, size: int, distanceThreshold: real, speedThreshold: real)
    requires size > 0
    requires Accepted(dx, elapsed, distanceThreshold, speedThreshold)
    ensures var t := SwipeTarget(current, dx, elapsed, size, distanceThreshold, speedThreshold);
            && (dx > 0 ==> t <= current)
            && (dx <= 0 ==> t >= current)
            && var moved := Abs(t - current);
               || 2 * size * moved - size <= 2 * Abs(dx) <= 2 * size * moved + size
               || (moved == 1 && SpeedExceeds(Abs(dx), elapsed, speedThreshold) && 2 * Abs(dx) <= size)
  {
    var q := JsRound(dx, size);
    JsRoundNearest(dx, size);
    JsRoundSign(dx, size);
    if q < 0 {
      assert 2 * size * Abs(q) == -(2 * size * q);
    }
  }

  /** A fast flick shorter than half a slide moves exactly one slide. */
  lemma FastFlickMovesOne(current: int, dx: int, elapsed: int, size: int, distanceThreshold: real, speedThreshold: real)
    requires size > 0 && -size <= 2 * dx < size
    requires SpeedExceeds(Abs(dx), elapsed, speedThreshold)
    ensures var t := SwipeTarget(current, dx, elapsed, size, distanceThreshold, speedThreshold);
            t == (if dx > 0 then current - 1 else current + 1)
  {
    JsRoundSign(dx, size);
  }

  /**
   * Slides 100 px wide, thresholds 30 px and 40 px/s: a 10 px flick in
   * 200 ms (50 px/s) goes to the next slide; the same drag in 500 ms
   * (20 px/s) stays; a 160 px drag back goes two slides back.
   */
  lemma SwipeExamples()
    ensures SwipeTarget(3, -10, 200, 100, 30.0, 40.0) == 4
    ensures SwipeTarget(3, -10, 500, 100, 30.0, 40.0) == 3
    ensures SwipeTarget(3, 160, 2000, 100, 30.0, 40.0) == 1
  {
  }
}
