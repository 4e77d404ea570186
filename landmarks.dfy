/**
 * From the detector's hands to the control signal: the landmark list of the
 * first hand in pixels, the thumb and index fingertips, and their distance.
 */
module Landmarks {
  import opened Numeric
  import opened Canvas

  /** A landmark as the detector reports it, x and y relative to the frame size. */
  datatype Point = Point(x: real, y: real)

  /** One detected hand: its landmarks in the order of the anatomical schema. */
  type Hand = seq<Point>

  /** An entry [id, cx, cy] of the landmark list, in pixels. */
  datatype Landmark = Landmark(id: int, cx: int, cy: int)

  const LandmarkCount := 21
  const ThumbTip := 4
  const IndexTip := 8

  /** The entry for landmark `id`: [id, int(x * width), int(y * height)]. */
  function ToLandmark(id: int, p: Point, width: int, height: int): (lm: Landmark)
    ensures lm.id == id
    ensures 0.0 <= p.x <= 1.0 && 0 <= width ==> 0 <= lm.cx <= width
    ensures 0.0 <= p.y <= 1.0 && 0 <= height ==> 0 <= lm.cy <= height
  {
    PixelInFrame(p.x, width);
    PixelInFrame(p.y, height);
    Landmark(id, Trunc(p.x * width as real), Trunc(p.y * height as real))
  }

  /**
   * The landmark list of a frame: empty when no hand is detected, otherwise
   * one entry per landmark of the FIRST hand, numbered by position, with
   * coordinates int(x * width) and int(y * height).
   */
  method BuildLandmarkList(hands: seq<Hand>, width: int, height: int) returns (lmList: seq<Landmark>)
    ensures hands == [] ==> lmList == []
    ensures hands != [] ==> |lmList| == |hands[0]|
    ensures hands != [] ==> forall k :: 0 <= k < |lmList| ==>
      lmList[k] == ToLandmark(k, hands[0][k], width, height)
  {
    lmList := [];
    if hands != [] {
      var myHand := hands[0];
      for id := 0 to |myHand|
        invariant |lmList| == id
        invariant forall k :: 0 <= k < id ==> lmList[k] == ToLandmark(k, myHand[k], width, height)
      {
        lmList := lmList + [ToLandmark(id, myHand[id], width, height)];
      }
    }
  }

  /** A relative coordinate in [0, 1] becomes a pixel coordinate in [0, size]. */
  lemma PixelInFrame(x: real, size: int)
    ensures 0.0 <= x <= 1.0 && 0 <= size ==> 0 <= Trunc(x * size as real) <= size
  {
    if 0.0 <= x <= 1.0 && 0 <= size {
      var v := x * size as real;
      assert 0.0 <= v <= size as real by {
        UnitScale(x, size as real);
      }
      TruncBetween(v, 0, size);
    }
  }

  /** The pixel position of landmark `id` of a hand. */
  function Tip(hand: Hand, id: int, width: int, height: int): (px: Pixel)
    requires 0 <= id < |hand|
    ensures 0.0 <= hand[id].x <= 1.0 && 0 <= width ==> 0 <= px.x <= width
    ensures 0.0 <= hand[id].y <= 1.0 && 0 <= height ==> 0 <= px.y <= height
  {
    var lm := ToLandmark(id, hand[id], width, height);
    Pixel(lm.cx, lm.cy)
  }

  /** The squared Euclidean distance between two pixels. */
  function SqDist(p: Pixel, q: Pixel): int
  {
    (q.x - p.x) * (q.x - p.x) + (q.y - p.y) * (q.y - p.y)
  }

  /** `length` is math.hypot of the offset from p to q, taken exactly. */
  predicate IsHypot(p: Pixel, q: Pixel, length: real)
  {
    0.0 <= length && length * length == SqDist(p, q) as real
  }

  /** The distance is determined by the two points. */
  lemma HypotUnique(p: Pixel, q: Pixel, l1: real, l2: real)
    requires IsHypot(p, q, l1) && IsHypot(p, q, l2)
    ensures l1 == l2
  {
    assert (l1 - l2) * (l1 + l2) == 0.0;
    if l1 + l2 == 0.0 {
      assert l1 == 0.0;
    } else {
      NonZeroProduct(l1 - l2, l1 + l2);
    }
  }

  lemma NonZeroProduct(a: real, b: real)
    requires a * b == 0.0 && b != 0.0
    ensures a == 0.0
  {
    assert a == (a * b) / b;
  }

  /** Comparing the distance with a non-negative bound is comparing its square. */
  lemma HypotBelow(p: Pixel, q: Pixel, length: real, bound: real)
    requires IsHypot(p, q, length) && 0.0 <= bound
    ensures length < bound <==> SqDist(p, q) as real < bound * bound
  {
    var d := SqDist(p, q) as real;
    assert d == length * length;
    SquareLess(length, bound);
    SquareLess(bound, length);
  }

  lemma SquareLess(a: real, b: real)
    requires 0.0 <= a && 0.0 <= b
    ensures a < b ==> a * a < b * b
  {
    if a < b {
      var aa, ab, bb := a * a, a * b, b * b;
      assert aa <= ab;
      assert ab < bb;
    }
  }

  /** A distance whose square is a square n * n is n. */
  lemma HypotOfSquare(p: Pixel, q: Pixel, length: real, n: nat)
    requires IsHypot(p, q, length) && SqDist(p, q) == n * n
    ensures length == n as real
  {
    assert IsHypot(p, q, n as real);
    HypotUnique(p, q, length, n as real);
  }
}
