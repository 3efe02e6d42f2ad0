/**
 * The gesture classifier: stateless tests over one hand's 21 landmarks
 * (0 = wrist, fingertips 4/8/12/16/20). A finger is extended when its tip is
 * more than 1.18 times as far from the wrist as its middle joint, and curled
 * when it is less than 1.05 times as far.
 *
 * The source compares Math.hypot distances; this model compares squared
 * distances against the squared factors, and FingerTestsMatchHypot shows the
 * two decide identically.
 */
module Gestures {
  import opened Geometry

  /** One hand's landmarks, in the hand model's fixed index order. */
  type Hand = seq<Point>

  /** Number of landmarks the hand tracker reports per hand. */
  const HandLandmarkCount: nat := 21

  /** Hands as the hand tracker reports them: 21 landmarks each. */
  predicate HandsWellFormed(hands: seq<Hand>)
  {
    forall i :: 0 <= i < |hands| ==> |hands[i]| >= HandLandmarkCount
  }

  /** Tip distance above this multiple of the joint distance: extended. */
  const ExtendedRatio: real := 1.18
  /** Tip distance below this multiple of the joint distance: curled. */
  const CurledRatio: real := 1.05

  /** Squared Euclidean distance. */
  function SqDist(a: Point, b: Point): (d: real)
    ensures d >= 0.0
  {
    (a.x - b.x) * (a.x - b.x) + (a.y - b.y) * (a.y - b.y)
  }

  predicate FingerExtended(hand: Hand, tipIdx: nat, pipIdx: nat, wristIdx: nat := 0)
    requires tipIdx < |hand| && pipIdx < |hand| && wristIdx < |hand|
  {
    SqDist(hand[tipIdx], hand[wristIdx]) > ExtendedRatio * ExtendedRatio * SqDist(hand[pipIdx], hand[wristIdx])
  }

  predicate FingerCurled(hand: Hand, tipIdx: nat, pipIdx: nat, wristIdx: nat := 0)
    requires tipIdx < |hand| && pipIdx < |hand| && wristIdx < |hand|
  {
    SqDist(hand[tipIdx], hand[wristIdx]) < CurledRatio * CurledRatio * SqDist(hand[pipIdx], hand[wristIdx])
  }

  /** For nonnegative reals, squaring preserves strict order in both directions. */
  lemma SquareOrder(u: real, v: real)
    requires u >= 0.0 && v >= 0.0
    ensures u < v <==> u * u < v * v
  {
    if u < v {
      assert u * (v - u) >= 0.0;
      assert v * (v - u) > 0.0;
      assert v * v - u * u == u * (v - u) + v * (v - u);
    } else {
      assert v * (u - v) >= 0.0;
      assert u * (u - v) >= 0.0;
      assert u * u - v * v == v * (u - v) + u * (u - v);
    }
  }

  /**
   * The squared comparisons decide exactly as the source's comparisons of
   * hypot distances: given any nonnegative tipDist and pipDist whose squares
   * are the squared distances from the wrist.
   */
  lemma FingerTestsMatchHypot(hand: Hand, tipIdx: nat, pipIdx: nat, tipDist: real, pipDist: real)
    requires tipIdx < |hand| && pipIdx < |hand| && 0 < |hand|
    requires tipDist >= 0.0 && tipDist * tipDist == SqDist(hand[tipIdx], hand[0])
    requires pipDist >= 0.0 && pipDist * pipDist == SqDist(hand[pipIdx], hand[0])
    ensures FingerExtended(hand, tipIdx, pipIdx) <==> tipDist > pipDist * ExtendedRatio
    ensures FingerCurled(hand, tipIdx, pipIdx) <==> tipDist < pipDist * CurledRatio
  {
    SquareOrder(pipDist * ExtendedRatio, tipDist);
    assert (pipDist * ExtendedRatio) * (pipDist * ExtendedRatio)
        == ExtendedRatio * ExtendedRatio * (pipDist * pipDist);
    SquareOrder(tipDist, pipDist * CurledRatio);
    assert (pipDist * CurledRatio) * (pipDist * CurledRatio)
        == CurledRatio * CurledRatio * (pipDist * pipDist);
  }

  /** No finger is both extended and curled: the two thresholds leave a gap between them. */
  lemma ExtendedExcludesCurled(hand: Hand, tipIdx: nat, pipIdx: nat)
    requires tipIdx < |hand| && pipIdx < |hand| && 0 < |hand|
    ensures !(FingerExtended(hand, tipIdx, pipIdx) && FingerCurled(hand, tipIdx, pipIdx))
  {
  }

  /** Fingertips, thumb to pinky, and the joints isFist measures them against. */
  const FingerTips: seq<nat> := [4, 8, 12, 16, 20]
  const FingerPips: seq<nat> := [3, 6, 10, 14, 18]

  /** Finger i (0 = thumb .. 4 = pinky) is curled, as isFist tests it. */
  predicate Curled(hand: Hand, i: nat)
    requires |hand| >= HandLandmarkCount && i < 5
  {
    FingerCurled(hand, FingerTips[i], FingerPips[i])
  }

  /** How many of the first k fingers are curled: isFist's counter after k iterations. */
  function CurledCount(hand: Hand, k: nat): (n: nat)
    requires |hand| >= HandLandmarkCount && k <= 5
    ensures n <= k
  {
    if k == 0 then 0 else CurledCount(hand, k - 1) + (if Curled(hand, k - 1) then 1 else 0)
  }

  /** A fist: at least four of the five fingers curled; a short landmark list is never a fist. */
  predicate IsFist(landmarks: Hand)
  {
    if |landmarks| < HandLandmarkCount then false else CurledCount(landmarks, 5) >= 4
  }

  /** The set of curled fingers among the first k. */
  ghost function CurledFingers(hand: Hand, k: nat): set<nat>
    requires |hand| >= HandLandmarkCount && k <= 5
  {
    set i: nat | i < k && Curled(hand, i)
  }

  lemma {:induction false} CurledCountIsCardinality(hand: Hand, k: nat)
    requires |hand| >= HandLandmarkCount && k <= 5
    ensures CurledCount(hand, k) == |CurledFingers(hand, k)|
  {
    if k > 0 {
      CurledCountIsCardinality(hand, k - 1);
      var prev := CurledFingers(hand, k - 1);
      var next := if Curled(hand, k - 1) then prev + {k - 1} else prev;
      assert k - 1 !in prev;
      forall i: nat
        ensures i in CurledFingers(hand, k) <==> i in next
      {
        if i < k - 1 {
          assert i in CurledFingers(hand, k) <==> Curled(hand, i);
          assert i in prev <==> Curled(hand, i);
        }
      }
      assert CurledFingers(hand, k) == next;
    } else {
      assert CurledFingers(hand, 0) == {};
    }
  }

  /** isFist is false below 21 landmarks and otherwise true exactly when at least four fingers are curled. */
  lemma IsFistCharacterized(landmarks: Hand)
    ensures |landmarks| < HandLandmarkCount ==> !IsFist(landmarks)
    ensures |landmarks| >= HandLandmarkCount ==>
              (IsFist(landmarks) <==> |CurledFingers(landmarks, 5)| >= 4)
  {
    if |landmarks| >= HandLandmarkCount {
      CurledCountIsCardinality(landmarks, 5);
    }
  }

  /** Peace sign: index and middle extended, ring and pinky curled. */
  predicate IsPeaceGesture(hand: Hand)
    requires |hand| >= HandLandmarkCount
  {
    FingerExtended(hand, 8, 6) && FingerExtended(hand, 12, 10)
      && FingerCurled(hand, 16, 14) && FingerCurled(hand, 20, 18)
  }

  /** The obscene gesture: middle extended, index, ring and pinky curled. */
  predicate IsMiddleFingerGesture(hand: Hand)
    requires |hand| >= HandLandmarkCount
  {
    FingerExtended(hand, 12, 10) && FingerCurled(hand, 8, 6)
      && FingerCurled(hand, 16, 14) && FingerCurled(hand, 20, 18)
  }

  /** No hand shows both gestures: peace needs the index finger extended, the other needs it curled. */
  lemma PeaceExcludesMiddleFinger(hand: Hand)
    requires |hand| >= HandLandmarkCount
    ensures !(IsPeaceGesture(hand) && IsMiddleFingerGesture(hand))
  {
    ExtendedExcludesCurled(hand, 8, 6);
  }

  /** A peace sign is never a fist: two fingers are extended, so at most three are curled. */
  lemma PeaceIsNotFist(hand: Hand)
    requires |hand| >= HandLandmarkCount
    ensures IsPeaceGesture(hand) ==> !IsFist(hand)
  {
    if IsPeaceGesture(hand) {
      ExtendedExcludesCurled(hand, 8, 6);
      ExtendedExcludesCurled(hand, 12, 10);
      assert FingerTips[1] == 8 && FingerPips[1] == 6 && FingerTips[2] == 12 && FingerPips[2] == 10;
      assert !Curled(hand, 1) && !Curled(hand, 2);
      assert CurledCount(hand, 2) == CurledCount(hand, 1);
      assert CurledCount(hand, 3) == CurledCount(hand, 1);
      assert CurledCount(hand, 5) <= CurledCount(hand, 3) + 2;
    }
  }

  /**
   * The obscene gesture is also a fist exactly when the thumb is curled, so
   * one hand can switch the theme and start the punishment in the same frame.
   */
  lemma MiddleFingerFistOverlap(hand: Hand)
    requires |hand| >= HandLandmarkCount
    ensures IsMiddleFingerGesture(hand) ==> (IsFist(hand) <==> Curled(hand, 0))
  {
    if IsMiddleFingerGesture(hand) {
      ExtendedExcludesCurled(hand, 12, 10);
      assert FingerTips[1] == 8 && FingerPips[1] == 6 && FingerTips[2] == 12 && FingerPips[2] == 10;
      assert FingerTips[3] == 16 && FingerPips[3] == 14 && FingerTips[4] == 20 && FingerPips[4] == 18;
      assert Curled(hand, 1) && !Curled(hand, 2) && Curled(hand, 3) && Curled(hand, 4);
      assert CurledCount(hand, 2) == CurledCount(hand, 1) + 1;
      assert CurledCount(hand, 3) == CurledCount(hand, 1) + 1;
      assert CurledCount(hand, 4) == CurledCount(hand, 1) + 2;
      assert CurledCount(hand, 5) == CurledCount(hand, 1) + 3;
    }
  }

  /**
   * A synthetic hand on the x axis: wrist at the origin, every joint at
   * distance 1, and the five fingertips at the given distances.
   */
  function ExampleHand(thumb: real, index: real, middle: real, ring: real, pinky: real): (h: Hand)
    ensures |h| == HandLandmarkCount
  {
    var w := Point(0.0, 0.0);
    var j := Point(1.0, 0.0);
    [w, j, j, j, Point(thumb, 0.0), j, j, j, Point(index, 0.0), j, j, j, Point(middle, 0.0),
     j, j, j, Point(ring, 0.0), j, j, j, Point(pinky, 0.0)]
  }

  /** Every fingertip at the wrist: a fist. */
  lemma ExampleFist()
    ensures IsFist(ExampleHand(0.0, 0.0, 0.0, 0.0, 0.0))
  {
    var h := ExampleHand(0.0, 0.0, 0.0, 0.0, 0.0);
    assert Curled(h, 0) && Curled(h, 1) && Curled(h, 2) && Curled(h, 3) && Curled(h, 4);
  }

  /** Index and middle tips at twice, ring and pinky at half the joint distance: peace, not obscene. */
  lemma ExamplePeace()
    ensures IsPeaceGesture(ExampleHand(2.0, 2.0, 2.0, 0.5, 0.5))
    ensures !IsMiddleFingerGesture(ExampleHand(2.0, 2.0, 2.0, 0.5, 0.5))
    ensures !IsFist(ExampleHand(2.0, 2.0, 2.0, 0.5, 0.5))
  {
    var h := ExampleHand(2.0, 2.0, 2.0, 0.5, 0.5);
    assert SqDist(h[8], h[0]) == 4.0 && SqDist(h[12], h[0]) == 4.0;
    assert SqDist(h[16], h[0]) == 0.25 && SqDist(h[20], h[0]) == 0.25;
    assert SqDist(h[6], h[0]) == 1.0 && SqDist(h[10], h[0]) == 1.0;
    assert SqDist(h[14], h[0]) == 1.0 && SqDist(h[18], h[0]) == 1.0;
    assert FingerExtended(h, 8, 6) && FingerExtended(h, 12, 10);
    assert FingerCurled(h, 16, 14) && FingerCurled(h, 20, 18);
    PeaceIsNotFist(h);
    PeaceExcludesMiddleFinger(h);
  }

  /** Only the middle tip far out, thumb extended: the obscene gesture, and not a fist. */
  lemma ExampleMiddleFinger()
    ensures IsMiddleFingerGesture(ExampleHand(2.0, 0.5, 2.0, 0.5, 0.5))
    ensures !IsPeaceGesture(ExampleHand(2.0, 0.5, 2.0, 0.5, 0.5))
    ensures !IsFist(ExampleHand(2.0, 0.5, 2.0, 0.5, 0.5))
  {
    var h := ExampleHand(2.0, 0.5, 2.0, 0.5, 0.5);
    assert SqDist(h[8], h[0]) == 0.25 && SqDist(h[12], h[0]) == 4.0;
    assert SqDist(h[16], h[0]) == 0.25 && SqDist(h[20], h[0]) == 0.25;
    assert SqDist(h[6], h[0]) == 1.0 && SqDist(h[10], h[0]) == 1.0;
    assert SqDist(h[14], h[0]) == 1.0 && SqDist(h[18], h[0]) == 1.0;
    assert SqDist(h[4], h[0]) == 4.0 && SqDist(h[3], h[0]) == 1.0;
    assert FingerExtended(h, 12, 10) && FingerCurled(h, 8, 6);
    assert FingerCurled(h, 16, 14) && FingerCurled(h, 20, 18);
    assert !FingerCurled(h, 4, 3);
    assert FingerTips[0] == 4 && FingerPips[0] == 3;
    assert !Curled(h, 0);
    MiddleFingerFistOverlap(h);
    PeaceExcludesMiddleFinger(h);
  }
}
