/**
 * The target generator: each frame, the face landmarks and the hand landmarks
 * are expanded into two lists of weighted point targets. Every face landmark
 * gives two jittered copies, and landmarks in the nose, cheek and eye-socket
 * boost sets give three more, heavier ones. Every hand gives points along its
 * 20 finger bones and 5 palm edges, at golden-ratio stride with a sideways
 * offset, and two anchor points at each fingertip and at the wrist.
 *
 * Random draws come from a RandomStream, Math.hypot is the `hypot`
 * parameter, and the cosine and sine of a random angle are one Heading draw.
 */
module Targets {
  import opened Config
  import opened Geometry
  import opened Gestures

  /** A point particles are pulled toward, with its influence and a display size hint. */
  datatype Target = Target(x: real, y: real, weight: real, size: real)

  /** What the simulation relies on: weight at least 1 and a positive size. */
  predicate WellFormed(t: Target)
  {
    t.weight >= 1.0 && t.size > 0.0
  }

  /** The canvas transform together with the feed size it maps from. */
  datatype Feed = Feed(view: CanvasSize, videoWidth: nat, videoHeight: nat)
  {
    function Map(p: Point): Point
    {
      MapToCanvas(view, videoWidth, videoHeight, p)
    }
  }

  /** The target addJitteredPoint makes from draw u (the jitter) and heading (the angle). */
  function Jittered(point: Point, radius: real, weight: real, size: real, u: Unit, heading: Heading): Target
  {
    var jitter := radius * (u * 2.0 - 1.0);
    Target(point.x + heading.0 * jitter, point.y + heading.1 * jitter, weight, size)
  }

  /** A jittered target keeps its weight and size and lies within `radius` of its point. */
  lemma JitteredWithinRadius(point: Point, radius: real, weight: real, size: real, u: Unit, heading: Heading)
    requires radius >= 0.0
    ensures var t := Jittered(point, radius, weight, size, u, heading);
      t.weight == weight && t.size == size && SqDist(Point(t.x, t.y), point) <= radius * radius
  {
    var j := radius * (u * 2.0 - 1.0);
    assert -radius <= j <= radius by {
      assert radius * (1.0 - u * 2.0) >= -radius * (u * 2.0 - 1.0) - radius * (2.0 - u * 2.0);
      assert radius * (2.0 - 2.0 * u) >= 0.0;
      assert radius * (u * 2.0) >= 0.0;
    }
    assert (radius - j) * (radius + j) >= 0.0;
    var t := Jittered(point, radius, weight, size, u, heading);
    assert SqDist(Point(t.x, t.y), point) == j * j * (heading.0 * heading.0 + heading.1 * heading.1);
  }

  /** `Math.max(4, Math.floor(length * density))`: the number of points on one bone. */
  function BoneCount(length: real, density: real): (n: nat)
    ensures n >= 4
    ensures n == 4 || n as real <= length * density < n as real + 1.0
    ensures length * density >= 4.0 ==> n as real <= length * density < n as real + 1.0
  {
    var f := (length * density).Floor;
    if f < 4 then 4 else f
  }

  /**
   * Point i of the bone from start to end: at fraction (i * phi) mod 1 along
   * the bone, pushed sideways along the bone's normal by (2u - 1) * width.
   */
  function BonePoint(start: Point, end: Point, length: real, width: real, size: real, i: nat, u: Unit): Target
  {
    var dx := end.x - start.x;
    var dy := end.y - start.y;
    var norm := if length == 0.0 then 1.0 else length;
    var t := Frac(i as real * Phi);
    var offset := (u * 2.0 - 1.0) * width;
    Target(start.x + dx * t + (-dy / norm) * offset, start.y + dy * t + (dx / norm) * offset, 1.2, size)
  }

  /**
   * The sideways push is perpendicular to the bone, so the point projects onto
   * the bone itself, at fraction (i * phi) mod 1 of its length from the start.
   */
  lemma BonePointProjectsOntoBone(start: Point, end: Point, length: real, width: real, size: real, i: nat, u: Unit)
    ensures var t := BonePoint(start, end, length, width, size, i, u);
      var dx := end.x - start.x;
      var dy := end.y - start.y;
      && t.weight == 1.2 && t.size == size
      && (t.x - start.x) * dx + (t.y - start.y) * dy == Frac(i as real * Phi) * (dx * dx + dy * dy)
      && 0.0 <= Frac(i as real * Phi) < 1.0
  {
    var dx := end.x - start.x;
    var dy := end.y - start.y;
    var norm := if length == 0.0 then 1.0 else length;
    var s := Frac(i as real * Phi);
    var offset := (u * 2.0 - 1.0) * width;
    assert (-dy / norm) * offset * dx + (dx / norm) * offset * dy == 0.0;
  }

  /** Face landmark indices whose targets are boosted: nose, cheeks, eye sockets. */
  const NoseBoost: set<nat> := {1, 2, 98, 327, 4, 5}
  const CheekBoost: set<nat> := {234, 454, 93, 323, 127, 356}
  const EyeSocketBoost: set<nat> := {33, 133, 362, 263, 159, 386}

  /** Membership in one of the three boost sets, index by index. */
  predicate IsBoosted(idx: nat)
  {
    || idx == 1 || idx == 2 || idx == 98 || idx == 327 || idx == 4 || idx == 5
    || idx == 234 || idx == 454 || idx == 93 || idx == 323 || idx == 127 || idx == 356
    || idx == 33 || idx == 133 || idx == 362 || idx == 263 || idx == 159 || idx == 386
  }

  /** IsBoosted is the `has` test on the three sets. */
  lemma IsBoostedMatchesSets(idx: nat)
    ensures IsBoosted(idx) <==> idx in NoseBoost || idx in CheekBoost || idx in EyeSocketBoost
  {
  }

  /** How many of the indices below k satisfy p. */
  function CountBelow(p: nat -> bool, k: nat): (n: nat)
    ensures n <= k
  {
    if k == 0 then 0 else CountBelow(p, k - 1) + (if p(k - 1) then 1 else 0)
  }

  /** CountBelow counts the set of indices below k that satisfy p. */
  lemma {:induction false} CountBelowIsCardinality(p: nat -> bool, k: nat)
    ensures CountBelow(p, k) == |set i: nat | i < k && p(i)|
  {
    if k == 0 {
      assert (set i: nat | i < 0 && p(i)) == {};
    } else {
      CountBelowIsCardinality(p, k - 1);
      var prev := set i: nat | i < k - 1 && p(i);
      var next := set i: nat | i < k && p(i);
      if p(k - 1) {
        assert next == prev + {k - 1};
      } else {
        assert next == prev;
      }
    }
  }

  /** Face targets for the first k landmarks: two each, three more per boosted landmark. */
  function FaceTargetCount(k: nat): nat
  {
    2 * k + 3 * CountBelow(IsBoosted, k)
  }

  /** The face target count is 2K plus three per boosted index below K; it is zero only for no face. */
  lemma FaceTargetCountCharacterized(k: nat)
    ensures FaceTargetCount(k) == 2 * k + 3 * |set idx: nat | idx < k && IsBoosted(idx)|
    ensures 2 * k <= FaceTargetCount(k) <= 5 * k
    ensures FaceTargetCount(k) == 0 <==> k == 0
  {
    var p: nat -> bool := IsBoosted;
    CountBelowIsCardinality(p, k);
    assert (set i: nat | i < k && p(i)) == set idx: nat | idx < k && IsBoosted(idx);
  }

  /** A plain face target: weight 1, size 1.1. */
  predicate LightFace(t: Target)
  {
    t.weight == 1.0 && t.size == 1.1
  }

  /** A boosted face target: weight 2, size 1.8. */
  predicate HeavyFace(t: Target)
  {
    t.weight == 2.0 && t.size == 1.8
  }

  /** The two kinds of face target. */
  predicate FaceStyle(t: Target)
  {
    LightFace(t) || HeavyFace(t)
  }

  /** items is prefix `base` followed by a face landmark's first targets: two plain, then heavy ones. */
  ghost predicate FaceRun(items: seq<Target>, base: nat)
  {
    && base <= |items|
    && forall k :: base <= k < |items| ==> if k - base < 2 then LightFace(items[k]) else HeavyFace(items[k])
  }

  /** Of the first targets of a face landmark, all but two are heavy. */
  lemma {:induction false} FaceRunHeavy(s: seq<Target>)
    requires FaceRun(s, 0)
    ensures HeavyCount(s) == if |s| <= 2 then 0 else |s| - 2
  {
    if |s| > 0 {
      FaceRunHeavy(s[..|s| - 1]);
    }
  }

  /** How many targets of s are boosted face targets. */
  function HeavyCount(s: seq<Target>): (n: nat)
    ensures n <= |s|
  {
    if |s| == 0 then 0 else HeavyCount(s[..|s| - 1]) + (if HeavyFace(s[|s| - 1]) then 1 else 0)
  }

  lemma {:induction false} HeavyCountAppend(a: seq<Target>, b: seq<Target>)
    ensures HeavyCount(a + b) == HeavyCount(a) + HeavyCount(b)
  {
    if |b| == 0 {
      assert a + b == a;
    } else {
      HeavyCountAppend(a, b[..|b| - 1]);
      assert (a + b)[..|a + b| - 1] == a + b[..|b| - 1];
    }
  }

  /** The five finger chains, wrist to tip, thumb to pinky. */
  const FingerChains: seq<seq<nat>> := [
    [0, 1, 2, 3, 4],
    [0, 5, 6, 7, 8],
    [0, 9, 10, 11, 12],
    [0, 13, 14, 15, 16],
    [0, 17, 18, 19, 20]
  ]

  /** Landmark j of finger chain c: the wrist, then the finger's four joints from base to tip. */
  function ChainJoint(c: nat, j: nat): nat
  {
    if j == 0 then 0 else 4 * c + j
  }

  /** The five edges of the palm polygon. */
  const PalmConnections: seq<(nat, nat)> := [(0, 5), (5, 9), (9, 13), (13, 17), (17, 0)]

  /** Corner k of the palm polygon: the wrist, then the base of each finger from index to pinky. */
  function PalmCorner(k: nat): nat
  {
    if k == 0 then 0 else 4 * k + 1
  }

  /** Edge k of the palm polygon, from corner k to the next corner around. */
  function PalmEdge(k: nat): (nat, nat)
  {
    (PalmCorner(k), PalmCorner((k + 1) % 5))
  }

  /** Fingertips and wrist, each anchored by two extra targets. */
  const AnchorPoints: seq<nat> := [4, 8, 12, 16, 20, 0]

  /** Anchor k: the five fingertips, then the wrist. */
  function Anchor(k: nat): nat
  {
    if k < 5 then 4 * k + 4 else 0
  }

  /**
   * The index functions list exactly the chains, palm edges and anchors of
   * buildTargets, and every index they give addresses one of the 21 landmarks.
   */
  lemma HandIndicesAsListed()
    ensures |FingerChains| == 5 && forall c :: 0 <= c < 5 ==> |FingerChains[c]| == 5
    ensures forall c, j :: 0 <= c < 5 && 0 <= j < 5 ==> FingerChains[c][j] == ChainJoint(c, j) < HandLandmarkCount
    ensures |PalmConnections| == 5
    ensures forall k :: 0 <= k < 5 ==>
      PalmConnections[k] == PalmEdge(k) && PalmEdge(k).0 < HandLandmarkCount && PalmEdge(k).1 < HandLandmarkCount
    ensures |AnchorPoints| == 6 && forall k :: 0 <= k < 6 ==> AnchorPoints[k] == Anchor(k) < HandLandmarkCount
  {
    forall c, j | 0 <= c < 5 && 0 <= j < 5
      ensures FingerChains[c][j] == ChainJoint(c, j) < HandLandmarkCount
    {
      assert FingerChains[c] == [0, 4 * c + 1, 4 * c + 2, 4 * c + 3, 4 * c + 4] by {
        assert c == 0 || c == 1 || c == 2 || c == 3 || c == 4;
      }
    }
    forall k | 0 <= k < 5
      ensures PalmConnections[k] == PalmEdge(k)
    {
      assert k == 0 || k == 1 || k == 2 || k == 3 || k == 4;
    }
    forall k | 0 <= k < 6
      ensures AnchorPoints[k] == Anchor(k)
    {
      assert k == 0 || k == 1 || k == 2 || k == 3 || k == 4 || k == 5;
    }
  }

  /** Points on the bone from a to b at the given density. */
  function SegmentTargetCount(a: Point, b: Point, density: real, hypot: Metric): nat
  {
    BoneCount(hypot(b.x - a.x, b.y - a.y), density)
  }

  /** Points on the first i bones of finger chain c. */
  function ChainTargetCount(hand: Hand, feed: Feed, hypot: Metric, c: nat, i: nat): nat
    requires |hand| >= HandLandmarkCount && c < 5 && i < 5
  {
    if i == 0 then 0
    else
      ChainTargetCount(hand, feed, hypot, c, i - 1)
        + SegmentTargetCount(feed.Map(hand[ChainJoint(c, i - 1)]), feed.Map(hand[ChainJoint(c, i)]), 0.9, hypot)
  }

  /** Points on all bones of the first c finger chains. */
  function FingersTargetCount(hand: Hand, feed: Feed, hypot: Metric, c: nat): nat
    requires |hand| >= HandLandmarkCount && c <= 5
  {
    if c == 0 then 0 else FingersTargetCount(hand, feed, hypot, c - 1) + ChainTargetCount(hand, feed, hypot, c - 1, 4)
  }

  /** Points on the first k palm edges. */
  function PalmTargetCount(hand: Hand, feed: Feed, hypot: Metric, k: nat): nat
    requires |hand| >= HandLandmarkCount && k <= 5
  {
    if k == 0 then 0
    else
      PalmTargetCount(hand, feed, hypot, k - 1)
        + SegmentTargetCount(feed.Map(hand[PalmEdge(k - 1).0]), feed.Map(hand[PalmEdge(k - 1).1]), 0.8, hypot)
  }

  /** All targets of one hand: finger bones, palm edges and two per anchor. */
  function HandTargetCount(hand: Hand, feed: Feed, hypot: Metric): nat
    requires |hand| >= HandLandmarkCount
  {
    FingersTargetCount(hand, feed, hypot, 5) + PalmTargetCount(hand, feed, hypot, 5) + 2 * |AnchorPoints|
  }

  /** All targets of the first n hands of a list. */
  function HandsTargetCount(hands: seq<Hand>, feed: Feed, hypot: Metric, n: nat): nat
    requires HandsWellFormed(hands)
    requires n <= |hands|
  {
    if n == 0 then 0
    else HandsTargetCount(hands, feed, hypot, n - 1) + HandTargetCount(hands[n - 1], feed, hypot)
  }

  lemma {:induction false} ChainTargetCountAtLeast(hand: Hand, feed: Feed, hypot: Metric, c: nat, i: nat)
    requires |hand| >= HandLandmarkCount && c < 5 && i < 5
    ensures ChainTargetCount(hand, feed, hypot, c, i) >= 4 * i
  {
    if i > 0 {
      ChainTargetCountAtLeast(hand, feed, hypot, c, i - 1);
    }
  }

  lemma {:induction false} FingersTargetCountAtLeast(hand: Hand, feed: Feed, hypot: Metric, c: nat)
    requires |hand| >= HandLandmarkCount && c <= 5
    ensures FingersTargetCount(hand, feed, hypot, c) >= 16 * c
  {
    if c > 0 {
      FingersTargetCountAtLeast(hand, feed, hypot, c - 1);
      ChainTargetCountAtLeast(hand, feed, hypot, c - 1, 4);
    }
  }

  lemma {:induction false} PalmTargetCountAtLeast(hand: Hand, feed: Feed, hypot: Metric, k: nat)
    requires |hand| >= HandLandmarkCount && k <= 5
    ensures PalmTargetCount(hand, feed, hypot, k) >= 4 * k
  {
    if k > 0 {
      PalmTargetCountAtLeast(hand, feed, hypot, k - 1);
    }
  }

  /** Every hand gives at least 112 targets: 25 bones of at least 4 points, and 12 anchors. */
  lemma HandTargetCountAtLeast(hand: Hand, feed: Feed, hypot: Metric)
    requires |hand| >= HandLandmarkCount
    ensures HandTargetCount(hand, feed, hypot) >= 112
  {
    FingersTargetCountAtLeast(hand, feed, hypot, 5);
    PalmTargetCountAtLeast(hand, feed, hypot, 5);
  }

  /** The hand target list is empty exactly when there are no hands. */
  lemma {:induction false} HandsTargetCountAtLeast(hands: seq<Hand>, feed: Feed, hypot: Metric, n: nat)
    requires HandsWellFormed(hands)
    requires n <= |hands|
    ensures HandsTargetCount(hands, feed, hypot, n) >= 112 * n
    ensures HandsTargetCount(hands, feed, hypot, n) == 0 <==> n == 0
  {
    if n > 0 {
      HandsTargetCountAtLeast(hands, feed, hypot, n - 1);
      HandTargetCountAtLeast(hands[n - 1], feed, hypot);
    }
  }

  /** Bone i of finger chain c starts at the wrist or at a finger's base knuckle (landmarks 0, 5, 9, 13, 17). */
  predicate StartsAtPalm(c: nat, i: nat)
  {
    i == 0 || (i == 1 && c > 0)
  }

  /** Bone i of a finger chain ends at the fingertip. */
  predicate EndsAtTip(i: nat)
  {
    i == 3
  }

  /** The page's landmark tests pick out the palm-side bones and the tip bones of the chains. */
  lemma BoneEndsClassified(c: nat, i: nat)
    requires c < 5 && i < 4
    ensures var from := ChainJoint(c, i);
      (from == 0 || from == 5 || from == 9 || from == 13 || from == 17) <==> StartsAtPalm(c, i)
    ensures var to := ChainJoint(c, i + 1);
      (to == 4 || to == 8 || to == 12 || to == 16 || to == 20) <==> EndsAtTip(i)
  {
  }

  /** Sideways spread of a finger bone, before the canvas scale: wide at the palm, narrow at the tip. */
  function BoneWidth(c: nat, i: nat): real
  {
    if StartsAtPalm(c, i) then 10.0 else if EndsAtTip(i) then 3.0 else 6.0
  }

  /** Size hint of a finger bone's points: largest at the tip, then the palm-side bones. */
  function BoneSize(c: nat, i: nat): real
  {
    if EndsAtTip(i) then 1.9 else if StartsAtPalm(c, i) then 1.5 else 1.3
  }

  /** A finger-bone point: weight 1.2 and one of the three bone sizes. */
  predicate FingerStyle(t: Target)
  {
    t.weight == 1.2 && (t.size == 1.9 || t.size == 1.5 || t.size == 1.3)
  }

  /** A palm-edge point: weight 1.2, size 1.5. */
  predicate PalmStyle(t: Target)
  {
    t.weight == 1.2 && t.size == 1.5
  }

  /** An anchor point: weight 1.6 or 1.4, size 2.2 at a fingertip or 1.6 at the wrist. */
  predicate AnchorStyle(t: Target)
  {
    (t.weight == 1.6 || t.weight == 1.4) && (t.size == 2.2 || t.size == 1.6)
  }

  /** Any hand target. */
  predicate HandStyle(t: Target)
  {
    FingerStyle(t) || PalmStyle(t) || AnchorStyle(t)
  }

  /** Every face and hand style is well formed. */
  lemma StylesWellFormed(t: Target)
    ensures FaceStyle(t) ==> WellFormed(t)
    ensures HandStyle(t) ==> WellFormed(t)
  {
  }

  /** Size hint of anchor k: the five fingertips, then the wrist. */
  function AnchorSize(k: nat): real
  {
    if k < 5 then 2.2 else 1.6
  }

  /**
   * The two targets of anchor k of a hand, from draws n on: one of radius
   * 3.2 * scale and weight 1.6, then one of radius 2.2 * scale and weight
   * 1.4, both of the anchor's size.
   */
  function AnchorPair(hand: Hand, feed: Feed, scale: real, units: nat -> Unit, headings: nat -> Heading, n: nat, k: nat): seq<Target>
    requires |hand| >= HandLandmarkCount
  {
    var pt := feed.Map(hand[Anchor(k)]);
    [Jittered(pt, 3.2 * scale, 1.6, AnchorSize(k), units(n), headings(n + 1)),
     Jittered(pt, 2.2 * scale, 1.4, AnchorSize(k), units(n + 2), headings(n + 3))]
  }

  /** The anchor targets of the first k anchors of a hand, from draws n on, four draws per anchor. */
  function AnchorTargets(hand: Hand, feed: Feed, scale: real, units: nat -> Unit, headings: nat -> Heading, n: nat, k: nat): seq<Target>
    requires |hand| >= HandLandmarkCount
  {
    if k == 0 then []
    else
      AnchorTargets(hand, feed, scale, units, headings, n, k - 1)
        + AnchorPair(hand, feed, scale, units, headings, n + 4 * (k - 1), k - 1)
  }

  /** Anchor m gives targets 2m (weight 1.6) and 2m + 1 (weight 1.4), both of size AnchorSize(m). */
  lemma {:induction false} AnchorTargetsShape(hand: Hand, feed: Feed, scale: real, units: nat -> Unit, headings: nat -> Heading, n: nat, k: nat)
    requires |hand| >= HandLandmarkCount
    ensures var r := AnchorTargets(hand, feed, scale, units, headings, n, k);
      && |r| == 2 * k
      && (forall m :: 0 <= m < k ==>
            r[2 * m].weight == 1.6 && r[2 * m + 1].weight == 1.4
            && r[2 * m].size == AnchorSize(m) && r[2 * m + 1].size == AnchorSize(m))
      && forall i :: 0 <= i < |r| ==> AnchorStyle(r[i])
  {
    if k > 0 {
      AnchorTargetsShape(hand, feed, scale, units, headings, n, k - 1);
      var prev := AnchorTargets(hand, feed, scale, units, headings, n, k - 1);
      var r := AnchorTargets(hand, feed, scale, units, headings, n, k);
      assert r[..|prev|] == prev;
      forall m | 0 <= m < k - 1
        ensures r[2 * m] == prev[2 * m] && r[2 * m + 1] == prev[2 * m + 1]
      {
      }
    }
  }

  /** items is base followed only by targets of the given style. */
  ghost predicate Grows(base: seq<Target>, items: seq<Target>, style: Target -> bool)
  {
    && |base| <= |items| && items[..|base|] == base
    && forall k :: |base| <= k < |items| ==> style(items[k])
  }

  lemma GrowsTransitive(a: seq<Target>, b: seq<Target>, c: seq<Target>, style: Target -> bool)
    requires Grows(a, b, style) && Grows(b, c, style)
    ensures Grows(a, c, style)
  {
    assert c[..|a|] == c[..|b|][..|a|];
    forall k | |a| <= k < |c|
      ensures style(c[k])
    {
      if k < |b| {
        assert c[k] == c[..|b|][k];
      }
    }
  }

  lemma GrowsWeaken(a: seq<Target>, b: seq<Target>, style: Target -> bool, wider: Target -> bool)
    requires Grows(a, b, style) && forall t :: style(t) ==> wider(t)
    ensures Grows(a, b, wider)
  {
  }

  /** A list of targets that addJitteredPoint and addBonePoints append to. */
  class TargetBuffer {
    var items: seq<Target>

    constructor ()
      ensures items == []
    {
      items := [];
    }

    /** addJitteredPoint: one target within `radius` of the point, from two draws. */
    method AddJitteredPoint(point: Point, radius: real, rng: RandomStream, weight: real := 1.0, size: real := 1.2)
      modifies this, rng
      ensures rng.used == old(rng.used) + 2
      ensures items == old(items)
        + [Jittered(point, radius, weight, size, rng.units(old(rng.used)), rng.headings(old(rng.used) + 1))]
    {
      var u := rng.Next();
      var heading := rng.NextHeading();
      items := items + [Jittered(point, radius, weight, size, u, heading)];
    }

    /** addBonePoints: BoneCount(hypot, density) targets of weight 1.2 along the bone, one draw each. */
    method AddBonePoints(start: Point, end: Point, width: real, density: real, hypot: Metric, rng: RandomStream, size: real := 1.2)
      modifies this, rng
      ensures var length := hypot(end.x - start.x, end.y - start.y);
        && |items| == |old(items)| + BoneCount(length, density)
        && items[..|old(items)|] == old(items)
        && rng.used == old(rng.used) + BoneCount(length, density)
        && forall k :: |old(items)| <= k < |items| ==>
             items[k] == BonePoint(start, end, length, width, size, k - |old(items)|, rng.units(old(rng.used) + k - |old(items)|))
    {
      var length := hypot(end.x - start.x, end.y - start.y);
      var count := BoneCount(length, density);
      for i := 0 to count
        invariant |items| == |old(items)| + i && items[..|old(items)|] == old(items)
        invariant rng.used == old(rng.used) + i
        invariant forall k :: |old(items)| <= k < |items| ==>
          items[k] == BonePoint(start, end, length, width, size, k - |old(items)|, rng.units(old(rng.used) + k - |old(items)|))
      {
        var u := rng.Next();
        items := items + [BonePoint(start, end, length, width, size, i, u)];
      }
    }

    /**
     * The targets of one face landmark: two plain ones of radius 1.4, then,
     * when it is boosted, three heavy ones of radius 2.2; two draws each.
     */
    method AddFaceLandmark(pt: Point, boosted: bool, rng: RandomStream)
      modifies this, rng
      ensures |items| == |old(items)| + (if boosted then 5 else 2) && items[..|old(items)|] == old(items)
      ensures rng.used == old(rng.used) + 2 * (|items| - |old(items)|)
      ensures forall k :: |old(items)| <= k < |items| ==>
        if k - |old(items)| < 2 then LightFace(items[k]) else HeavyFace(items[k])
      ensures Grows(old(items), items, FaceStyle)
      ensures HeavyCount(items[|old(items)|..]) == if boosted then 3 else 0
    {
      AddJitteredPoint(pt, 1.4, rng, 1.0, 1.1);
      AddJitteredPoint(pt, 1.4, rng, 1.0, 1.1);
      if boosted {
        AddJitteredPoint(pt, 2.2, rng, 2.0, 1.8);
        AddJitteredPoint(pt, 2.2, rng, 2.0, 1.8);
        AddJitteredPoint(pt, 2.2, rng, 2.0, 1.8);
      }
      FaceRunHeavy(items[|old(items)|..]);
    }

    /** The face part of buildTargets: every landmark's targets in landmark order, two draws per target. */
    method AddFaceTargets(face: seq<Point>, feed: Feed, rng: RandomStream)
      modifies this, rng
      ensures |items| == |old(items)| + FaceTargetCount(|face|) && Grows(old(items), items, FaceStyle)
      ensures HeavyCount(items[|old(items)|..]) == 3 * CountBelow(IsBoosted, |face|)
      ensures rng.used == old(rng.used) + 2 * FaceTargetCount(|face|)
    {
      for idx := 0 to |face|
        invariant |items| == |old(items)| + FaceTargetCount(idx) && Grows(old(items), items, FaceStyle)
        invariant HeavyCount(items[|old(items)|..]) == 3 * CountBelow(IsBoosted, idx)
        invariant rng.used == old(rng.used) + 2 * FaceTargetCount(idx)
      {
        ghost var before := items;
        var boosted := IsBoosted(idx);
        AddFaceLandmark(feed.Map(face[idx]), boosted, rng);
        GrowsTransitive(old(items), before, items, FaceStyle);
        assert items[|old(items)|..] == before[|old(items)|..] + items[|before|..];
        HeavyCountAppend(before[|old(items)|..], items[|before|..]);
        assert CountBelow(IsBoosted, idx + 1) == CountBelow(IsBoosted, idx) + if boosted then 1 else 0;
      }
    }

    /**
     * Bone i of finger chain c: its points have weight 1.2 and the bone's
     * size, and spread sideways by the bone's width times the canvas scale.
     */
    method AddFingerBone(hand: Hand, c: nat, i: nat, feed: Feed, scale: real, hypot: Metric, rng: RandomStream)
      requires |hand| >= HandLandmarkCount && c < 5 && i < 4
      modifies this, rng
      ensures var a := feed.Map(hand[ChainJoint(c, i)]);
        var b := feed.Map(hand[ChainJoint(c, i + 1)]);
        var length := hypot(b.x - a.x, b.y - a.y);
        && |items| == |old(items)| + SegmentTargetCount(a, b, 0.9, hypot)
        && items[..|old(items)|] == old(items)
        && rng.used == old(rng.used) + SegmentTargetCount(a, b, 0.9, hypot)
        && forall k :: |old(items)| <= k < |items| ==>
             items[k] == BonePoint(a, b, length, BoneWidth(c, i) * scale, BoneSize(c, i), k - |old(items)|,
                                   rng.units(old(rng.used) + k - |old(items)|))
      ensures Grows(old(items), items, FingerStyle)
    {
      var from := ChainJoint(c, i);
      var to := ChainJoint(c, i + 1);
      var isTip := to == 4 || to == 8 || to == 12 || to == 16 || to == 20;
      var isPalm := from == 0 || from == 5 || from == 9 || from == 13 || from == 17;
      var width := (if isPalm then 10.0 else if isTip then 3.0 else 6.0) * scale;
      var size := if isTip then 1.9 else if isPalm then 1.5 else 1.3;
      BoneEndsClassified(c, i);
      AddBonePoints(feed.Map(hand[from]), feed.Map(hand[to]), width, 0.9, hypot, rng, size);
    }

    /** The four bones of one finger chain, from the wrist out. */
    method AddFingerChain(hand: Hand, c: nat, feed: Feed, scale: real, hypot: Metric, rng: RandomStream)
      requires |hand| >= HandLandmarkCount && c < 5
      modifies this, rng
      ensures |items| == |old(items)| + ChainTargetCount(hand, feed, hypot, c, 4) && Grows(old(items), items, FingerStyle)
    {
      for i := 0 to 4
        invariant |items| == |old(items)| + ChainTargetCount(hand, feed, hypot, c, i) && Grows(old(items), items, FingerStyle)
      {
        ghost var before := items;
        AddFingerBone(hand, c, i, feed, scale, hypot, rng);
        GrowsTransitive(old(items), before, items, FingerStyle);
      }
    }

    /** The finger chains of one hand, thumb to pinky. */
    method AddFingers(hand: Hand, feed: Feed, scale: real, hypot: Metric, rng: RandomStream)
      requires |hand| >= HandLandmarkCount
      modifies this, rng
      ensures |items| == |old(items)| + FingersTargetCount(hand, feed, hypot, 5) && Grows(old(items), items, FingerStyle)
    {
      for c := 0 to 5
        invariant |items| == |old(items)| + FingersTargetCount(hand, feed, hypot, c) && Grows(old(items), items, FingerStyle)
      {
        ghost var before := items;
        AddFingerChain(hand, c, feed, scale, hypot, rng);
        GrowsTransitive(old(items), before, items, FingerStyle);
      }
    }

    /** Palm edge k of one hand: points of weight 1.2 and size 1.5, spread by 12 times the canvas scale. */
    method AddPalmEdge(hand: Hand, k: nat, feed: Feed, scale: real, hypot: Metric, rng: RandomStream)
      requires |hand| >= HandLandmarkCount && k < 5
      modifies this, rng
      ensures var a := feed.Map(hand[PalmEdge(k).0]);
        var b := feed.Map(hand[PalmEdge(k).1]);
        var length := hypot(b.x - a.x, b.y - a.y);
        && |items| == |old(items)| + SegmentTargetCount(a, b, 0.8, hypot)
        && items[..|old(items)|] == old(items)
        && rng.used == old(rng.used) + SegmentTargetCount(a, b, 0.8, hypot)
        && forall j :: |old(items)| <= j < |items| ==>
             items[j] == BonePoint(a, b, length, 12.0 * scale, 1.5, j - |old(items)|, rng.units(old(rng.used) + j - |old(items)|))
      ensures Grows(old(items), items, PalmStyle)
    {
      AddBonePoints(feed.Map(hand[PalmEdge(k).0]), feed.Map(hand[PalmEdge(k).1]), 12.0 * scale, 0.8, hypot, rng, 1.5);
    }

    /** The five palm edges of one hand. */
    method AddPalm(hand: Hand, feed: Feed, scale: real, hypot: Metric, rng: RandomStream)
      requires |hand| >= HandLandmarkCount
      modifies this, rng
      ensures |items| == |old(items)| + PalmTargetCount(hand, feed, hypot, 5) && Grows(old(items), items, PalmStyle)
    {
      for k := 0 to 5
        invariant |items| == |old(items)| + PalmTargetCount(hand, feed, hypot, k) && Grows(old(items), items, PalmStyle)
      {
        ghost var before := items;
        AddPalmEdge(hand, k, feed, scale, hypot, rng);
        GrowsTransitive(old(items), before, items, PalmStyle);
      }
    }

    /** Two targets at each fingertip and at the wrist, four draws per anchor. */
    method AddAnchors(hand: Hand, feed: Feed, scale: real, rng: RandomStream)
      requires |hand| >= HandLandmarkCount
      modifies this, rng
      ensures items == old(items) + AnchorTargets(hand, feed, scale, rng.units, rng.headings, old(rng.used), |AnchorPoints|)
      ensures rng.used == old(rng.used) + 4 * |AnchorPoints|
    {
      for k := 0 to 6
        invariant items == old(items) + AnchorTargets(hand, feed, scale, rng.units, rng.headings, old(rng.used), k)
        invariant rng.used == old(rng.used) + 4 * k
      {
        AddAnchor(hand, k, feed, scale, rng);
      }
    }

    /** The two targets at anchor k: the fingertips, then the wrist. */
    method AddAnchor(hand: Hand, k: nat, feed: Feed, scale: real, rng: RandomStream)
      requires |hand| >= HandLandmarkCount && k < 6
      modifies this, rng
      ensures items == old(items) + AnchorPair(hand, feed, scale, rng.units, rng.headings, old(rng.used), k)
      ensures rng.used == old(rng.used) + 4
    {
      var idx := Anchor(k);
      var pt := feed.Map(hand[idx]);
      var size := if idx == 0 then 1.6 else 2.2;
      AddJitteredPoint(pt, 3.2 * scale, rng, 1.6, size);
      AddJitteredPoint(pt, 2.2 * scale, rng, 1.4, size);
    }

    /**
     * The hand part of buildTargets for one hand: finger-bone points, then
     * palm-edge points, then the twelve anchor points.
     */
    method AddHandTargets(hand: Hand, feed: Feed, scale: real, hypot: Metric, rng: RandomStream)
      requires |hand| >= HandLandmarkCount
      modifies this, rng
      ensures |items| == |old(items)| + HandTargetCount(hand, feed, hypot) && items[..|old(items)|] == old(items)
      ensures var f := |old(items)| + FingersTargetCount(hand, feed, hypot, 5);
        var p := f + PalmTargetCount(hand, feed, hypot, 5);
        && (forall k :: |old(items)| <= k < f ==> FingerStyle(items[k]))
        && (forall k :: f <= k < p ==> PalmStyle(items[k]))
        && (forall k :: p <= k < |items| ==> AnchorStyle(items[k]))
      ensures Grows(old(items), items, HandStyle)
    {
      AddFingers(hand, feed, scale, hypot, rng);
      ghost var fingers := items;
      AddPalm(hand, feed, scale, hypot, rng);
      ghost var bones := items;
      ghost var used := rng.used;
      AddAnchors(hand, feed, scale, rng);
      AnchorTargetsShape(hand, feed, scale, rng.units, rng.headings, used, |AnchorPoints|);
      assert items[..|bones|] == bones;
      assert items[..|fingers|] == fingers;
      assert items[..|old(items)|] == old(items);
      forall k | |old(items)| <= k < |items|
        ensures HandStyle(items[k])
      {
        if k < |fingers| {
          assert items[k] == fingers[k];
        } else if k < |bones| {
          assert items[k] == bones[k];
        }
      }
    }

    /** The hand part of buildTargets: every hand's targets, in order. */
    method AddHandsTargets(hands: seq<Hand>, feed: Feed, scale: real, hypot: Metric, rng: RandomStream)
      requires HandsWellFormed(hands)
      modifies this, rng
      ensures |items| == |old(items)| + HandsTargetCount(hands, feed, hypot, |hands|) && Grows(old(items), items, HandStyle)
    {
      for h := 0 to |hands|
        invariant |items| == |old(items)| + HandsTargetCount(hands, feed, hypot, h) && Grows(old(items), items, HandStyle)
      {
        ghost var before := items;
        AddHandTargets(hands[h], feed, scale, hypot, rng);
        GrowsTransitive(old(items), before, items, HandStyle);
      }
    }
  }

  /**
   * buildTargets: the face and hand target lists for one frame. Their sizes
   * are FaceTargetCount and HandsTargetCount, so each list is empty exactly
   * when its landmarks are absent. The face list holds three heavy targets per
   * boosted landmark and plain ones otherwise; the hand list holds only the
   * bone, palm and anchor styles; every target is well formed.
   */
  method BuildTargets(face: seq<Point>, hands: seq<Hand>, feed: Feed, hypot: Metric, rng: RandomStream)
    returns (faceTargets: seq<Target>, handTargets: seq<Target>)
    requires HandsWellFormed(hands)
    modifies rng
    ensures |faceTargets| == FaceTargetCount(|face|)
    ensures HeavyCount(faceTargets) == 3 * |set idx: nat | idx < |face| && IsBoosted(idx)|
    ensures |handTargets| == HandsTargetCount(hands, feed, hypot, |hands|)
    ensures forall t :: t in faceTargets ==> FaceStyle(t) && WellFormed(t)
    ensures forall t :: t in handTargets ==> HandStyle(t) && WellFormed(t)
  {
    var faceBuf := new TargetBuffer();
    var handBuf := new TargetBuffer();
    var scale := (if feed.view.width <= feed.view.height then feed.view.width else feed.view.height) / 800.0;
    if |face| > 0 {
      faceBuf.AddFaceTargets(face, feed, rng);
    }
    if |hands| > 0 {
      handBuf.AddHandsTargets(hands, feed, scale, hypot, rng);
    }
    faceTargets := faceBuf.items;
    handTargets := handBuf.items;
    FaceTargetCountCharacterized(|face|);
    assert faceTargets == faceTargets[0..];
    forall t | t in faceTargets
      ensures FaceStyle(t) && WellFormed(t)
    {
      StylesWellFormed(t);
    }
    forall t | t in handTargets
      ensures HandStyle(t) && WellFormed(t)
    {
      StylesWellFormed(t);
    }
  }
}
