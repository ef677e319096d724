/**
 The predicate evaluator: the Call test, which the classifier runs on the
 raw landmarks before extracting any feature, and the ten gesture
 predicates evaluated on the feature snapshot (with a few direct reads of
 raw landmarks). Each predicate is computed independently of the others.
 */
module Gestures {
  import opened Landmarks
  import opened Features

  /** The thumb-tip to pinky-tip spread the Call gesture needs, as a
      planar distance, and squared. */
  const CallSpread: real := 0.3
  const CallSpreadSq: real := 0.09

  /** The Call ("hang loose") pose: thumb and pinky tips above the joint
      below them, middle and ring tips below theirs, and the thumb and
      pinky tips more than 0.3 apart. */
  predicate IsCall(h: Hand): (b: bool)
    requires Complete(h)
    ensures b ==> h[ThumbTip].y < h[ThumbIp].y && h[PinkyTip].y < h[PinkyDip].y
    ensures b ==> Abs(h[ThumbTip].x - h[PinkyTip].x) > 0.2 || Abs(h[ThumbTip].y - h[PinkyTip].y) > 0.2
  {
    FarApartOnAnAxis(h[ThumbTip], h[PinkyTip], 0.2);
    CallJoints(h) && SqDistXY(h[ThumbTip], h[PinkyTip]) > CallSpreadSq
  }

  /** The four joint-ordering conditions of the Call pose. Unlike the
      extension flags these compare a tip with the joint directly below it
      and use no margin. */
  predicate CallJoints(h: Hand)
    requires Complete(h)
  {
    && h[ThumbTip].y < h[ThumbIp].y
    && h[PinkyTip].y < h[PinkyDip].y
    && h[MiddleTip].y > h[MiddleDip].y
    && h[RingTip].y > h[RingDip].y
  }

  /** The Call test written with the planar distance itself, for a
      `distance` that is the square root of the squared spread. */
  predicate CallWithDistance(h: Hand, distance: real)
    requires Complete(h)
  {
    CallJoints(h) && distance > CallSpread
  }

  /** The squared form of the Call test agrees with the form that takes
      the square root. */
  lemma CallSquaredForm(h: Hand, distance: real)
    requires Complete(h)
    requires IsRoot(distance, SqDistXY(h[ThumbTip], h[PinkyTip]))
    ensures CallWithDistance(h, distance) <==> IsCall(h)
  {
    RootComparison(distance, SqDistXY(h[ThumbTip], h[PinkyTip]), CallSpread);
  }

  /** The Call distance test is strict: with the joint conditions held,
      Call fires exactly when the spread exceeds 0.3, so a spread of
      exactly 0.3 does not fire. */
  lemma CallSpreadIsStrict(h: Hand, distance: real)
    requires Complete(h)
    requires CallJoints(h)
    requires IsRoot(distance, SqDistXY(h[ThumbTip], h[PinkyTip]))
    ensures IsCall(h) <==> distance > 0.3
    ensures distance == 0.3 ==> !IsCall(h)
  {
    CallSquaredForm(h, distance);
  }

  /** One verdict per remaining predicate of the page's classifier. The field names
      follow what each predicate tests; the labels they are displayed
      under are fixed by the resolver. */
  datatype Verdicts = Verdicts(
    victory: bool,
    okSign: bool,
    gun: bool,
    pointingUp: bool,
    hello: bool,
    thumbsUp: bool,
    thumbsDown: bool,
    angry: bool,
    iLoveYou: bool,
    friends: bool)

  /** The victory sign: index and middle up, ring and pinky down, the two
      tips within 0.15 of each other at similar height, and the two finger
      directions within pi/6 of each other. */
  predicate IsVictory(h: Hand, f: Snapshot, pi: real): (b: bool)
    requires Complete(h)
    ensures b && f.angleBetween >= 0.0 ==> pi > 0.0
  {
    && f.indexExtended && f.middleExtended
    && !f.ringExtended && !f.pinkyExtended
    && f.indexMiddleSq < 0.15 * 0.15
    && Abs(h[IndexTip].y - h[MiddleTip].y) < 0.1
    && f.angleBetween < pi / 6.0
  }

  /** The victory test written with the planar index-middle distance. */
  predicate VictoryWithDistance(h: Hand, f: Snapshot, pi: real, distance: real)
    requires Complete(h)
  {
    && f.indexExtended && f.middleExtended
    && !f.ringExtended && !f.pinkyExtended
    && distance < 0.15
    && Abs(h[IndexTip].y - h[MiddleTip].y) < 0.1
    && f.angleBetween < pi / 6.0
  }

  lemma VictorySquaredForm(h: Hand, f: Snapshot, pi: real, distance: real)
    requires Complete(h)
    requires IsRoot(distance, f.indexMiddleSq)
    ensures VictoryWithDistance(h, f, pi, distance) <==> IsVictory(h, f, pi)
  {
    RootComparison(distance, f.indexMiddleSq, 0.15);
  }

  /** The curl flag written with the planar tip-to-knuckle distance. */
  lemma CurlSquaredForm(curlSq: real, curl: real)
    requires IsRoot(curl, curlSq)
    ensures curl < 0.12 <==> curlSq < CurlSqThreshold
  {
    RootComparison(curl, curlSq, 0.12);
  }

  /** The ten predicates. Their contract records how they relate: three
      pairs can never hold together and, on a snapshot whose index flag
      was computed from this hand, the pointing predicate is just "only the
      index finger extended" (its last conjunct repeats the index test), so
      every gun pose is also a pointing pose. */
  function Evaluate(h: Hand, f: Snapshot, pi: real): (v: Verdicts)
    requires Complete(h)
    ensures !(v.victory && v.okSign)
    ensures !(v.thumbsUp && v.thumbsDown)
    ensures !(v.hello && v.friends)
    ensures f.indexExtended == Extended(h, IndexTip, IndexMcp) ==>
      (v.pointingUp <==>
        f.indexExtended && !f.middleExtended && !f.ringExtended && !f.pinkyExtended)
    ensures f.indexExtended == Extended(h, IndexTip, IndexMcp) ==> (v.gun ==> v.pointingUp)
  {
    var thumb, index, middle, ring, pinky, wrist :=
      h[ThumbTip], h[IndexTip], h[MiddleTip], h[RingTip], h[PinkyTip], h[Wrist];
    var i, m, r, p := f.indexExtended, f.middleExtended, f.ringExtended, f.pinkyExtended;
    Verdicts(
      victory := IsVictory(h, f, pi),
      okSign :=
        && Abs(thumb.x - index.x) < 0.15
        && Abs(thumb.y - index.y) < 0.15
        && Abs(thumb.z - index.z) < 0.15
        && m && r && p,
      gun :=
        i && !m && !r && !p
        && Abs(thumb.y - h[ThumbMcp].y) < 0.1,
      pointingUp :=
        i && !m && !r && !p
        && index.y < h[IndexMcp].y - ExtensionMargin,
      hello :=
        i && m && r && p
        && Abs(index.y - middle.y) < 0.1
        && Abs(middle.y - ring.y) < 0.1
        && Abs(ring.y - pinky.y) < 0.1,
      thumbsUp :=
        !i && !m && !r && !p
        && thumb.y < wrist.y - 0.15
        && Abs(thumb.x - wrist.x) < 0.15,
      thumbsDown :=
        !i && !m && !r && !p
        && thumb.y > wrist.y + 0.15
        && Abs(thumb.x - wrist.x) < 0.15,
      angry :=
        p && !i && !m && !r
        && Abs(thumb.x - wrist.x) < 0.12,
      iLoveYou :=
        i && !m && !r && p
        && Abs(thumb.y - wrist.y) < 0.2
        && Abs(index.y - pinky.y) < 0.3
        && Abs(index.x - pinky.x) > 0.15,
      friends :=
        i && m && r && !p
        && Abs(index.y - middle.y) < 0.2
        && Abs(middle.y - ring.y) < 0.2
        && thumb.y < wrist.y - 0.1
        && Abs(thumb.x - wrist.x) < 0.2)
  }

  /** The count of extended fingers, the curl magnitudes and flags, and
      the thumb-index distance are computed but never consulted: changing
      them leaves every verdict unchanged. */
  lemma UnusedFeaturesIgnored(h: Hand, f: Snapshot, pi: real,
                              numExtended: nat, curlSq: seq<real>, curled: seq<bool>,
                              allCurled: bool, thumbIndexSq: real)
    requires Complete(h)
    ensures Evaluate(h, f, pi) == Evaluate(h, f.(numExtended := numExtended, curlSq := curlSq,
      curled := curled, allCurled := allCurled, thumbIndexSq := thumbIndexSq), pi)
  {
  }
}
