/**
 Hand-built landmark sets with the outcome the classifier must give for
 them: one canonical pose for every label, a pose where Call and Victory
 both hold, and the two sides of the Call distance boundary.
 */
module Poses {
  import opened Wrappers
  import opened Landmarks
  import opened Features
  import opened Gestures
  import opened Resolver
  import opened Classifier

  /** Where every landmark a pose does not place sits: mid-frame, so that
      no finger counts as extended and no joint ordering is strict. */
  const Rest: Landmark := Landmark(0.5, 0.5, 0.0)

  /** A full 21-landmark hand with the given landmarks placed and the rest
      at Rest. */
  function Pose(placed: map<int, Landmark>): (h: Hand)
    ensures |h| == Count
    ensures forall i :: 0 <= i < Count ==> h[i] == if i in placed then placed[i] else Rest
  {
    seq(Count, i => if i in placed then placed[i] else Rest)
  }

  /** Index and middle tips 0.2 above their knuckles and 0.05 apart, ring
      and pinky tips below their knuckles. */
  const VictoryPose: Hand := Pose(map[
    IndexMcp := Landmark(0.40, 0.60, 0.0), IndexTip := Landmark(0.40, 0.40, 0.0),
    MiddleMcp := Landmark(0.45, 0.60, 0.0), MiddleDip := Landmark(0.45, 0.45, 0.0),
    MiddleTip := Landmark(0.45, 0.40, 0.0),
    RingMcp := Landmark(0.50, 0.60, 0.0), RingTip := Landmark(0.50, 0.65, 0.0),
    PinkyMcp := Landmark(0.55, 0.60, 0.0), PinkyTip := Landmark(0.55, 0.65, 0.0)])

  /** The canonical victory sign is reported as Victory with confidence
      0.95, whatever atan2 is, as long as pi is positive: both fingers
      point the same way, so their angle difference is 0. */
  lemma VictoryPoseIsVictory(trig: Trig)
    requires trig.pi > 0.0
    ensures ClassifyHand(VictoryPose, trig) == Reading(Some(Victory), 0.95, false)
  {
    var h := VictoryPose;
    assert !IsCall(h) by {
      assert h[MiddleTip].y < h[MiddleDip].y;
    }
    assert VerdictsOf(h, trig).victory by {
      var f := Extract(h, trig);
      assert h[IndexTip].y - h[IndexMcp].y == h[MiddleTip].y - h[MiddleMcp].y;
      assert h[IndexTip].x - h[IndexMcp].x == h[MiddleTip].x - h[MiddleMcp].x;
      assert f.angleBetween == 0.0;
      assert f.indexMiddleSq == 0.0025;
    }
  }

  /** Fingers folded, thumb 0.2 above the wrist and level with it. */
  const ThumbsUpPose: Hand := Pose(map[
    Wrist := Landmark(0.5, 0.5, 0.0), ThumbTip := Landmark(0.5, 0.3, 0.0)])

  /** A thumbs-up is reported as Like, the one label whose confidence is
      0.9. */
  lemma ThumbsUpPoseIsLike(trig: Trig)
    ensures ClassifyHand(ThumbsUpPose, trig) == Reading(Some(Like), 0.9, false)
  {
    var h := ThumbsUpPose;
    assert !IsCall(h) by {
      assert h[PinkyTip].y == h[PinkyDip].y;
    }
  }

  /** The victory sign with the thumb and pinky tips raised over their
      lower joints, 0.6 apart, and the middle tip below its DIP joint. */
  const CallAndVictoryPose: Hand := Pose(map[
    ThumbIp := Landmark(0.10, 0.55, 0.0), ThumbTip := Landmark(0.10, 0.50, 0.0),
    IndexMcp := Landmark(0.40, 0.60, 0.0), IndexTip := Landmark(0.40, 0.40, 0.0),
    MiddleMcp := Landmark(0.45, 0.60, 0.0), MiddleDip := Landmark(0.45, 0.30, 0.0),
    MiddleTip := Landmark(0.45, 0.40, 0.0),
    RingMcp := Landmark(0.50, 0.60, 0.0), RingDip := Landmark(0.50, 0.60, 0.0),
    RingTip := Landmark(0.50, 0.65, 0.0),
    PinkyMcp := Landmark(0.70, 0.60, 0.0), PinkyDip := Landmark(0.70, 0.55, 0.0),
    PinkyTip := Landmark(0.70, 0.50, 0.0)])

  /** When Call and Victory both hold, Call wins. */
  lemma CallBeatsVictory(trig: Trig)
    requires trig.pi > 0.0
    ensures IsCall(CallAndVictoryPose)
    ensures VerdictsOf(CallAndVictoryPose, trig).victory
    ensures ClassifyHand(CallAndVictoryPose, trig) == Reading(Some(Call), 0.95, false)
  {
    CallAndVictoryPoseCalls();
    CallAndVictoryPoseIsVictory(trig);
  }

  lemma CallAndVictoryPoseCalls()
    ensures IsCall(CallAndVictoryPose)
  {
    var h := CallAndVictoryPose;
    assert CallJoints(h);
    assert SqDistXY(h[ThumbTip], h[PinkyTip]) == 0.36;
  }

  lemma CallAndVictoryPoseIsVictory(trig: Trig)
    requires trig.pi > 0.0
    ensures VerdictsOf(CallAndVictoryPose, trig).victory
  {
    var h := CallAndVictoryPose;
    assert h[IndexMcp] == Landmark(0.40, 0.60, 0.0) && h[IndexTip] == Landmark(0.40, 0.40, 0.0);
    assert h[MiddleMcp] == Landmark(0.45, 0.60, 0.0) && h[MiddleTip] == Landmark(0.45, 0.40, 0.0);
    assert h[RingMcp] == Landmark(0.50, 0.60, 0.0) && h[RingTip] == Landmark(0.50, 0.65, 0.0);
    assert h[PinkyMcp] == Landmark(0.70, 0.60, 0.0) && h[PinkyTip] == Landmark(0.70, 0.50, 0.0);
    var f := Extract(h, trig);
    assert f.angleBetween == 0.0;
    assert f.indexMiddleSq == 0.0025;
    assert IsVictory(h, f, trig.pi);
  }

  /** A Call pose whose thumb and pinky tips lie `spread` apart
      horizontally. */
  function CallPose(spread: real): Hand {
    Pose(map[
      ThumbIp := Landmark(0.2, 0.55, 0.0), ThumbTip := Landmark(0.2, 0.5, 0.0),
      MiddleDip := Landmark(0.45, 0.6, 0.0), MiddleTip := Landmark(0.45, 0.65, 0.0),
      RingDip := Landmark(0.4, 0.6, 0.0), RingTip := Landmark(0.4, 0.65, 0.0),
      PinkyDip := Landmark(0.2 + spread, 0.55, 0.0), PinkyTip := Landmark(0.2 + spread, 0.5, 0.0)])
  }

  /** A spread of exactly 0.3 does not fire Call; 0.30001 does and is
      reported as Call. */
  lemma CallBoundary(trig: Trig)
    ensures CallJoints(CallPose(0.3)) && CallJoints(CallPose(0.30001))
    ensures IsRoot(0.3, SqDistXY(CallPose(0.3)[ThumbTip], CallPose(0.3)[PinkyTip]))
    ensures !IsCall(CallPose(0.3))
    ensures ClassifyHand(CallPose(0.3), trig).gesture != Some(Call)
    ensures ClassifyHand(CallPose(0.30001), trig) == Reading(Some(Call), 0.95, false)
  {
    var exact, beyond := CallPose(0.3), CallPose(0.30001);
    assert SqDistXY(exact[ThumbTip], exact[PinkyTip]) == 0.09;
    assert SqDistXY(beyond[ThumbTip], beyond[PinkyTip]) == 0.30001 * 0.30001;
    ClassifyPicksFirstFiring(exact, trig, Call);
  }

  /** Thumb tip next to the index tip, middle, ring and pinky raised. */
  const OkSignPose: Hand := Pose(map[
    ThumbTip := Landmark(0.45, 0.45, 0.0), IndexTip := Landmark(0.50, 0.50, 0.0),
    MiddleTip := Landmark(0.50, 0.30, 0.0), RingTip := Landmark(0.55, 0.30, 0.0),
    PinkyTip := Landmark(0.60, 0.30, 0.0)])

  /** The OK sign is reported under the label Super. */
  lemma OkSignPoseIsSuper(trig: Trig)
    ensures ClassifyHand(OkSignPose, trig) == Reading(Some(Super), 0.95, false)
  {
    var h := OkSignPose;
    assert !IsCall(h) by {
      assert h[MiddleTip].y < h[MiddleDip].y;
    }
  }

  /** Index raised, the other fingers folded, thumb tip level with
      landmark 2. */
  const GunPose: Hand := Pose(map[IndexTip := Landmark(0.50, 0.30, 0.0)])

  /** The gun pose is reported under the label Happy. */
  lemma GunPoseIsHappy(trig: Trig)
    ensures ClassifyHand(GunPose, trig) == Reading(Some(Happy), 0.95, false)
  {
    var h := GunPose;
    assert !IsCall(h) by {
      assert h[ThumbTip].y == h[ThumbIp].y;
    }
  }

  /** Index raised, the other fingers folded, thumb tip 0.2 above
      landmark 2, so the gun test fails. */
  const PointingPose: Hand := Pose(map[
    IndexTip := Landmark(0.50, 0.30, 0.0), ThumbTip := Landmark(0.50, 0.30, 0.0)])

  /** Pointing is reachable: a pointing pose that fails the gun test is
      reported as Pointing. */
  lemma PointingPoseIsPointing(trig: Trig)
    ensures ClassifyHand(PointingPose, trig) == Reading(Some(Pointing), 0.95, false)
  {
    var h := PointingPose;
    assert !IsCall(h) by {
      assert h[PinkyTip].y == h[PinkyDip].y;
    }
  }

  /** All four fingers raised to the same height. */
  const HelloPose: Hand := Pose(map[
    IndexTip := Landmark(0.40, 0.30, 0.0), MiddleTip := Landmark(0.45, 0.30, 0.0),
    RingTip := Landmark(0.50, 0.30, 0.0), PinkyTip := Landmark(0.55, 0.30, 0.0)])

  lemma HelloPoseIsHello(trig: Trig)
    ensures ClassifyHand(HelloPose, trig) == Reading(Some(Hello), 0.95, false)
  {
    var h := HelloPose;
    assert !IsCall(h) by {
      assert h[ThumbTip].y == h[ThumbIp].y;
    }
  }

  /** Fingers folded, thumb 0.2 below the wrist and level with it. */
  const ThumbsDownPose: Hand := Pose(map[ThumbTip := Landmark(0.5, 0.7, 0.0)])

  lemma ThumbsDownPoseIsDislike(trig: Trig)
    ensures ClassifyHand(ThumbsDownPose, trig) == Reading(Some(Dislike), 0.95, false)
  {
    var h := ThumbsDownPose;
    assert !IsCall(h) by {
      assert h[ThumbTip].y > h[ThumbIp].y;
    }
  }

  /** A gun pose whose thumb and pinky tips are also raised over their
      lower joints and 0.5 apart, with the middle and ring tips below
      their DIP joints. */
  const GunAndCallPose: Hand := Pose(map[
    ThumbIp := Landmark(0.10, 0.55, 0.0), ThumbTip := Landmark(0.10, 0.50, 0.0),
    IndexTip := Landmark(0.50, 0.30, 0.0),
    MiddleTip := Landmark(0.50, 0.55, 0.0), RingTip := Landmark(0.50, 0.55, 0.0),
    PinkyDip := Landmark(0.60, 0.50, 0.0), PinkyTip := Landmark(0.60, 0.45, 0.0)])

  /** The gun test can hold and the pose still be reported as Call, so the
      Call guard in GunShadowsPointing's Happy clause is needed. */
  lemma GunAndCallPoseIsCall(trig: Trig)
    ensures VerdictsOf(GunAndCallPose, trig).gun
    ensures ClassifyHand(GunAndCallPose, trig) == Reading(Some(Call), 0.95, false)
  {
    GunAndCallPoseCalls();
    GunAndCallPoseIsGun(trig);
  }

  lemma GunAndCallPoseCalls()
    ensures IsCall(GunAndCallPose)
  {
    var h := GunAndCallPose;
    assert CallJoints(h);
    assert SqDistXY(h[ThumbTip], h[PinkyTip]) == 0.2525;
  }

  lemma GunAndCallPoseIsGun(trig: Trig)
    ensures VerdictsOf(GunAndCallPose, trig).gun
  {
    var h := GunAndCallPose;
    assert h[IndexMcp] == Rest && h[MiddleMcp] == Rest && h[RingMcp] == Rest;
    assert h[PinkyMcp] == Rest && h[ThumbMcp] == Rest;
  }

  /** Index, middle and ring raised, pinky folded, thumb tip 0.15 above the
      wrist. */
  const FriendsPose: Hand := Pose(map[
    ThumbTip := Landmark(0.50, 0.35, 0.0),
    IndexTip := Landmark(0.40, 0.30, 0.0), MiddleTip := Landmark(0.45, 0.30, 0.0),
    RingTip := Landmark(0.50, 0.30, 0.0)])

  lemma FriendsPoseIsFriends(trig: Trig)
    ensures ClassifyHand(FriendsPose, trig) == Reading(Some(Friends), 0.95, false)
  {
    var h := FriendsPose;
    assert !IsCall(h) by {
      assert h[PinkyTip].y == h[PinkyDip].y;
    }
  }

  /** Index and pinky raised and spread 0.2 apart, middle and ring folded. */
  const ILoveYouPose: Hand := Pose(map[
    IndexTip := Landmark(0.40, 0.30, 0.0), PinkyTip := Landmark(0.60, 0.30, 0.0)])

  lemma ILoveYouPoseIsILoveYou(trig: Trig)
    ensures ClassifyHand(ILoveYouPose, trig) == Reading(Some(ILoveYou), 0.95, false)
  {
    var h := ILoveYouPose;
    assert !IsCall(h) by {
      assert h[ThumbTip].y == h[ThumbIp].y;
    }
  }

  /** Only the pinky raised, thumb tip level with the wrist. */
  const AngryPose: Hand := Pose(map[PinkyTip := Landmark(0.60, 0.30, 0.0)])

  lemma AngryPoseIsAngry(trig: Trig)
    ensures ClassifyHand(AngryPose, trig) == Reading(Some(Angry), 0.95, false)
  {
    var h := AngryPose;
    assert !IsCall(h) by {
      assert h[ThumbTip].y == h[ThumbIp].y;
    }
  }
}
