/**
 The classifier as one pure function of the tracker's per-frame output:
 no hand gives no gesture; a hand whose landmarks stop short of index 20
 makes the code throw, which its handler turns into no gesture with the
 error text set; otherwise the Call test runs first and returns early, and
 the remaining predicates go through the priority chain.
 */
module Classifier {
  import opened Wrappers
  import opened Landmarks
  import opened Features
  import opened Gestures
  import opened Resolver

  /** The ten predicates evaluated on a hand's own snapshot. */
  function VerdictsOf(h: Hand, trig: Trig): Verdicts
    requires Complete(h)
  {
    Evaluate(h, Extract(h, trig), trig.pi)
  }

  /** Whether the predicate behind label l holds for hand h. */
  predicate HandFires(h: Hand, trig: Trig, l: Label)
    requires Complete(h)
  {
    Fires(IsCall(h), VerdictsOf(h, trig), l)
  }

  /** Classifies one hand. */
  function ClassifyHand(h: Hand, trig: Trig): (r: Reading)
    ensures r.faulted <==> !Complete(h)
    ensures r.faulted ==> r.gesture.None? && r.confidence == 0.0
    ensures 0.0 <= r.confidence <= 1.0
    ensures r.confidence == 0.0 <==> r.gesture.None?
    ensures r.gesture.Some? ==> r.confidence == ConfidenceOf(r.gesture.value)
    ensures r.gesture == Some(Like) ==> r.confidence == 0.9
    ensures r.gesture.Some? && r.gesture.value != Like ==> r.confidence == 0.95
    ensures Complete(h) && IsCall(h) ==> r == Reading(Some(Call), 0.95, false)
  {
    if !Complete(h) then
      Reading(None, 0.0, true)
    else if IsCall(h) then
      Report(Call)
    else
      Resolve(VerdictsOf(h, trig))
  }

  /** Classifies the first hand the tracker reported, if any. */
  function Classify(tracked: Option<seq<Hand>>, trig: Trig): (r: Reading)
    ensures tracked.None? ==> r == Reading(None, 0.0, false)
    ensures tracked.Some? && |tracked.value| == 0 ==> r == Reading(None, 0.0, false)
    ensures r.gesture.None? <==> r.confidence == 0.0
  {
    match tracked
    case None => Nothing
    case Some(hands) => if |hands| == 0 then Nothing else ClassifyHand(hands[0], trig)
  }

  /** Only the first reported hand is classified. */
  lemma OnlyFirstHandCounts(hands1: seq<Hand>, hands2: seq<Hand>, trig: Trig)
    requires |hands1| > 0 && |hands2| > 0 && hands1[0] == hands2[0]
    ensures Classify(Some(hands1), trig) == Classify(Some(hands2), trig)
    ensures Classify(Some(hands1), trig) == ClassifyHand(hands1[0], trig)
  {
  }

  /** Checking Call first and returning early is the same as putting Call
      at the head of the priority order: the label chosen is the first one
      in Priority whose predicate holds. */
  lemma ClassifyIsPriorityChoice(h: Hand, trig: Trig)
    requires Complete(h)
    ensures ClassifyHand(h, trig).gesture == FirstFired(Priority, FiringOf(IsCall(h), VerdictsOf(h, trig)))
  {
    var v := VerdictsOf(h, trig);
    if !IsCall(h) {
      assert FirstFired(Priority, FiringOf(false, v), 0) == FirstFired(Priority, FiringOf(false, v), 1);
      ChainTail(v);
    }
  }

  /** The priority law: label l is returned exactly when its predicate
      holds and the predicate of every higher-priority label fails. */
  lemma ClassifyPicksFirstFiring(h: Hand, trig: Trig, l: Label)
    requires Complete(h)
    ensures ClassifyHand(h, trig).gesture == Some(l) <==>
      HandFires(h, trig, l) && forall k :: Rank(k) < Rank(l) ==> !HandFires(h, trig, k)
  {
    var fires := FiringOf(IsCall(h), VerdictsOf(h, trig));
    ClassifyIsPriorityChoice(h, trig);
    FirstFiredIsEarliest(Priority, fires, l, 0);
    if ClassifyHand(h, trig).gesture == Some(l) {
      var i :| 0 <= i < |Priority| && Priority[i] == l && fires(l) && NoneFires(Priority, fires, 0, i);
      RankOfPriority(i);
      forall k | Rank(k) < Rank(l)
        ensures !HandFires(h, trig, k)
      {
        assert !fires(Priority[Rank(k)]);
      }
    }
    if HandFires(h, trig, l) && forall k :: Rank(k) < Rank(l) ==> !HandFires(h, trig, k) {
      assert NoneFires(Priority, fires, 0, Rank(l)) by {
        forall j | 0 <= j < Rank(l)
          ensures !fires(Priority[j])
        {
          RankOfPriority(j);
        }
      }
    }
  }

  /** No gesture is reported exactly when no predicate holds. */
  lemma NothingIffNoneFires(h: Hand, trig: Trig)
    requires Complete(h)
    ensures ClassifyHand(h, trig).gesture.None? <==> forall l :: !HandFires(h, trig, l)
  {
    var fires := FiringOf(IsCall(h), VerdictsOf(h, trig));
    ClassifyIsPriorityChoice(h, trig);
    if ClassifyHand(h, trig).gesture.None? {
      forall l ensures !HandFires(h, trig, l) {
        assert !fires(Priority[Rank(l)]);
      }
    } else {
      assert HandFires(h, trig, ClassifyHand(h, trig).gesture.value);
    }
  }

  /** A gun pose always satisfies the pointing predicate, yet is never
      reported as Pointing: the gun predicate comes first and wins, so the
      pose is reported as Happy. The one exception is a gun pose that also
      passes the Call test, which returns Call before the gun test runs. */
  lemma GunShadowsPointing(h: Hand, trig: Trig)
    requires Complete(h)
    ensures VerdictsOf(h, trig).gun ==> VerdictsOf(h, trig).pointingUp
    ensures VerdictsOf(h, trig).gun ==> ClassifyHand(h, trig).gesture != Some(Pointing)
    ensures VerdictsOf(h, trig).gun && !IsCall(h) ==>
      ClassifyHand(h, trig) == Reading(Some(Happy), 0.95, false)
  {
    ClassifyPicksFirstFiring(h, trig, Pointing);
    assert Rank(Happy) < Rank(Pointing);
  }

  /** Pointing is reported only for a hand with exactly the index finger
      extended whose gun test fails. */
  lemma PointingMeansIndexOnly(h: Hand, trig: Trig)
    requires Complete(h)
    ensures ClassifyHand(h, trig).gesture == Some(Pointing) ==>
      && Extended(h, IndexTip, IndexMcp)
      && !Extended(h, MiddleTip, MiddleMcp) && !Extended(h, RingTip, RingMcp)
      && !Extended(h, PinkyTip, PinkyMcp)
      && !VerdictsOf(h, trig).gun
  {
    ClassifyPicksFirstFiring(h, trig, Pointing);
    assert Rank(Happy) < Rank(Pointing);
  }

  /** The result depends on a hand only through its Call verdict and its
      ten verdicts. */
  lemma DecidedByVerdicts(h1: Hand, h2: Hand, trig: Trig)
    requires Complete(h1) && Complete(h2)
    requires IsCall(h1) == IsCall(h2)
    requires VerdictsOf(h1, trig) == VerdictsOf(h2, trig)
    ensures ClassifyHand(h1, trig) == ClassifyHand(h2, trig)
  {
  }

  /** Two hands that agree on every landmark the classifier reads. */
  predicate SameRead(h1: Hand, h2: Hand)
    requires Complete(h1) && Complete(h2)
  {
    && h1[Wrist] == h2[Wrist] && h1[ThumbMcp] == h2[ThumbMcp]
    && h1[ThumbIp] == h2[ThumbIp] && h1[ThumbTip] == h2[ThumbTip]
    && h1[IndexMcp] == h2[IndexMcp] && h1[IndexTip] == h2[IndexTip]
    && h1[MiddleMcp] == h2[MiddleMcp] && h1[MiddleDip] == h2[MiddleDip]
    && h1[MiddleTip] == h2[MiddleTip]
    && h1[RingMcp] == h2[RingMcp] && h1[RingDip] == h2[RingDip]
    && h1[RingTip] == h2[RingTip]
    && h1[PinkyMcp] == h2[PinkyMcp] && h1[PinkyDip] == h2[PinkyDip]
    && h1[PinkyTip] == h2[PinkyTip]
  }

  /** The landmarks in Unread, and any beyond index 20, never affect the
      result. */
  lemma UnreadLandmarksIgnored(h1: Hand, h2: Hand, trig: Trig)
    requires Complete(h1) && Complete(h2)
    requires forall i :: 0 <= i < Count && i !in Unread ==> h1[i] == h2[i]
    ensures ClassifyHand(h1, trig) == ClassifyHand(h2, trig)
  {
    assert SameRead(h1, h2);
    SameReadSameVerdicts(h1, h2, trig);
    DecidedByVerdicts(h1, h2, trig);
  }

  lemma SameReadSameVerdicts(h1: Hand, h2: Hand, trig: Trig)
    requires Complete(h1) && Complete(h2)
    requires SameRead(h1, h2)
    ensures IsCall(h1) == IsCall(h2)
    ensures VerdictsOf(h1, trig) == VerdictsOf(h2, trig)
  {
    assert Curls(h1) == Curls(h2);
    assert Direction(h1, trig, IndexTip, IndexMcp) == Direction(h2, trig, IndexTip, IndexMcp);
    assert Direction(h1, trig, MiddleTip, MiddleMcp) == Direction(h2, trig, MiddleTip, MiddleMcp);
    assert Extract(h1, trig) == Extract(h2, trig);
  }

  /** Two hands that agree in the image plane. */
  predicate SamePlanar(h1: Hand, h2: Hand)
    requires Complete(h1) && Complete(h2)
  {
    forall i :: 0 <= i < Count ==> PlanarAt(h1, h2, i)
  }

  /** Depth is read only at the thumb and index tips. */
  lemma DepthReadOnlyAtThumbAndIndexTips(h1: Hand, h2: Hand, trig: Trig)
    requires Complete(h1) && Complete(h2)
    requires SamePlanar(h1, h2)
    requires h1[ThumbTip].z == h2[ThumbTip].z && h1[IndexTip].z == h2[IndexTip].z
    ensures ClassifyHand(h1, trig) == ClassifyHand(h2, trig)
  {
    PlanarVerdicts(h1, h2, trig);
    DecidedByVerdicts(h1, h2, trig);
  }

  /** Depth matters only through the OK-sign (Super) predicate: hands that
      agree in the image plane and on that predicate classify alike. */
  lemma DepthOnlyDecidesSuper(h1: Hand, h2: Hand, trig: Trig)
    requires Complete(h1) && Complete(h2)
    requires SamePlanar(h1, h2)
    ensures VerdictsOf(h1, trig).okSign == VerdictsOf(h2, trig).okSign ==>
      ClassifyHand(h1, trig) == ClassifyHand(h2, trig)
  {
    if VerdictsOf(h1, trig).okSign == VerdictsOf(h2, trig).okSign {
      PlanarVerdicts(h1, h2, trig);
      assert VerdictsOf(h1, trig) == VerdictsOf(h2, trig);
      DecidedByVerdicts(h1, h2, trig);
    }
  }

  /** Hands that agree in the image plane have the same Call verdict and
      the same verdicts apart from the OK sign, which agrees too when the
      thumb and index tips have the same depth. */
  lemma PlanarVerdicts(h1: Hand, h2: Hand, trig: Trig)
    requires Complete(h1) && Complete(h2)
    requires SamePlanar(h1, h2)
    ensures IsCall(h1) == IsCall(h2)
    ensures VerdictsOf(h2, trig) == VerdictsOf(h1, trig).(okSign := VerdictsOf(h2, trig).okSign)
    ensures h1[ThumbTip].z == h2[ThumbTip].z && h1[IndexTip].z == h2[IndexTip].z ==>
      VerdictsOf(h1, trig) == VerdictsOf(h2, trig)
  {
    PlanarSnapshot(h1, h2, trig);
    PlanarCall(h1, h2);
    assert PlanarAt(h1, h2, Wrist) && PlanarAt(h1, h2, ThumbMcp) && PlanarAt(h1, h2, ThumbIp);
    assert PlanarAt(h1, h2, ThumbTip) && PlanarAt(h1, h2, IndexMcp) && PlanarAt(h1, h2, IndexTip);
    assert PlanarAt(h1, h2, MiddleDip) && PlanarAt(h1, h2, MiddleTip);
    assert PlanarAt(h1, h2, RingDip) && PlanarAt(h1, h2, RingTip);
    assert PlanarAt(h1, h2, PinkyDip) && PlanarAt(h1, h2, PinkyTip);
    var v1, v2 := VerdictsOf(h1, trig), VerdictsOf(h2, trig);
    assert v1.victory == v2.victory && v1.gun == v2.gun && v1.pointingUp == v2.pointingUp;
    assert v1.hello == v2.hello && v1.thumbsUp == v2.thumbsUp && v1.thumbsDown == v2.thumbsDown;
    assert v1.angry == v2.angry && v1.iLoveYou == v2.iLoveYou && v1.friends == v2.friends;
  }

  /** A victory verdict needs exactly two extended fingers, and it can hold
      only when pi is positive, since the angle between two fingers is never
      negative. */
  lemma VictoryShape(h: Hand, trig: Trig)
    requires Complete(h)
    ensures VerdictsOf(h, trig).victory ==>
      Extract(h, trig).numExtended == 2 && trig.pi > 0.0
  {
    var f := Extract(h, trig);
    if VerdictsOf(h, trig).victory {
      assert IsVictory(h, f, trig.pi);
    }
  }

  /** The Call test reads only planar coordinates. */
  lemma PlanarCall(h1: Hand, h2: Hand)
    requires Complete(h1) && Complete(h2)
    requires SamePlanar(h1, h2)
    ensures IsCall(h1) == IsCall(h2)
  {
    assert PlanarAt(h1, h2, ThumbIp) && PlanarAt(h1, h2, ThumbTip);
    assert PlanarAt(h1, h2, MiddleDip) && PlanarAt(h1, h2, MiddleTip);
    assert PlanarAt(h1, h2, RingDip) && PlanarAt(h1, h2, RingTip);
    assert PlanarAt(h1, h2, PinkyDip) && PlanarAt(h1, h2, PinkyTip);
    SqDistXYPlanar(h1[ThumbTip], h1[PinkyTip], h2[ThumbTip], h2[PinkyTip]);
  }

  /** The snapshot reads only planar coordinates. */
  lemma PlanarSnapshot(h1: Hand, h2: Hand, trig: Trig)
    requires Complete(h1) && Complete(h2)
    requires SamePlanar(h1, h2)
    ensures Extract(h1, trig) == Extract(h2, trig)
  {
    assert PlanarAt(h1, h2, ThumbTip) && PlanarAt(h1, h2, IndexMcp) && PlanarAt(h1, h2, IndexTip);
    assert PlanarAt(h1, h2, MiddleMcp) && PlanarAt(h1, h2, MiddleTip);
    assert PlanarAt(h1, h2, RingMcp) && PlanarAt(h1, h2, RingTip);
    assert PlanarAt(h1, h2, PinkyMcp) && PlanarAt(h1, h2, PinkyTip);
    SqDistXYPlanar(h1[IndexTip], h1[MiddleTip], h2[IndexTip], h2[MiddleTip]);
    SqDistXYPlanar(h1[ThumbTip], h1[IndexTip], h2[ThumbTip], h2[IndexTip]);
    SqDistXYPlanar(h1[IndexTip], h1[IndexMcp], h2[IndexTip], h2[IndexMcp]);
    SqDistXYPlanar(h1[MiddleTip], h1[MiddleMcp], h2[MiddleTip], h2[MiddleMcp]);
    SqDistXYPlanar(h1[RingTip], h1[RingMcp], h2[RingTip], h2[RingMcp]);
    SqDistXYPlanar(h1[PinkyTip], h1[PinkyMcp], h2[PinkyTip], h2[PinkyMcp]);
    DirectionPlanar(h1, h2, trig, IndexTip, IndexMcp);
    DirectionPlanar(h1, h2, trig, MiddleTip, MiddleMcp);
    var f1, f2 := Extract(h1, trig), Extract(h2, trig);
    assert f1.curlSq == f2.curlSq by {
      assert f1.curlSq[0] == f2.curlSq[0] && f1.curlSq[1] == f2.curlSq[1];
      assert f1.curlSq[2] == f2.curlSq[2] && f1.curlSq[3] == f2.curlSq[3];
    }
    assert f1.curled == f2.curled;
  }

  lemma DirectionPlanar(h1: Hand, h2: Hand, trig: Trig, tip: nat, mcp: nat)
    requires Complete(h1) && Complete(h2) && tip < Count && mcp < Count
    requires PlanarAt(h1, h2, tip) && PlanarAt(h1, h2, mcp)
    ensures Direction(h1, trig, tip, mcp) == Direction(h2, trig, tip, mcp)
  {
    assert h1[tip].y - h1[mcp].y == h2[tip].y - h2[mcp].y;
    assert h1[tip].x - h1[mcp].x == h2[tip].x - h2[mcp].x;
  }

  predicate PlanarAt(h1: Hand, h2: Hand, i: nat)
    requires i < |h1| && i < |h2|
  {
    h1[i].x == h2[i].x && h1[i].y == h2[i].y
  }
}
