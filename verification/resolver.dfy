/**
 The priority resolver: picks at most one gesture among the predicates
 that fired, by a fixed order, and attaches that gesture's fixed
 confidence.
 */
module Resolver {
  import opened Wrappers
  import opened Gestures

  /** The gestures, named as the application displays them. Note the
      display names the code attaches: the OK-sign predicate is shown as
      Super and the gun predicate as Happy. */
  datatype Label =
    | Call | Victory | Super | Happy | Pointing | Hello
    | Like | Dislike | Friends | ILoveYou | Angry

  /** The text shown for each label. */
  function Name(l: Label): string {
    match l
    case Call => "Call"
    case Victory => "Victory"
    case Super => "Super"
    case Happy => "Happy"
    case Pointing => "Pointing"
    case Hello => "Hello"
    case Like => "Like"
    case Dislike => "Dislike"
    case Friends => "Friends"
    case ILoveYou => "I Love You"
    case Angry => "Angry"
  }

  /** Distinct labels are displayed under distinct texts, so the text
      shown identifies the gesture. */
  lemma NameIdentifiesLabel(a: Label, b: Label)
    ensures Name(a) == Name(b) <==> a == b
  {
  }

  /** What one classification call reports: the gesture (or none), its
      confidence, and whether the call failed and the error text was set. */
  datatype Reading = Reading(gesture: Option<Label>, confidence: real, faulted: bool)

  /** The reading for "no gesture". */
  const Nothing: Reading := Reading(None, 0.0, false)

  /** The fixed confidence of each label: a calibration constant, not a
      per-frame score. */
  function ConfidenceOf(l: Label): (c: real)
    ensures 0.0 < c <= 1.0
    ensures c == 0.9 <==> l == Like
    ensures c == 0.95 <==> l != Like
  {
    if l == Like then 0.9 else 0.95
  }

  /** Reports a chosen label with its confidence. */
  function Report(l: Label): (r: Reading)
    ensures r.gesture == Some(l) && !r.faulted
    ensures r.confidence == ConfidenceOf(l)
  {
    Reading(Some(l), ConfidenceOf(l), false)
  }

  /** The order in which the code tests the gestures, highest first. */
  const Priority: seq<Label> :=
    [Call, Victory, Super, Happy, Pointing, Hello, Like, Dislike, Friends, ILoveYou, Angry]

  /** Position of a label in the priority order. */
  function Rank(l: Label): (k: nat)
    ensures k < |Priority| && Priority[k] == l
  {
    match l
    case Call => 0
    case Victory => 1
    case Super => 2
    case Happy => 3
    case Pointing => 4
    case Hello => 5
    case Like => 6
    case Dislike => 7
    case Friends => 8
    case ILoveYou => 9
    case Angry => 10
  }

  /** Each label occurs exactly once in the priority order. */
  lemma RankOfPriority(k: nat)
    requires k < |Priority|
    ensures Rank(Priority[k]) == k
  {
  }

  /** Which predicate stands behind each label. */
  predicate Fires(call: bool, v: Verdicts, l: Label) {
    match l
    case Call => call
    case Victory => v.victory
    case Super => v.okSign
    case Happy => v.gun
    case Pointing => v.pointingUp
    case Hello => v.hello
    case Like => v.thumbsUp
    case Dislike => v.thumbsDown
    case Friends => v.friends
    case ILoveYou => v.iLoveYou
    case Angry => v.angry
  }

  /** The firing predicate as a function of the label. */
  function FiringOf(call: bool, v: Verdicts): Label -> bool {
    l => Fires(call, v, l)
  }

  /** Reference definition of a priority resolver: the first label of
      `order`, from position `from` on, whose predicate fires. */
  function FirstFired(order: seq<Label>, fires: Label -> bool, from: nat := 0): (r: Option<Label>)
    requires from <= |order|
    ensures r.Some? ==> fires(r.value)
    ensures r.None? <==> forall i :: from <= i < |order| ==> !fires(order[i])
    decreases |order| - from
  {
    if from == |order| then None
    else if fires(order[from]) then Some(order[from])
    else FirstFired(order, fires, from + 1)
  }

  /** No label of `order` in positions [from, i) fires. */
  predicate NoneFires(order: seq<Label>, fires: Label -> bool, from: nat, i: nat)
    requires from <= i <= |order|
  {
    forall k :: from <= k < i ==> !fires(order[k])
  }

  /** FirstFired picks l exactly when some occurrence of l fires and
      nothing before that occurrence does. */
  lemma {:induction false} FirstFiredIsEarliest(order: seq<Label>, fires: Label -> bool, l: Label, from: nat)
    requires from <= |order|
    ensures FirstFired(order, fires, from) == Some(l) <==>
      exists i :: from <= i < |order| && order[i] == l && fires(l) && NoneFires(order, fires, from, i)
    decreases |order| - from
  {
    if from == |order| {
    } else if fires(order[from]) {
      if FirstFired(order, fires, from) == Some(l) {
        assert order[from] == l && NoneFires(order, fires, from, from);
      }
      forall i | from <= i < |order| && order[i] == l && fires(l) && NoneFires(order, fires, from, i)
        ensures order[from] == l
      {
        assert i == from;
      }
    } else {
      FirstFiredIsEarliest(order, fires, l, from + 1);
      if FirstFired(order, fires, from) == Some(l) {
        var j :| from + 1 <= j < |order| && order[j] == l && fires(l) && NoneFires(order, fires, from + 1, j);
        assert NoneFires(order, fires, from, j);
      }
      forall i | from <= i < |order| && order[i] == l && fires(l) && NoneFires(order, fires, from, i)
        ensures FirstFired(order, fires, from) == Some(l)
      {
        assert i > from;
        assert NoneFires(order, fires, from + 1, i);
      }
    }
  }

  /** The code's if/else chain over the ten predicates (Call has already
      been ruled out by the caller). */
  function Resolve(v: Verdicts): (r: Reading)
    ensures !r.faulted
    ensures r.gesture.None? <==> r.confidence == 0.0
    ensures r.gesture.Some? ==>
      Fires(false, v, r.gesture.value) && r.confidence == ConfidenceOf(r.gesture.value)
    ensures r.gesture.None? <==>
      !(v.victory || v.okSign || v.gun || v.pointingUp || v.hello
        || v.thumbsUp || v.thumbsDown || v.friends || v.iLoveYou || v.angry)
  {
    if v.victory then Report(Victory)
    else if v.okSign then Report(Super)
    else if v.gun then Report(Happy)
    else if v.pointingUp then Report(Pointing)
    else if v.hello then Report(Hello)
    else if v.thumbsUp then Report(Like)
    else if v.thumbsDown then Report(Dislike)
    else if v.friends then Report(Friends)
    else if v.iLoveYou then Report(ILoveYou)
    else if v.angry then Report(Angry)
    else Nothing
  }

  /** The chain is the reference resolver over the priority order, with
      Call not firing. */
  lemma ResolveIsFirstFired(v: Verdicts)
    ensures Resolve(v).gesture == FirstFired(Priority, FiringOf(false, v))
  {
    var fires := FiringOf(false, v);
    assert FirstFired(Priority, fires, 0) == FirstFired(Priority, fires, 1);
    ChainTail(v);
  }

  lemma ChainTail(v: Verdicts)
    ensures FirstFired(Priority, FiringOf(false, v), 1) == Resolve(v).gesture
  {
    if v.victory || v.okSign || v.gun || v.pointingUp || v.hello {
      ChainHead(v);
    } else {
      ChainSkipHead(v);
      ChainRest(v);
    }
  }

  /** Positions 1 to 5 of the order: Victory, Super, Happy, Pointing, Hello. */
  lemma ChainHead(v: Verdicts)
    requires v.victory || v.okSign || v.gun || v.pointingUp || v.hello
    ensures FirstFired(Priority, FiringOf(false, v), 1) == Resolve(v).gesture
  {
    var fires, p := FiringOf(false, v), Priority;
    assert FirstFired(p, fires, 1) == if v.victory then Some(Victory) else FirstFired(p, fires, 2);
    assert FirstFired(p, fires, 2) == if v.okSign then Some(Super) else FirstFired(p, fires, 3);
    assert FirstFired(p, fires, 3) == if v.gun then Some(Happy) else FirstFired(p, fires, 4);
    assert FirstFired(p, fires, 4) == if v.pointingUp then Some(Pointing) else FirstFired(p, fires, 5);
    assert FirstFired(p, fires, 5) == if v.hello then Some(Hello) else FirstFired(p, fires, 6);
  }

  lemma ChainSkipHead(v: Verdicts)
    requires !(v.victory || v.okSign || v.gun || v.pointingUp || v.hello)
    ensures FirstFired(Priority, FiringOf(false, v), 1) == FirstFired(Priority, FiringOf(false, v), 6)
  {
    var fires, p := FiringOf(false, v), Priority;
    assert FirstFired(p, fires, 1) == FirstFired(p, fires, 2);
    assert FirstFired(p, fires, 2) == FirstFired(p, fires, 3);
    assert FirstFired(p, fires, 3) == FirstFired(p, fires, 4);
    assert FirstFired(p, fires, 4) == FirstFired(p, fires, 5);
    assert FirstFired(p, fires, 5) == FirstFired(p, fires, 6);
  }

  /** Positions 6 to 10 of the order: Like, Dislike, Friends, I Love You, Angry. */
  lemma ChainRest(v: Verdicts)
    requires !(v.victory || v.okSign || v.gun || v.pointingUp || v.hello)
    ensures FirstFired(Priority, FiringOf(false, v), 6) == Resolve(v).gesture
  {
    var fires, p := FiringOf(false, v), Priority;
    assert FirstFired(p, fires, 6) == if v.thumbsUp then Some(Like) else FirstFired(p, fires, 7);
    assert FirstFired(p, fires, 7) == if v.thumbsDown then Some(Dislike) else FirstFired(p, fires, 8);
    assert FirstFired(p, fires, 8) == if v.friends then Some(Friends) else FirstFired(p, fires, 9);
    assert FirstFired(p, fires, 9) == if v.iLoveYou then Some(ILoveYou) else FirstFired(p, fires, 10);
    assert FirstFired(p, fires, 10) == if v.angry then Some(Angry) else FirstFired(p, fires, 11);
  }
}
