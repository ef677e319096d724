/**
 The feature extractor: everything the classifier derives from one hand
 before it tests the gesture predicates. Distances are kept squared; see
 Landmarks.RootComparison for why the thresholds then square as well.
 */
module Features {
  import opened Landmarks

  /** The two trigonometric primitives the victory test uses: `atan2`
      stands for `Math.atan2` and `pi` for `Math.PI`. Their values are
      left unconstrained, so every property proved here holds for any
      atan2 and pi; they enter only the victory angle test. */
  datatype Trig = Trig(atan2: (real, real) -> real, pi: real)

  /** The per-frame feature snapshot. The last five fields are computed by
      the page's classifier but never consulted by any predicate. */
  datatype Snapshot = Snapshot(
    indexExtended: bool,
    middleExtended: bool,
    ringExtended: bool,
    pinkyExtended: bool,
    indexMiddleSq: real,
    angleBetween: real,
    thumbIndexSq: real,
    numExtended: nat,
    curlSq: seq<real>,
    curled: seq<bool>,
    allCurled: bool)

  /** How far (in normalized y) a fingertip must rise above its knuckle to
      count as extended. */
  const ExtensionMargin: real := 0.15

  /** A finger is extended when its tip lies clearly above its MCP joint. */
  predicate Extended(h: Hand, tip: nat, mcp: nat): (b: bool)
    requires Complete(h) && tip < Count && mcp < Count
    ensures b ==> h[tip].y < h[mcp].y
  {
    h[tip].y < h[mcp].y - ExtensionMargin
  }

  /** Direction of the finger from knuckle to tip. */
  function Direction(h: Hand, trig: Trig, tip: nat, mcp: nat): real
    requires Complete(h) && tip < Count && mcp < Count
  {
    trig.atan2(h[tip].y - h[mcp].y, h[tip].x - h[mcp].x)
  }

  /** A finger's direction depends only on the offset from its knuckle to
      its tip, not on where the finger sits in the frame. */
  lemma DirectionDependsOnOffset(h1: Hand, h2: Hand, trig: Trig, tip: nat, mcp: nat)
    requires Complete(h1) && Complete(h2) && tip < Count && mcp < Count
    requires h1[tip].x - h1[mcp].x == h2[tip].x - h2[mcp].x
    requires h1[tip].y - h1[mcp].y == h2[tip].y - h2[mcp].y
    ensures Direction(h1, trig, tip, mcp) == Direction(h2, trig, tip, mcp)
  {
  }

  /** Number of true entries. */
  function CountTrue(flags: seq<bool>): (n: nat)
    ensures n <= |flags|
    ensures n == 0 <==> forall i :: 0 <= i < |flags| ==> !flags[i]
    ensures n == |flags| <==> forall i :: 0 <= i < |flags| ==> flags[i]
  {
    if |flags| == 0 then 0
    else (if flags[0] then 1 else 0) + CountTrue(flags[1..])
  }

  /** The count of four flags, written out. */
  lemma CountTrueOfFour(a: bool, b: bool, c: bool, d: bool)
    ensures CountTrue([a, b, c, d]) ==
      (if a then 1 else 0) + (if b then 1 else 0) + (if c then 1 else 0) + (if d then 1 else 0)
  {
    assert [d][1..] == [];
    assert CountTrue([d]) == (if d then 1 else 0);
    assert [c, d][1..] == [d];
    assert CountTrue([c, d]) == (if c then 1 else 0) + CountTrue([d]);
    assert [b, c, d][1..] == [c, d];
    assert CountTrue([b, c, d]) == (if b then 1 else 0) + CountTrue([c, d]);
    assert [a, b, c, d][1..] == [b, c, d];
  }

  /** CountTrue is the multiplicity of `true` among the flags, the length
      of the flags filtered down to the true ones. */
  lemma {:induction false} CountTrueIsMultiplicity(flags: seq<bool>)
    ensures CountTrue(flags) == multiset(flags)[true]
  {
    if |flags| > 0 {
      assert flags == [flags[0]] + flags[1..];
      CountTrueIsMultiplicity(flags[1..]);
    }
  }

  /** A finger counts as curled when its tip lies within 0.12 of its
      knuckle, that is, within 0.12 * 0.12 squared. */
  const CurlSqThreshold: real := 0.12 * 0.12

  /** The squared tip-to-knuckle distances of index, middle, ring and
      pinky. */
  function Curls(h: Hand): (c: seq<real>)
    requires Complete(h)
    ensures |c| == 4
    ensures forall i :: 0 <= i < 4 ==> c[i] >= 0.0
  {
    [
      SqDistXY(h[IndexTip], h[IndexMcp]),
      SqDistXY(h[MiddleTip], h[MiddleMcp]),
      SqDistXY(h[RingTip], h[RingMcp]),
      SqDistXY(h[PinkyTip], h[PinkyMcp])
    ]
  }

  /** Whether every flag is set. */
  predicate AllTrue(flags: seq<bool>) {
    forall i :: 0 <= i < |flags| ==> flags[i]
  }

  /** Which of the four fingers count as curled. */
  function CurlFlags(curls: seq<real>): (flags: seq<bool>)
    requires |curls| == 4
    ensures |flags| == 4
    ensures forall i :: 0 <= i < 4 ==> (flags[i] <==> curls[i] < CurlSqThreshold)
  {
    [
      curls[0] < CurlSqThreshold,
      curls[1] < CurlSqThreshold,
      curls[2] < CurlSqThreshold,
      curls[3] < CurlSqThreshold
    ]
  }

  function Extract(h: Hand, trig: Trig): (f: Snapshot)
    requires Complete(h)
    ensures f.numExtended ==
      (if f.indexExtended then 1 else 0) + (if f.middleExtended then 1 else 0) +
      (if f.ringExtended then 1 else 0) + (if f.pinkyExtended then 1 else 0)
    ensures f.numExtended <= 4
    ensures f.numExtended == 0 <==>
      !f.indexExtended && !f.middleExtended && !f.ringExtended && !f.pinkyExtended
    ensures f.numExtended == 4 <==>
      f.indexExtended && f.middleExtended && f.ringExtended && f.pinkyExtended
    ensures f.indexMiddleSq >= 0.0 && f.thumbIndexSq >= 0.0 && f.angleBetween >= 0.0
    ensures |f.curlSq| == 4 && |f.curled| == 4
    ensures forall i :: 0 <= i < 4 ==> f.curlSq[i] >= 0.0
    ensures f.allCurled <==> forall i :: 0 <= i < 4 ==> f.curled[i]
  {
    var index, middle, ring, pinky :=
      Extended(h, IndexTip, IndexMcp),
      Extended(h, MiddleTip, MiddleMcp),
      Extended(h, RingTip, RingMcp),
      Extended(h, PinkyTip, PinkyMcp);
    CountTrueOfFour(index, middle, ring, pinky);
    var curls := Curls(h);
    var curled := CurlFlags(curls);
    Snapshot(
      index, middle, ring, pinky,
      SqDistXY(h[IndexTip], h[MiddleTip]),
      Abs(Direction(h, trig, IndexTip, IndexMcp) - Direction(h, trig, MiddleTip, MiddleMcp)),
      SqDistXY(h[ThumbTip], h[IndexTip]),
      CountTrue([index, middle, ring, pinky]),
      curls,
      curled,
      AllTrue(curled))
  }

  /** The extended-finger count is the number of extended fingers. */
  lemma ExtractCountsExtended(h: Hand, trig: Trig)
    requires Complete(h)
    ensures var f := Extract(h, trig);
      f.numExtended ==
        multiset([f.indexExtended, f.middleExtended, f.ringExtended, f.pinkyExtended])[true]
  {
    var f := Extract(h, trig);
    CountTrueIsMultiplicity([f.indexExtended, f.middleExtended, f.ringExtended, f.pinkyExtended]);
  }
}
