/**
 The hand skeleton produced by the external tracker: 21 landmarks in
 normalized camera space, with the anatomical index convention the
 classifier relies on, and the planar geometry used by every feature.
 */
module Landmarks {

  /** One tracked keypoint. x and y are in [0,1] of the frame (y grows
      downwards); z is relative depth. */
  datatype Landmark = Landmark(x: real, y: real, z: real)

  /** The landmarks of one detected hand, as the tracker delivers them. */
  type Hand = seq<Landmark>

  /** Number of landmarks in a hand skeleton. */
  const Count: nat := 21

  const Wrist: nat := 0
  const ThumbMcp: nat := 2
  const ThumbIp: nat := 3
  const ThumbTip: nat := 4
  const IndexMcp: nat := 5
  const IndexTip: nat := 8
  const MiddleMcp: nat := 9
  const MiddleDip: nat := 11
  const MiddleTip: nat := 12
  const RingMcp: nat := 13
  const RingDip: nat := 15
  const RingTip: nat := 16
  const PinkyMcp: nat := 17
  const PinkyDip: nat := 19
  const PinkyTip: nat := 20

  /** Landmarks the classifier never reads: the thumb CMC and the two
      middle joints of the index, middle, ring and pinky fingers that
      are not listed above. */
  const Unread: set<nat> := {1, 6, 7, 10, 14, 18}

  /** Every index the classifier reads exists. */
  predicate Complete(h: Hand) {
    |h| >= Count
  }

  function Abs(a: real): (r: real)
    ensures r >= 0.0
    ensures r == a || r == -a
  {
    if a < 0.0 then -a else a
  }

  /** Squared Euclidean distance in the image plane (z is ignored). */
  function SqDistXY(a: Landmark, b: Landmark): (r: real)
    ensures r >= 0.0
  {
    var dx := a.x - b.x;
    var dy := a.y - b.y;
    dx * dx + dy * dy
  }

  /** The planar distance reads only x and y. */
  lemma SqDistXYPlanar(a1: Landmark, b1: Landmark, a2: Landmark, b2: Landmark)
    requires a1.x == a2.x && a1.y == a2.y && b1.x == b2.x && b1.y == b2.y
    ensures SqDistXY(a1, b1) == SqDistXY(a2, b2)
  {
    var dx, dy := a1.x - b1.x, a1.y - b1.y;
    assert a2.x - b2.x == dx && a2.y - b2.y == dy;
  }

  lemma PositiveProduct(a: real, b: real)
    requires a > 0.0 && b > 0.0
    ensures a * b > 0.0
  {
  }

  /** s is the (non-negative) square root of d: what `Math.sqrt(d)` denotes. */
  predicate IsRoot(s: real, d: real) {
    s >= 0.0 && s * s == d
  }

  /** Comparing a square root against a non-negative threshold c is the
      same as comparing the radicand against c * c, because squaring is
      strictly monotone on non-negative reals. This is what licenses
      writing every `sqrt(d) > c` / `sqrt(d) < c` test of the code as
      `d > c * c` / `d < c * c`. */
  lemma RootComparison(s: real, d: real, c: real)
    requires IsRoot(s, d)
    requires c >= 0.0
    ensures s > c <==> d > c * c
    ensures s < c <==> d < c * c
  {
    if s > c {
      SquareStrictlyMonotone(c, s);
    } else if s < c {
      SquareStrictlyMonotone(s, c);
    }
  }

  lemma SquareStrictlyMonotone(a: real, b: real)
    requires 0.0 <= a < b
    ensures a * a < b * b
  {
    var gap, sum := b - a, b + a;
    PositiveProduct(gap, sum);
    assert b * b - a * a == gap * sum;
  }

  /** Two points more than c * sqrt(2) apart are more than c apart along
      the x axis or along the y axis. */
  lemma {:induction false} FarApartOnAnAxis(a: Landmark, b: Landmark, c: real)
    requires c >= 0.0
    ensures SqDistXY(a, b) > 2.0 * c * c ==> Abs(a.x - b.x) > c || Abs(a.y - b.y) > c
  {
    var dx, dy := Abs(a.x - b.x), Abs(a.y - b.y);
    if dx <= c && dy <= c {
      if dx < c { SquareStrictlyMonotone(dx, c); }
      if dy < c { SquareStrictlyMonotone(dy, c); }
      assert dx * dx == (a.x - b.x) * (a.x - b.x);
      assert dy * dy == (a.y - b.y) * (a.y - b.y);
    }
  }
}
