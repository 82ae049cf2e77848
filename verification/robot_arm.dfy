/**
 * RobotArmState: a two-rod arm anchored at the origin, given by the rod
 * lengths and the angle of each rod (the second relative to the first).
 * Its joint positions follow from those four numbers; equality and hashing
 * look at the angles only.
 */
module RobotArm {
  import opened Plane
  import opened JavaText

  datatype RobotArmState = RobotArmState(length1: real, length2: real, angle1: real, angle2: real)

  /** An Object argument: null, a RobotArmState, or an object of some other class. */
  datatype Obj = Null | Arm(arm: RobotArmState) | Other

  /**
   * The rod endpoints the constructor computes: the origin, the end of the
   * first rod, and the end of the second rod.
   */
  function Points(geo: Geometry, s: RobotArmState): (ps: seq<Point>)
    ensures |ps| == 3 && ps[0] == Point(0.0, 0.0)
  {
    var x1 := 0.0 + s.length1 * geo.cos(s.angle1);
    var y1 := 0.0 + s.length1 * geo.sin(s.angle1);
    var x2 := x1 + s.length2 * geo.cos(s.angle1 + s.angle2);
    var y2 := y1 + s.length2 * geo.sin(s.angle1 + s.angle2);
    [Point(0.0, 0.0), Point(x1, y1), Point(x2, y2)]
  }

  /** cos and sin satisfy the Pythagorean identity at angle `a`. */
  predicate UnitCircleAt(geo: Geometry, a: real) {
    geo.cos(a) * geo.cos(a) + geo.sin(a) * geo.sin(a) == 1.0
  }

  /** r * r * k == r * r when k == 1, spelled out for the solver. */
  lemma ScaledUnit(l: real, c: real, s: real)
    requires c * c + s * s == 1.0
    ensures (l * c) * (l * c) + (l * s) * (l * s) == l * l
  {
    calc {
      (l * c) * (l * c) + (l * s) * (l * s);
      == (l * l) * (c * c) + (l * l) * (s * s);
      == (l * l) * (c * c + s * s);
      == l * l;
    }
  }

  /** The first rod ends at distance length1 from the origin. */
  lemma FirstRodLength(geo: Geometry, s: RobotArmState)
    requires UnitCircleAt(geo, s.angle1)
    ensures SquaredDistance(Points(geo, s)[0], Points(geo, s)[1]) == s.length1 * s.length1
  {
    var ps := Points(geo, s);
    ScaledUnit(s.length1, geo.cos(s.angle1), geo.sin(s.angle1));
    assert ps[1].x - ps[0].x == s.length1 * geo.cos(s.angle1);
    assert ps[1].y - ps[0].y == s.length1 * geo.sin(s.angle1);
  }

  /** The second rod ends at distance length2 from the end of the first. */
  lemma SecondRodLength(geo: Geometry, s: RobotArmState)
    requires UnitCircleAt(geo, s.angle1 + s.angle2)
    ensures SquaredDistance(Points(geo, s)[1], Points(geo, s)[2]) == s.length2 * s.length2
  {
    var ps := Points(geo, s);
    ScaledUnit(s.length2, geo.cos(s.angle1 + s.angle2), geo.sin(s.angle1 + s.angle2));
    assert ps[2].x - ps[1].x == s.length2 * geo.cos(s.angle1 + s.angle2);
    assert ps[2].y - ps[1].y == s.length2 * geo.sin(s.angle1 + s.angle2);
  }

  /**
   * Consecutive points are one rod apart: the first rod ends at distance
   * length1 from the origin, and the second at distance length2 from there,
   * wherever cos and sin behave as on the unit circle.
   */
  lemma RodLengths(geo: Geometry, s: RobotArmState)
    requires UnitCircleAt(geo, s.angle1) && UnitCircleAt(geo, s.angle1 + s.angle2)
    ensures SquaredDistance(Points(geo, s)[0], Points(geo, s)[1]) == s.length1 * s.length1
    ensures SquaredDistance(Points(geo, s)[1], Points(geo, s)[2]) == s.length2 * s.length2
  {
    FirstRodLength(geo, s);
    SecondRodLength(geo, s);
  }

  /** The arm with both rods at angle zero lies along the x axis. */
  lemma StraightArm(geo: Geometry, l1: real, l2: real)
    requires geo.cos(0.0) == 1.0 && geo.sin(0.0) == 0.0
    ensures Points(geo, RobotArmState(l1, l2, 0.0, 0.0)) == [Point(0.0, 0.0), Point(l1, 0.0), Point(l1 + l2, 0.0)]
  {
    var ps := Points(geo, RobotArmState(l1, l2, 0.0, 0.0));
    assert ps[1] == Point(l1, 0.0);
    assert ps[2] == Point(l1 + l2, 0.0);
  }

  /** equals: another RobotArmState with the same two angles; lengths do not matter. */
  predicate Equals(s: RobotArmState, obj: Obj) {
    match obj
    case Null => false
    case Other => false
    case Arm(t) => s.angle1 == t.angle1 && s.angle2 == t.angle2
  }

  /** equals is an equivalence relation on states. */
  lemma EqualsIsEquivalence(s: RobotArmState, t: RobotArmState, u: RobotArmState)
    ensures Equals(s, Arm(s))
    ensures Equals(s, Arm(t)) ==> Equals(t, Arm(s))
    ensures Equals(s, Arm(t)) && Equals(t, Arm(u)) ==> Equals(s, Arm(u))
  {
  }

  /** Changing rod lengths never changes the outcome of equals, and nothing but a state is equal to one. */
  lemma EqualsIgnoresLengths(s: RobotArmState, obj: Obj, l1: real, l2: real)
    ensures Equals(s, obj) == Equals(s.(length1 := l1, length2 := l2), obj)
    ensures Equals(s, obj) ==> obj.Arm? && Equals(obj.arm.(length1 := l1, length2 := l2), Arm(s))
  {
  }

  /**
   * hashCode: Double.hashCode of angle1 plus 7 times that of angle2, in
   * 32-bit arithmetic; `doubleHash` stands for Double.hashCode.
   */
  function HashCode(s: RobotArmState, doubleHash: real -> Int32): (h: Int32) {
    Wrap32(doubleHash(s.angle1) + 7 * doubleHash(s.angle2))
  }

  /** Equal states have equal hash codes. */
  lemma HashCodeAgreesWithEquals(s: RobotArmState, t: RobotArmState, doubleHash: real -> Int32)
    requires Equals(s, Arm(t))
    ensures HashCode(s, doubleHash) == HashCode(t, doubleHash)
  {
  }
}
