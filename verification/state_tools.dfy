/**
 * StateTools: the distance between two arm states, the validity test of a
 * single state against the workspace and the obstacles, and the test of the
 * straight path between two states by sampling it.
 */
module StateTools {
  import opened Plane
  import opened RobotArm
  import opened JavaText

  function Abs(x: real): (r: real)
    ensures r >= 0.0 && (r == x || r == -x)
  {
    if x < 0.0 then -x else x
  }

  /** Math.max on two reals. */
  function Max(a: real, b: real): (r: real)
    ensures r >= a && r >= b && (r == a || r == b)
  {
    if a >= b then a else b
  }

  // ---------------------------------------------------------------- distance

  /** The two raw angle differences, added, in radians. */
  function AngleGap(s1: RobotArmState, s2: RobotArmState): real {
    Abs(s1.angle1 - s2.angle1) + Abs(s1.angle2 - s2.angle2)
  }

  /** totalAngleDelta: the two raw angle differences, added, in degrees. */
  function TotalAngleDelta(s1: RobotArmState, s2: RobotArmState): (r: real)
    ensures r >= 0.0
    ensures r == 0.0 <==> s1.angle1 == s2.angle1 && s1.angle2 == s2.angle2
  {
    ToDegrees(AngleGap(s1, s2))
  }

  /** The distance does not depend on the order of the states. */
  lemma TotalAngleDeltaSymmetric(s1: RobotArmState, s2: RobotArmState)
    ensures TotalAngleDelta(s1, s2) == TotalAngleDelta(s2, s1)
  {
    assert Abs(s1.angle1 - s2.angle1) == Abs(s2.angle1 - s1.angle1);
    assert Abs(s1.angle2 - s2.angle2) == Abs(s2.angle2 - s1.angle2);
  }

  lemma AbsTriangle(x: real, y: real)
    ensures Abs(x + y) <= Abs(x) + Abs(y)
  {
  }

  /** Going through a third state is never shorter. */
  lemma TotalAngleDeltaTriangle(s1: RobotArmState, s2: RobotArmState, s3: RobotArmState)
    ensures TotalAngleDelta(s1, s3) <= TotalAngleDelta(s1, s2) + TotalAngleDelta(s2, s3)
  {
    AbsTriangle(s1.angle1 - s2.angle1, s2.angle1 - s3.angle1);
    AbsTriangle(s1.angle2 - s2.angle2, s2.angle2 - s3.angle2);
    assert AngleGap(s1, s3) <= AngleGap(s1, s2) + AngleGap(s2, s3);
    ToDegreesAdds(AngleGap(s1, s2), AngleGap(s2, s3));
    ToDegreesMonotonic(AngleGap(s1, s3), AngleGap(s1, s2) + AngleGap(s2, s3));
  }

  /**
   * Angles are not taken modulo a full turn: two second-rod angles of 3 and
   * -3 radians, about 0.28 radians apart around the circle, count as 6
   * radians, which is more than 180 degrees.
   */
  lemma NoWraparound(l1: real, l2: real, a1: real)
    ensures TotalAngleDelta(RobotArmState(l1, l2, a1, 3.0), RobotArmState(l1, l2, a1, -3.0)) == ToDegrees(6.0)
    ensures ToDegrees(6.0) > 180.0
  {
  }

  // ---------------------------------------------------------------- validity

  /** The first rod lies in [0, PI/2] and the second in [-PI, PI], bounds included. */
  predicate AnglesInRange(s: RobotArmState) {
    !(s.angle1 < 0.0 || s.angle1 > PI / 2.0) && !(s.angle2 < -PI || s.angle2 > PI)
  }

  predicate InUnitInterval(c: real) {
    !(c < 0.0 || c > 1.0)
  }

  /** Every point lies in the unit square. */
  predicate InWorkspace(ps: seq<Point>) {
    forall k :: 0 <= k < |ps| ==> InUnitInterval(ps[k].x) && InUnitInterval(ps[k].y)
  }

  /** hasCollision: one of the two rods meets the obstacle's rectangle. */
  predicate HasCollision(geo: Geometry, s: RobotArmState, o: Obstacle) {
    var ps := Points(geo, s);
    geo.segmentHits(ps[0], ps[1], o.rect) || geo.segmentHits(ps[1], ps[2], o.rect)
  }

  /** What isValidState decides, stated as three conditions. */
  predicate IsValidState(geo: Geometry, s: RobotArmState, obstacles: seq<Obstacle>) {
    && AnglesInRange(s)
    && InWorkspace(Points(geo, s))
    && forall k :: 0 <= k < |obstacles| ==> !HasCollision(geo, s, obstacles[k])
  }

  /** isValidState, with its early returns: angles, then every coordinate of every point, then every obstacle. */
  method CheckValidState(geo: Geometry, s: RobotArmState, obstacles: seq<Obstacle>) returns (valid: bool)
    ensures valid == IsValidState(geo, s, obstacles)
  {
    if s.angle1 < 0.0 || s.angle1 > PI / 2.0 {
      return false;
    }
    if s.angle2 < -PI || s.angle2 > PI {
      return false;
    }
    var points := Points(geo, s);
    var k := 0;
    while k < |points|
      invariant 0 <= k <= |points|
      invariant forall m :: 0 <= m < k ==> InUnitInterval(points[m].x) && InUnitInterval(points[m].y)
    {
      var coords := [points[k].x, points[k].y];
      var c := 0;
      while c < |coords|
        invariant 0 <= c <= |coords|
        invariant forall m :: 0 <= m < c ==> InUnitInterval(coords[m])
      {
        if coords[c] < 0.0 || coords[c] > 1.0 {
          return false;
        }
        c := c + 1;
      }
      assert InUnitInterval(coords[0]) && InUnitInterval(coords[1]);
      k := k + 1;
    }
    k := 0;
    while k < |obstacles|
      invariant 0 <= k <= |obstacles|
      invariant forall m :: 0 <= m < k ==> !HasCollision(geo, s, obstacles[m])
    {
      if HasCollision(geo, s, obstacles[k]) {
        return false;
      }
      k := k + 1;
    }
    return true;
  }

  /** Without obstacles, validity is the range and workspace checks alone. */
  lemma NoObstaclesNoCollision(geo: Geometry, s: RobotArmState)
    ensures IsValidState(geo, s, []) <==> AnglesInRange(s) && InWorkspace(Points(geo, s))
  {
  }

  // ---------------------------------------------------------------- sampling

  /** The range bounds themselves pass, and values just outside them fail. */
  lemma AngleBoundsInclusive(l1: real, l2: real, e: real)
    requires e > 0.0
    ensures AnglesInRange(RobotArmState(l1, l2, 0.0, -PI)) && AnglesInRange(RobotArmState(l1, l2, PI / 2.0, PI))
    ensures !AnglesInRange(RobotArmState(l1, l2, -e, 0.0)) && !AnglesInRange(RobotArmState(l1, l2, PI / 2.0 + e, 0.0))
    ensures !AnglesInRange(RobotArmState(l1, l2, 0.0, -PI - e)) && !AnglesInRange(RobotArmState(l1, l2, 0.0, PI + e))
  {
  }

  /** Java's (int) cast of a whole-valued double: values beyond the int range saturate. */
  function SaturateToInt(c: int): (r: Int32)
    ensures MinInt <= c <= MaxInt ==> r == c
    ensures c > MaxInt ==> r == MaxInt
    ensures c < MinInt ==> r == MinInt
  {
    if c > MaxInt then MaxInt else if c < MinInt then MinInt else c
  }

  /** Math.ceil. */
  function Ceil(x: real): (c: int)
    ensures x <= c as real < x + 1.0
  {
    -((-x).Floor)
  }

  /** numSteps: (int)Math.ceil(maxDelta * 10), so that no step moves an angle by more than a tenth of a radian. */
  function StepCount(maxDelta: real): int {
    SaturateToInt(Ceil(maxDelta * 10.0))
  }

  /** The straight path hasDirectPath samples: start and end of each angle, and the number of steps. */
  datatype Sweep = Sweep(from1: real, to1: real, from2: real, to2: real, steps: int)

  /** (1 - t) * a0 + t * a1. */
  function Interpolate(a0: real, a1: real, t: real): real {
    (1.0 - t) * a0 + t * a1
  }

  /** The state at step `i`, with the rod lengths of `s1`. */
  function Sample(s1: RobotArmState, sw: Sweep, i: int): RobotArmState
    requires sw.steps > 0
  {
    var t := i as real / sw.steps as real;
    RobotArmState(s1.length1, s1.length2, Interpolate(sw.from1, sw.to1, t), Interpolate(sw.from2, sw.to2, t))
  }

  /** Every interior sample, steps 1 to steps - 1, is valid; the two ends are not checked. */
  predicate SweepValid(geo: Geometry, s1: RobotArmState, sw: Sweep, obstacles: seq<Obstacle>) {
    forall i :: 1 <= i < sw.steps ==> IsValidState(geo, Sample(s1, sw, i), obstacles)
  }

  /** With at most one step there is no interior sample, so the path is accepted whatever the obstacles. */
  lemma ShortSweepAccepted(geo: Geometry, s1: RobotArmState, sw: Sweep, obstacles: seq<Obstacle>)
    requires sw.steps <= 1
    ensures SweepValid(geo, s1, sw, obstacles)
  {
  }

  /** The sampling loop of hasDirectPath, returning false at the first invalid sample. */
  method CheckSweep(geo: Geometry, s1: RobotArmState, sw: Sweep, obstacles: seq<Obstacle>) returns (ok: bool)
    ensures ok == SweepValid(geo, s1, sw, obstacles)
  {
    var i := 1;
    while i < sw.steps
      invariant 1 <= i
      invariant sw.steps > 1 ==> i <= sw.steps
      invariant forall m :: 1 <= m < i && m < sw.steps ==> IsValidState(geo, Sample(s1, sw, m), obstacles)
    {
      var t := i as real / sw.steps as real;
      var angle1 := (1.0 - t) * sw.from1 + t * sw.to1;
      var angle2 := (1.0 - t) * sw.from2 + t * sw.to2;
      var s := RobotArmState(s1.length1, s1.length2, angle1, angle2);
      assert s == Sample(s1, sw, i);
      var valid := CheckValidState(geo, s, obstacles);
      if !valid {
        return false;
      }
      i := i + 1;
    }
    return true;
  }

  /**
   * The path hasDirectPath samples as the code is written: both ends of the
   * second angle are read from `s2`.
   */
  function AsWrittenSweep(s1: RobotArmState, s2: RobotArmState): Sweep {
    var angle2_0 := s2.angle2;
    var angle2_1 := s2.angle2;
    var maxDelta := Max(Abs(s2.angle1 - s1.angle1), Abs(angle2_1 - angle2_0));
    Sweep(s1.angle1, s2.angle1, angle2_0, angle2_1, StepCount(maxDelta))
  }

  /** The path evidently intended: the second angle also runs from `s1` to `s2`. */
  function DirectSweep(s1: RobotArmState, s2: RobotArmState): Sweep {
    var maxDelta := Max(Abs(s2.angle1 - s1.angle1), Abs(s2.angle2 - s1.angle2));
    Sweep(s1.angle1, s2.angle1, s1.angle2, s2.angle2, StepCount(maxDelta))
  }

  /** Which path hasDirectPath samples: the one the code computes, or the one evidently intended. */
  datatype PathTest = AsWritten | Intended

  function PathSweep(test: PathTest, s1: RobotArmState, s2: RobotArmState): Sweep {
    match test
    case AsWritten => AsWrittenSweep(s1, s2)
    case Intended => DirectSweep(s1, s2)
  }

  /** hasDirectPath as written. */
  method HasDirectPathAsWritten(geo: Geometry, s1: RobotArmState, s2: RobotArmState, obstacles: seq<Obstacle>) returns (ok: bool)
    ensures ok == SweepValid(geo, s1, AsWrittenSweep(s1, s2), obstacles)
  {
    ok := CheckSweep(geo, s1, AsWrittenSweep(s1, s2), obstacles);
  }

  /** hasDirectPath with the second angle starting at `s1`. */
  method HasDirectPath(geo: Geometry, s1: RobotArmState, s2: RobotArmState, obstacles: seq<Obstacle>) returns (ok: bool)
    ensures ok == SweepValid(geo, s1, DirectSweep(s1, s2), obstacles)
  {
    ok := CheckSweep(geo, s1, DirectSweep(s1, s2), obstacles);
  }

  /**
   * As written, every sample keeps the second angle of `s2`, and the step
   * count sees only the first angle: states that differ in the second angle
   * alone get no samples at all.
   */
  lemma AsWrittenHoldsSecondAngle(s1: RobotArmState, s2: RobotArmState, i: int)
    ensures AsWrittenSweep(s1, s2).steps == StepCount(Abs(s2.angle1 - s1.angle1))
    ensures AsWrittenSweep(s1, s2).steps > 0 ==> Sample(s1, AsWrittenSweep(s1, s2), i).angle2 == s2.angle2
    ensures s1.angle1 == s2.angle1 ==> AsWrittenSweep(s1, s2).steps == 0
  {
    var sw := AsWrittenSweep(s1, s2);
    assert Abs(s2.angle2 - s2.angle2) == 0.0;
    if sw.steps > 0 {
      var t := i as real / sw.steps as real;
      assert (1.0 - t) * s2.angle2 + t * s2.angle2 == s2.angle2;
    }
  }

  /**
   * A concrete case: the arm turns its second rod by one radian while every
   * intermediate pose hits an obstacle. As written, the path has no samples
   * and is accepted; the intended sweep takes ten steps and rejects it.
   */
  lemma AsWrittenSkipsSweep()
    ensures
      var geo := Geometry(a => 1.0, a => 0.0, (p, q, r) => true);
      var s1 := RobotArmState(0.5, 0.5, 0.0, 0.0);
      var s2 := RobotArmState(0.5, 0.5, 0.0, 1.0);
      var obstacles := [Obstacle(Rect(0.0, 0.0, 1.0, 1.0))];
      && AsWrittenSweep(s1, s2).steps == 0
      && SweepValid(geo, s1, AsWrittenSweep(s1, s2), obstacles)
      && DirectSweep(s1, s2).steps == 10
      && !SweepValid(geo, s1, DirectSweep(s1, s2), obstacles)
  {
    var geo := Geometry(a => 1.0, a => 0.0, (p, q, r) => true);
    var s1 := RobotArmState(0.5, 0.5, 0.0, 0.0);
    var s2 := RobotArmState(0.5, 0.5, 0.0, 1.0);
    var obstacles := [Obstacle(Rect(0.0, 0.0, 1.0, 1.0))];
    assert Ceil(10.0) == 10;
    assert Ceil(0.0) == 0;
    var sw := DirectSweep(s1, s2);
    assert HasCollision(geo, Sample(s1, sw, 1), obstacles[0]);
    assert !IsValidState(geo, Sample(s1, sw, 1), obstacles);
  }

  /** Consecutive interpolation points differ by the whole change divided by the number of steps. */
  lemma InterpolationStep(a0: real, a1: real, i: int, n: int)
    requires n > 0
    ensures Interpolate(a0, a1, (i + 1) as real / n as real) - Interpolate(a0, a1, i as real / n as real) == (a1 - a0) / n as real
  {
    var t := i as real / n as real;
    var t' := (i + 1) as real / n as real;
    assert t' == t + 1.0 / n as real;
    assert Interpolate(a0, a1, t) == a0 + t * (a1 - a0);
    assert Interpolate(a0, a1, t') == a0 + t' * (a1 - a0);
    assert t' * (a1 - a0) - t * (a1 - a0) == (1.0 / n as real) * (a1 - a0);
  }

  /** A change of at most n / 10, split into n equal parts, moves at most 0.1 per part. */
  lemma SmallShare(d: real, n: int)
    requires n > 0 && Abs(d) * 10.0 <= n as real
    ensures Abs(d / n as real) <= 0.1
  {
    var m := n as real;
    assert Abs(d / m) == Abs(d) / m;
    assert Abs(d) / m <= (m / 10.0) / m;
  }

  /** Interpolating over n steps moves at most 0.1 per step when the whole change is at most n / 10. */
  lemma InterpolationStepBound(a0: real, a1: real, i: int, n: int)
    requires n > 0 && Abs(a1 - a0) * 10.0 <= n as real
    ensures Abs(Interpolate(a0, a1, (i + 1) as real / n as real) - Interpolate(a0, a1, i as real / n as real)) <= 0.1
  {
    InterpolationStep(a0, a1, i, n);
    SmallShare(a1 - a0, n);
  }

  /** Step 0 is the start and step n the end. */
  lemma InterpolationEnds(a0: real, a1: real, n: int)
    requires n > 0
    ensures Interpolate(a0, a1, 0 as real / n as real) == a0
    ensures Interpolate(a0, a1, n as real / n as real) == a1
  {
    assert 0 as real / n as real == 0.0;
    assert n as real / n as real == 1.0;
  }

  /** While maxDelta * 10 fits in an int, numSteps is its ceiling and at least 10 times each angle change. */
  lemma DirectSteps(s1: RobotArmState, s2: RobotArmState)
    requires Max(Abs(s2.angle1 - s1.angle1), Abs(s2.angle2 - s1.angle2)) * 10.0 <= MaxInt as real
    ensures DirectSweep(s1, s2).steps >= 0
    ensures Abs(s2.angle1 - s1.angle1) * 10.0 <= DirectSweep(s1, s2).steps as real
    ensures Abs(s2.angle2 - s1.angle2) * 10.0 <= DirectSweep(s1, s2).steps as real
  {
    var maxDelta := Max(Abs(s2.angle1 - s1.angle1), Abs(s2.angle2 - s1.angle2));
    var c := Ceil(maxDelta * 10.0);
    assert c <= MaxInt;
    assert DirectSweep(s1, s2).steps == c;
  }

  /** With at least one step, the intended sweep starts at `s1`'s angles and ends at `s2`'s. */
  lemma DirectSweepEnds(s1: RobotArmState, s2: RobotArmState)
    requires DirectSweep(s1, s2).steps > 0
    ensures Sample(s1, DirectSweep(s1, s2), 0).angle1 == s1.angle1
    ensures Sample(s1, DirectSweep(s1, s2), 0).angle2 == s1.angle2
    ensures Sample(s1, DirectSweep(s1, s2), DirectSweep(s1, s2).steps).angle1 == s2.angle1
    ensures Sample(s1, DirectSweep(s1, s2), DirectSweep(s1, s2).steps).angle2 == s2.angle2
  {
    var n := DirectSweep(s1, s2).steps;
    InterpolationEnds(s1.angle1, s2.angle1, n);
    InterpolationEnds(s1.angle2, s2.angle2, n);
  }

  /** Between consecutive samples of the intended sweep each angle moves at most 0.1 radians. */
  lemma DirectSweepStep(s1: RobotArmState, s2: RobotArmState, i: int)
    requires Max(Abs(s2.angle1 - s1.angle1), Abs(s2.angle2 - s1.angle2)) * 10.0 <= MaxInt as real
    requires DirectSweep(s1, s2).steps > 0
    ensures Abs(Sample(s1, DirectSweep(s1, s2), i + 1).angle1 - Sample(s1, DirectSweep(s1, s2), i).angle1) <= 0.1
    ensures Abs(Sample(s1, DirectSweep(s1, s2), i + 1).angle2 - Sample(s1, DirectSweep(s1, s2), i).angle2) <= 0.1
  {
    var n := DirectSweep(s1, s2).steps;
    DirectSteps(s1, s2);
    InterpolationStepBound(s1.angle1, s2.angle1, i, n);
    InterpolationStepBound(s1.angle2, s2.angle2, i, n);
  }

  /**
   * The intended sweep is fine enough: while numSteps does not saturate, it
   * starts at `s1`'s angles, ends at `s2`'s, and moves each angle by at most
   * 0.1 radians per step; with no steps the two states have the same angles.
   */
  lemma DirectSweepResolution(s1: RobotArmState, s2: RobotArmState)
    requires Max(Abs(s2.angle1 - s1.angle1), Abs(s2.angle2 - s1.angle2)) * 10.0 <= MaxInt as real
    ensures DirectSweep(s1, s2).steps >= 0
    ensures DirectSweep(s1, s2).steps == 0 ==> s1.angle1 == s2.angle1 && s1.angle2 == s2.angle2
    ensures
      var sw := DirectSweep(s1, s2);
      sw.steps > 0 ==>
        && Sample(s1, sw, 0).angle1 == s1.angle1 && Sample(s1, sw, 0).angle2 == s1.angle2
        && Sample(s1, sw, sw.steps).angle1 == s2.angle1 && Sample(s1, sw, sw.steps).angle2 == s2.angle2
        && forall i {:trigger Sample(s1, sw, i)} :: 0 <= i < sw.steps ==>
             Abs(Sample(s1, sw, i + 1).angle1 - Sample(s1, sw, i).angle1) <= 0.1
             && Abs(Sample(s1, sw, i + 1).angle2 - Sample(s1, sw, i).angle2) <= 0.1
  {
    DirectSteps(s1, s2);
    if DirectSweep(s1, s2).steps > 0 {
      DirectSweepEnds(s1, s2);
      forall i | 0 <= i < DirectSweep(s1, s2).steps
        ensures Abs(Sample(s1, DirectSweep(s1, s2), i + 1).angle1 - Sample(s1, DirectSweep(s1, s2), i).angle1) <= 0.1
        ensures Abs(Sample(s1, DirectSweep(s1, s2), i + 1).angle2 - Sample(s1, DirectSweep(s1, s2), i).angle2) <= 0.1
      {
        DirectSweepStep(s1, s2, i);
      }
    }
  }
}
