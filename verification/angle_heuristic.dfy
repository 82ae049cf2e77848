/**
 * TotalAngleDeltaHeuristic: the A* estimate for the robot arm, the total
 * angle distance in degrees from a state to the goal state.
 */
module AngleHeuristic {
  import opened Wrappers
  import opened RobotArm
  import opened StateTools

  /**
   * How estimate fails on a state that is not a RobotArmState: a null state
   * passes the cast and then fails when its angles are read, any other class
   * fails the cast.
   */
  datatype EstimateError = NullState | NotRobotArmState

  /** estimate: the cast to RobotArmState, then totalAngleDelta to the goal. */
  function Estimate(goal: RobotArmState, s: Obj): (r: Result<real, EstimateError>)
    ensures r.Ok? <==> s.Arm?
    ensures s.Null? ==> r == Err(NullState)
    ensures s.Other? ==> r == Err(NotRobotArmState)
    ensures r.Ok? ==> r.value >= 0.0
    ensures r.Ok? ==> (r.value == 0.0 <==> Equals(goal, s))
  {
    match s
    case Null => Err(NullState)
    case Other => Err(NotRobotArmState)
    case Arm(ras) => Ok(TotalAngleDelta(ras, goal))
  }

  /**
   * The estimate is consistent when a move from `s` to `t` costs the angle
   * distance between them: it never drops by more than that cost.
   */
  lemma EstimateConsistent(goal: RobotArmState, s: RobotArmState, t: RobotArmState)
    ensures Estimate(goal, Arm(s)).value <= TotalAngleDelta(s, t) + Estimate(goal, Arm(t)).value
  {
    TotalAngleDeltaTriangle(s, t, goal);
  }

  /** The cost of walking along `p`, each step costing the angle distance it covers. */
  function PathCost(p: seq<RobotArmState>): (c: real)
    ensures c >= 0.0
    decreases |p|
  {
    if |p| < 2 then 0.0 else TotalAngleDelta(p[0], p[1]) + PathCost(p[1..])
  }

  /** The estimate is admissible: it never exceeds the cost of a walk that ends at a goal state. */
  lemma {:induction false} EstimateAdmissible(goal: RobotArmState, p: seq<RobotArmState>)
    requires |p| >= 1 && Equals(goal, Arm(p[|p| - 1]))
    ensures Estimate(goal, Arm(p[0])).value <= PathCost(p)
    decreases |p|
  {
    if |p| >= 2 {
      EstimateAdmissible(goal, p[1..]);
      EstimateConsistent(goal, p[0], p[1]);
    }
  }
}
