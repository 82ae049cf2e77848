/**
 * RobotSolver's roadmap: random valid arm states are sampled, and every two
 * of them that are close in angle and joined by a valid straight path become
 * successors of each other, at the cost of their angle distance.
 *
 * The sampled states are held in one list and identified by their index in
 * it; the roadmap is one successor map per index (SuccessorGraph.Adj).
 */
module Roadmap {
  import opened Wrappers
  import opened Plane
  import opened RobotArm
  import opened StateTools
  import opened SuccessorGraph
  import opened AngleHeuristic

  // ---------------------------------------------------------------- sampling

  /** The values of the two random.nextDouble() calls behind one random state. */
  datatype Draw = Draw(u1: real, u2: real)

  /** nextDouble's range: [0, 1). */
  predicate IsUnit(u: real) {
    0.0 <= u < 1.0
  }

  /**
   * createRandomState: the first angle scaled to [0, PI/2), the second to
   * [-PI, PI), the rod lengths as given.
   */
  function CreateRandomState(length1: real, length2: real, d: Draw): (s: RobotArmState)
    ensures s.length1 == length1 && s.length2 == length2
    ensures IsUnit(d.u1) ==> 0.0 <= s.angle1 < PI / 2.0
    ensures IsUnit(d.u2) ==> -PI <= s.angle2 < PI
  {
    RobotArmState(length1, length2, d.u1 * PI / 2.0, (d.u2 - 0.5) * PI * 2.0)
  }

  /** A random state never fails the angle-range part of isValidState. */
  lemma RandomStatesInRange(length1: real, length2: real, d: Draw)
    requires IsUnit(d.u1) && IsUnit(d.u2)
    ensures AnglesInRange(CreateRandomState(length1, length2, d))
  {
  }

  /**
   * The obstacles and the geometry every validity test uses, and the path
   * test connectStates applies: the program as written uses AsWritten.
   */
  datatype Workspace = Workspace(geo: Geometry, obstacles: seq<Obstacle>, pathTest: PathTest)

  /** The valid states among the candidates the draws produce, in draw order. */
  function ValidCandidates(w: Workspace, length1: real, length2: real, ds: seq<Draw>): (vs: seq<RobotArmState>)
    ensures |vs| <= |ds|
    decreases |ds|
  {
    if ds == [] then []
    else
      var front := ValidCandidates(w, length1, length2, ds[..|ds| - 1]);
      var s := CreateRandomState(length1, length2, ds[|ds| - 1]);
      if IsValidState(w.geo, s, w.obstacles) then front + [s] else front
  }

  /** Every candidate kept is a valid state with the given rod lengths. */
  lemma {:induction false} ValidCandidatesAreValid(w: Workspace, length1: real, length2: real, ds: seq<Draw>)
    ensures forall k :: 0 <= k < |ValidCandidates(w, length1, length2, ds)| ==>
      var s := ValidCandidates(w, length1, length2, ds)[k];
      IsValidState(w.geo, s, w.obstacles) && s.length1 == length1 && s.length2 == length2
    decreases |ds|
  {
    if ds != [] {
      ValidCandidatesAreValid(w, length1, length2, ds[..|ds| - 1]);
    }
  }

  /** The candidates of a prefix of the draws are a prefix of the candidates of all of them. */
  lemma {:induction false} ValidCandidatesPrefix(w: Workspace, length1: real, length2: real, ds: seq<Draw>, m: nat)
    requires m <= |ds|
    ensures |ValidCandidates(w, length1, length2, ds[..m])| <= |ValidCandidates(w, length1, length2, ds)|
    ensures ValidCandidates(w, length1, length2, ds[..m])
      == ValidCandidates(w, length1, length2, ds)[..|ValidCandidates(w, length1, length2, ds[..m])|]
    decreases |ds|
  {
    if m < |ds| {
      var front := ds[..|ds| - 1];
      assert front[..m] == ds[..m];
      ValidCandidatesPrefix(w, length1, length2, front, m);
    } else {
      assert ds[..m] == ds;
    }
  }

  /** One more draw adds its candidate when that candidate is valid. */
  lemma ValidCandidatesStep(w: Workspace, length1: real, length2: real, ds: seq<Draw>, m: nat)
    requires m < |ds|
    ensures ValidCandidates(w, length1, length2, ds[..m + 1])
      == ValidCandidates(w, length1, length2, ds[..m])
         + if IsValidState(w.geo, CreateRandomState(length1, length2, ds[m]), w.obstacles)
           then [CreateRandomState(length1, length2, ds[m])] else []
  {
    assert ds[..m + 1][..m] == ds[..m];
  }

  /**
   * The `while (true)` loop of generateStates: draw random states until one
   * is valid. The draws from `used` on must still hold a valid candidate.
   */
  method DrawValidState(w: Workspace, length1: real, length2: real, draws: seq<Draw>, used: nat)
    returns (s: RobotArmState, used': nat)
    requires used <= |draws|
    requires |ValidCandidates(w, length1, length2, draws[..used])| < |ValidCandidates(w, length1, length2, draws)|
    ensures used < used' <= |draws|
    ensures ValidCandidates(w, length1, length2, draws[..used']) == ValidCandidates(w, length1, length2, draws[..used]) + [s]
    ensures s == CreateRandomState(length1, length2, draws[used' - 1]) && IsValidState(w.geo, s, w.obstacles)
  {
    assert draws[..|draws|] == draws;
    used' := used;
    while true
      invariant used <= used' <= |draws|
      invariant ValidCandidates(w, length1, length2, draws[..used']) == ValidCandidates(w, length1, length2, draws[..used])
      decreases |draws| - used'
    {
      if used' == |draws| {
        assert false;
      }
      var k := used';
      s := CreateRandomState(length1, length2, draws[k]);
      ValidCandidatesStep(w, length1, length2, draws, k);
      used' := k + 1;
      var valid := CheckValidState(w.geo, s, w.obstacles);
      if valid {
        assert draws[used' - 1] == draws[k];
        return;
      }
    }
  }

  /**
   * generateStates: for each of the `n` states wanted, draw random states
   * until one is valid, and append it. `draws` holds the values the random
   * source produces; it must hold at least `n` valid candidates. The result
   * is the list with exactly the first `n` valid candidates appended (none
   * when `n` is not positive), and the number of draws consumed: the
   * appended states are the valid candidates among the first `used` draws,
   * and the last draw consumed is the valid one that ended the last search.
   */
  method GenerateStates(w: Workspace, length1: real, length2: real, states: seq<RobotArmState>, n: int, draws: seq<Draw>)
    returns (states': seq<RobotArmState>, used: nat)
    requires n <= |ValidCandidates(w, length1, length2, draws)|
    ensures used <= |draws|
    ensures |states'| == |states| + (if n < 0 then 0 else n)
    ensures states'[..|states|] == states
    ensures states'[|states|..] == ValidCandidates(w, length1, length2, draws)[..|states'| - |states|]
    ensures states'[|states|..] == ValidCandidates(w, length1, length2, draws[..used])
    ensures n <= 0 ==> used == 0
    ensures n > 0 ==> used > 0 && IsValidState(w.geo, CreateRandomState(length1, length2, draws[used - 1]), w.obstacles)
    ensures forall k :: |states| <= k < |states'| ==>
      IsValidState(w.geo, states'[k], w.obstacles) && states'[k].length1 == length1 && states'[k].length2 == length2
  {
    states' := states;
    used := 0;
    var i := 0;
    while i < n
      invariant 0 <= used <= |draws|
      invariant 0 <= i && (n >= 0 ==> i <= n) && (n < 0 ==> i == 0)
      invariant |states'| == |states| + i
      invariant states'[..|states|] == states
      invariant states'[|states|..] == ValidCandidates(w, length1, length2, draws[..used])
      invariant i == 0 ==> used == 0
      invariant i > 0 ==> used > 0 && IsValidState(w.geo, CreateRandomState(length1, length2, draws[used - 1]), w.obstacles)
    {
      ValidCandidatesPrefix(w, length1, length2, draws, used);
      var s;
      s, used := DrawValidState(w, length1, length2, draws, used);
      states' := states' + [s];
      i := i + 1;
    }
    ValidCandidatesPrefix(w, length1, length2, draws, used);
    ValidCandidatesAreValid(w, length1, length2, draws);
  }

  // ---------------------------------------------------------------- connecting

  /**
   * The test connectStates applies to the states at a lower index `s1` and a
   * higher index `s2`: their angle distance is at most the maximum, and
   * hasDirectPath accepts the path from `s1` to `s2` that the workspace's
   * path test samples.
   */
  predicate Linked(w: Workspace, maxAngleDelta: real, s1: RobotArmState, s2: RobotArmState) {
    TotalAngleDelta(s1, s2) <= maxAngleDelta && SweepValid(w.geo, s1, PathSweep(w.pathTest, s1, s2), w.obstacles)
  }

  /** connectStates' decision for the states at two indices, lower index first, and the cost it records. */
  function Rule(w: Workspace, maxAngleDelta: real, states: seq<RobotArmState>): PairRule {
    PairRule(
      (a: Id, b: Id) => a < |states| && b < |states| && Linked(w, maxAngleDelta, states[a], states[b]),
      (a: Id, b: Id) => if a < |states| && b < |states| then TotalAngleDelta(states[a], states[b]) else 0.0)
  }

  /** Two distinct states are joined by the roadmap: the test passes with the lower index first. */
  predicate PairLinked(w: Workspace, maxAngleDelta: real, states: seq<RobotArmState>, i: Id, j: Id) {
    && i < |states| && j < |states| && i != j
    && if i < j then Linked(w, maxAngleDelta, states[i], states[j]) else Linked(w, maxAngleDelta, states[j], states[i])
  }

  /** The rule joins exactly the linked pairs, at their angle distance in either order. */
  lemma RuleIsLinked(w: Workspace, maxAngleDelta: real, states: seq<RobotArmState>, i: Id, j: Id)
    requires i < |states| && j < |states|
    ensures PairJoined(Rule(w, maxAngleDelta, states), |states|, i, j) == PairLinked(w, maxAngleDelta, states, i, j)
    ensures PairCost(Rule(w, maxAngleDelta, states), i, j) == TotalAngleDelta(states[i], states[j])
  {
    TotalAngleDeltaSymmetric(states[i], states[j]);
  }

  /** Successor maps whose every entry is the angle distance between the two states. */
  predicate DeltaWeighted(states: seq<RobotArmState>, adj: Adj)
    requires |adj| == |states|
  {
    forall i: Id, j: Id {:trigger j in adj[i]} :: i < |adj| && j in adj[i] ==>
      j < |states| && adj[i][j] == TotalAngleDelta(states[i], states[j])
  }

  /** The roadmap entry for a pair: its angle distance if the pair is linked, what was there before otherwise. */
  ghost predicate RoadmapEntries(w: Workspace, maxAngleDelta: real, states: seq<RobotArmState>, adj: Adj, r: Adj)
    requires |adj| == |r| == |states|
  {
    forall i: Id, j: Id {:trigger Lookup(r[i], j)} :: i < |states| ==>
      Lookup(r[i], j) == if PairLinked(w, maxAngleDelta, states, i, j) then Some(TotalAngleDelta(states[i], states[j])) else Lookup(adj[i], j)
  }

  /** connectStates never links an index to itself: each state's entry for itself is what it was before. */
  lemma RoadmapHasNoSelfLinks(w: Workspace, maxAngleDelta: real, states: seq<RobotArmState>, adj: Adj, r: Adj)
    requires |adj| == |r| == |states|
    requires RoadmapEntries(w, maxAngleDelta, states, adj, r)
    ensures forall i :: 0 <= i < |states| ==> Lookup(r[i], i) == Lookup(adj[i], i)
  {
  }

  /** The scan of all pairs under the rule sets exactly the roadmap entries. */
  lemma ScanMakesRoadmap(w: Workspace, maxAngleDelta: real, states: seq<RobotArmState>, adj: Adj)
    requires |adj| == |states|
    ensures RoadmapEntries(w, maxAngleDelta, states, adj, ScanMaps(Rule(w, maxAngleDelta, states), adj, |adj|))
  {
    var rule := Rule(w, maxAngleDelta, states);
    PairEdgesExactly(rule, |adj|, |adj|);
    var r := AddEdges(adj, PairEdges(rule, |adj|, |adj|));
    forall i: Id, j: Id | i < |states|
      ensures Lookup(r[i], j) == if PairLinked(w, maxAngleDelta, states, i, j) then Some(TotalAngleDelta(states[i], states[j])) else Lookup(adj[i], j)
    {
      PairScanEntry(rule, adj, i, j);
      if j < |states| {
        RuleIsLinked(w, maxAngleDelta, states, i, j);
      }
    }
  }

  /** One entry of the new maps is an angle distance when the old maps held only angle distances. */
  lemma EntryKeepsWeight(w: Workspace, maxAngleDelta: real, states: seq<RobotArmState>, adj: Adj, r: Adj, i: Id, j: Id)
    requires |adj| == |r| == |states| && DeltaWeighted(states, adj)
    requires i < |r| && j in r[i]
    requires Lookup(r[i], j) == if PairLinked(w, maxAngleDelta, states, i, j) then Some(TotalAngleDelta(states[i], states[j])) else Lookup(adj[i], j)
    ensures j < |states| && r[i][j] == TotalAngleDelta(states[i], states[j])
  {
    if !PairLinked(w, maxAngleDelta, states, i, j) {
      assert j in adj[i];
    }
  }

  /** Entries that are angle distances or earlier angle-distance entries keep the maps weighted by angle distance. */
  lemma EntriesKeepWeights(w: Workspace, maxAngleDelta: real, states: seq<RobotArmState>, adj: Adj, r: Adj)
    requires |adj| == |r| == |states|
    requires RoadmapEntries(w, maxAngleDelta, states, adj, r)
    ensures DeltaWeighted(states, adj) ==> DeltaWeighted(states, r)
  {
    if DeltaWeighted(states, adj) {
      forall i: Id, j: Id {:trigger j in r[i]} | i < |r| && j in r[i]
        ensures j < |states| && r[i][j] == TotalAngleDelta(states[i], states[j])
      {
        EntryKeepsWeight(w, maxAngleDelta, states, adj, r, i, j);
      }
    }
  }

  /** The rule at one pair: the test connectStates applies, and the link at the pair's angle distance. */
  lemma RuleAt(w: Workspace, maxAngleDelta: real, states: seq<RobotArmState>, i: Id, j: Id)
    requires i < |states| && j < |states|
    ensures Rule(w, maxAngleDelta, states).joins(i, j) == Linked(w, maxAngleDelta, states[i], states[j])
    ensures RuleEdge(Rule(w, maxAngleDelta, states), i, j) == Edge(i, j, TotalAngleDelta(states[i], states[j]))
  {
  }

  /**
   * The path test decides the roadmap: as written, connectStates links two
   * states that differ in the second angle alone although every pose between
   * them collides; the intended test keeps them apart.
   */
  lemma PathTestDecidesLink()
    ensures
      var geo := Geometry(a => 1.0, a => 0.0, (p, q, r) => true);
      var obstacles := [Obstacle(Rect(0.0, 0.0, 1.0, 1.0))];
      var s1 := RobotArmState(0.5, 0.5, 0.0, 0.0);
      var s2 := RobotArmState(0.5, 0.5, 0.0, 1.0);
      && Linked(Workspace(geo, obstacles, AsWritten), TotalAngleDelta(s1, s2), s1, s2)
      && !Linked(Workspace(geo, obstacles, Intended), TotalAngleDelta(s1, s2), s1, s2)
  {
    AsWrittenSkipsSweep();
  }

  /**
   * One step of the inner loop of connectStates: the states at `i` and `j`
   * become successors of each other at their angle distance when that
   * distance is at most the maximum and the straight path between them is
   * valid; otherwise nothing changes.
   */
  method ConnectPair(w: Workspace, states: seq<RobotArmState>, maxAngleDelta: real, r: Adj, i: Id, j: Id) returns (r': Adj)
    requires i < |states| && j < |states| && i < |r| && j < |r|
    ensures r' == if Linked(w, maxAngleDelta, states[i], states[j])
                  then AddEdge(r, Edge(i, j, TotalAngleDelta(states[i], states[j])))
                  else r
    ensures r' == if Rule(w, maxAngleDelta, states).joins(i, j) then AddEdge(r, RuleEdge(Rule(w, maxAngleDelta, states), i, j)) else r
  {
    RuleAt(w, maxAngleDelta, states, i, j);
    var s1 := states[i];
    var s2 := states[j];
    var totalAngleDelta := TotalAngleDelta(s1, s2);
    if totalAngleDelta > maxAngleDelta {
      return r;
    }
    var direct;
    match w.pathTest {
      case AsWritten => direct := HasDirectPathAsWritten(w.geo, s1, s2, w.obstacles);
      case Intended => direct := HasDirectPath(w.geo, s1, s2, w.obstacles);
    }
    if !direct {
      return r;
    }
    r' := AddSuccessor(r, i, j, totalAngleDelta);
    r' := AddSuccessor(r', j, i, totalAngleDelta);
  }

  /** The inner loop of connectStates for row `i`, from column `j` on, one pair at a time. */
  method ConnectRow(w: Workspace, states: seq<RobotArmState>, maxAngleDelta: real, ghost rule: PairRule, r: Adj, i: Id, j: Id) returns (r': Adj)
    requires rule == Rule(w, maxAngleDelta, states)
    requires |r| == |states| && i < j <= |states|
    ensures r' == RowRest(rule, r, i, j)
    decreases |states| - j
  {
    if j == |states| {
      return r;
    }
    var next := ConnectPair(w, states, maxAngleDelta, r, i, j);
    r' := ConnectRow(w, states, maxAngleDelta, rule, next, i, j + 1);
  }

  /** The outer loop of connectStates, from row `i` on, one row at a time. */
  method ConnectRows(w: Workspace, states: seq<RobotArmState>, maxAngleDelta: real, ghost rule: PairRule, r: Adj, i: nat) returns (r': Adj)
    requires rule == Rule(w, maxAngleDelta, states)
    requires |r| == |states| && i <= |states|
    ensures r' == RowsRest(rule, r, i)
    decreases |states| - i
  {
    if i == |states| {
      return r;
    }
    var next := ConnectRow(w, states, maxAngleDelta, rule, r, i, i + 1);
    r' := ConnectRows(w, states, maxAngleDelta, rule, next, i + 1);
  }

  /**
   * connectStates: every pair i < j of states whose angle distance is at
   * most the maximum and whose straight path is valid is joined both ways at
   * that distance; no other entry changes. Symmetric maps stay symmetric, and
   * maps weighted by angle distance stay so.
   */
  method ConnectStates(w: Workspace, states: seq<RobotArmState>, adj: Adj, maxAngleDelta: real) returns (r: Adj)
    requires |adj| == |states|
    ensures |r| == |states|
    ensures RoadmapEntries(w, maxAngleDelta, states, adj, r)
    ensures Symmetric(adj) ==> Symmetric(r)
    ensures DeltaWeighted(states, adj) ==> DeltaWeighted(states, r)
  {
    ghost var rule := Rule(w, maxAngleDelta, states);
    ScanStartsEmpty(rule, adj);
    RowsRestMaps(rule, adj, 0);
    r := ConnectRows(w, states, maxAngleDelta, rule, adj, 0);
    ScanMakesRoadmap(w, maxAngleDelta, states, adj);
    EntriesKeepWeights(w, maxAngleDelta, states, adj, r);
  }

  /** On roadmap successor maps the heuristic is consistent: no edge lowers it by more than its cost. */
  lemma HeuristicConsistentOnRoadmap(goal: RobotArmState, states: seq<RobotArmState>, r: Adj, i: Id, j: Id)
    requires |r| == |states| && DeltaWeighted(states, r)
    requires i < |r| && j in r[i]
    ensures j < |states|
    ensures Estimate(goal, Arm(states[i])).value <= r[i][j] + Estimate(goal, Arm(states[j])).value
  {
    EstimateConsistent(goal, states[i], states[j]);
  }
}
