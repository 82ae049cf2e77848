# Search tutorials: navigation graph, eight-puzzle heuristic, robot-arm roadmap

This project models the problem-specific core of a small Java search-tutorial
repository in Dafny, and proves properties of that model. The generic search
algorithms are not part of the core. The core has three parts:

- **Navigation (tutorial 1).** A `NavigationState` is a named location whose
  successors and edge costs live in a hash map. `NavigationSolver.readFile`
  builds the graph from a text file. The file holds:
  - a vertex count and that many names;
  - an edge count and that many `name name cost` lines.

  Each edge is stored in both directions.
- **Eight puzzle (tutorial 1).** `TotalManhattanDistance` adds up how far
  tiles 1 to 8 are from their goal row and column.
- **Robot arm (tutorial 2).**
  - A `RobotArmState` is a two-rod arm. Its joint positions follow from the
    rod lengths and angles. Equality and hashing look only at the angles.
  - `StateTools` provides the angle distance between states, the validity
    test (angle ranges, unit workspace, obstacle collisions) and the sampled
    straight-path test.
  - `TotalAngleDeltaHeuristic` is the A* estimate.
  - `RobotSolver` samples random valid states and connects the close pairs
    that a valid straight path joins into a roadmap.
  - `ProblemSpec` reads the problem and solution files and keeps two
    "loaded" flags.

The model is functional:
- Objects are immutable datatypes and operations are functions. Loops stay
  `method`s where the source loops: listing successors, the Manhattan
  estimate, the validity test, the path sampling, `generateStates` and
  `connectStates`.
- An exception becomes an `Err` or `Fail` value that names the exception and
  the line number it reports.
- What the model cannot see is a parameter:
  - `Math.cos`, `Math.sin` and `Line2D.intersects` (a `Geometry` value);
  - `Double.valueOf`, the `Obstacle` line parser and `Double.hashCode`;
  - the values `Random.nextDouble` returns.
- Object identity becomes list indices. `NavigationState` does not override
  `equals`, so a navigation state is its creation index. The roadmap's
  sampled states are their index in the state list.

Modules and files:
- `wrappers.dfy`: `Option`, `Result`, `Outcome`.
- `java_text.dfy`: `String.trim`, `split("\\s+")`, `Integer.valueOf`,
  `Integer.toString`, 32-bit wrap-around.
- `successor_graph.dfy`: successor maps and the two-way edge insertion shared
  by both graphs, plus the all-pairs scan.
- `navigation_state.dfy`, `navigation_solver.dfy`: tutorial 1 navigation.
- `eight_puzzle.dfy`: the Manhattan heuristic.
- `plane.dfy`: points, obstacles, `Math.PI`, degree/radian conversion.
- `robot_arm.dfy`: `RobotArmState`.
- `state_tools.dfy`: `StateTools`.
- `angle_heuristic.dfy`: `TotalAngleDeltaHeuristic`.
- `roadmap.dfy`: `RobotSolver.generateStates` and `connectStates`.
- `problem_spec.dfy`: `ProblemSpec`.

`connectStates` calls `hasDirectPath` as the code writes it. A workspace
carries the path test: `AsWritten` models the code, `Intended` the corrected
sweep of the Findings table. Every roadmap property below is proved for both.

Where the code and its written description disagree, the model follows the
code:
- The angle distance does not wrap around a full turn (`StateTools.NoWraparound`).
- State equality is exact on the two angles, with no tolerance.

## Model

| member | source | states |
|---|---|---|
| Navigation.New | src/tutorial1/navigation/NavigationState.java:27-29 | a new state carries the given name and has no successor |
| Navigation.AddSuccessor | src/tutorial1/navigation/NavigationState.java:52-54 | the successor gets exactly the given cost, replacing an earlier one; the name and every other successor's cost are unchanged; the successor set grows by that state only |
| Navigation.GetSuccessors | src/tutorial1/navigation/NavigationState.java:56-59 | the list holds every successor exactly once and nothing else, so its length is the number of successors |
| Navigation.GetCost | src/tutorial1/navigation/NavigationState.java:61-64 | a cost is returned exactly for successors, and it is the recorded one; for any other state the unboxing of null fails |
| Navigation.CostAfterAdd | src/tutorial1/navigation/NavigationState.java:52-64 | after addSuccessor, getCost of that successor is the new cost and getCost of any other state is what it was |
| Navigation.ReAddKeepsSuccessors | src/tutorial1/navigation/NavigationState.java:52-59 | re-adding an existing successor leaves the successor set and its size unchanged |
| Navigation.SuccessorsAreAdded | src/tutorial1/navigation/NavigationState.java:52-59 | after a run of additions to a fresh state, a state is a successor exactly when some addition named it, and its cost is the one given by the last addition naming it |
| Navigation.NameIsStable | src/tutorial1/navigation/NavigationState.java:27-45 | getName and toString return the constructor's name, also after successors are added |
| NavigationLoader.IndexByName | src/tutorial1/navigation/NavigationSolver.java:31-35 | byName has exactly the listed names as keys, and each name maps to the last vertex created with it |
| NavigationLoader.ParseEdgeLine | src/tutorial1/navigation/NavigationSolver.java:41-44 | an edge line is accepted exactly when it has three fields, both names are known and the cost parses; the edge joins the named vertices at that cost; every failure carries the line's number |
| NavigationLoader.FieldIsSplitPiece | src/tutorial1/navigation/NavigationSolver.java:41 | field k of an edge line is piece k of the trimmed line split on runs of whitespace, and exists exactly when there are that many pieces |
| NavigationLoader.ReadCount | src/tutorial1/navigation/NavigationSolver.java:29 | a count is read exactly when the line exists and its trimmed text is a Java int (digits of any script, as Character.digit reads them); a negative count reads as zero iterations; otherwise the error names that line, or the line past the end when the file ended |
| NavigationLoader.ReadNames | src/tutorial1/navigation/NavigationSolver.java:31-35 | the n vertex names are the trimmed lines after the count, in order |
| NavigationLoader.ReadEdges | src/tutorial1/navigation/NavigationSolver.java:40-47 | the edge lines are read exactly when all count of them are present and parse; then edge k is parsed from line start+k; otherwise the error is the first failing line's, or the null line one past the file's end when every present line parses but too few remain |
| NavigationLoader.EdgeLinesEndpoints | src/tutorial1/navigation/NavigationSolver.java:42-45 | both ends of every parsed edge are vertices of the name index |
| NavigationLoader.ReadEdgeSection | src/tutorial1/navigation/NavigationSolver.java:37-47 | a bad edge count is reported on its line; with a count m, the section is read exactly when its m edge lines all parse, the network's edges being those lines in order; otherwise the error is the first failing edge line's or the end of the file |
| NavigationLoader.ReadFile | src/tutorial1/navigation/NavigationSolver.java:26-49 | on success the network was read from the file: the count, the trimmed names, the name index, the edge count and every edge line in order; on failure the error is the one the first failing read raises: the vertex count, a file too short for the names, the edge count, or the first failing edge line or the end of the file |
| NavigationLoader.ReadFileAccepts | src/tutorial1/navigation/NavigationSolver.java:26-49 | every file that describes a network is read, and gives exactly that network |
| NavigationLoader.EdgeSectionAccepts | src/tutorial1/navigation/NavigationSolver.java:37-47 | the edge section of a file that describes a network gives exactly that network |
| NavigationLoader.SuccessorsComeFromEdgeLines | src/tutorial1/navigation/NavigationSolver.java:40-47 | the built graph is symmetric, and every successor entry comes from an edge line naming the pair, in either order, with the cost of the last such line |
| NavigationLoader.EdgeLineMakesSuccessors | src/tutorial1/navigation/NavigationSolver.java:45-46 | an edge line with no later line for the same pair makes each end a successor of the other at that line's cost |
| SuccessorGraph.Put | src/tutorial1/navigation/NavigationState.java:53 | HashMap.put: the key gets the new value and every other entry is kept |
| SuccessorGraph.AddSuccessor | src/tutorial2/RobotSolver.java:63 | one state gets one successor at the cost; every other entry of every state is unchanged |
| SuccessorGraph.AddEdge | src/tutorial1/navigation/NavigationSolver.java:45-46 | the two insertions for an edge set exactly the two directed entries to its cost and keep symmetry |
| SuccessorGraph.SelfEdge | src/tutorial1/navigation/NavigationSolver.java:42-46 | an edge line naming the same vertex twice makes that vertex its own successor at the line's cost and changes no other map |
| SuccessorGraph.AddEdges | src/tutorial1/navigation/NavigationSolver.java:40-47 | inserting edges in order keeps the state count and keeps symmetry |
| SuccessorGraph.AddEdgesEntry | src/tutorial1/navigation/NavigationSolver.java:40-47 | after the insertions each entry is the cost of the last edge joining its pair, or the entry from before when none does |
| SuccessorGraph.LastCostIsLast | src/tutorial1/navigation/NavigationSolver.java:40-47 | the cost that is kept belongs to the latest edge for the pair, and there is none exactly when no edge joins the pair |
| SuccessorGraph.EdgeGraph | src/tutorial1/navigation/NavigationSolver.java:40-47 | a graph built from no successors by edges only is symmetric, with each entry from the last edge of its pair |
| SuccessorGraph.PairEdgesExactly | src/tutorial2/RobotSolver.java:52-55 | the nested loops over pairs i < j visit every pair once: the edges added are exactly the accepted pairs, lower index first |
| SuccessorGraph.PairScanEntry | src/tutorial2/RobotSolver.java:51-67 | after the scan an entry holds the pair's cost when the pair is accepted, in either order, and its previous value otherwise |
| SuccessorGraph.ScanStep | src/tutorial2/RobotSolver.java:54-65 | one inner iteration turns the maps with row i's pairs before j into those with the pairs up to j: it adds the pair's two-way edge exactly when the pair is accepted |
| SuccessorGraph.RowRestMaps | src/tutorial2/RobotSolver.java:54-65 | scanning the rest of row i pair by pair from column j adds exactly the row's accepted pairs from j on |
| SuccessorGraph.RowScan | src/tutorial2/RobotSolver.java:52-65 | row i of the scan, pair by pair, turns the maps of the rows below i into those of the rows up to i |
| SuccessorGraph.RowsRestMaps | src/tutorial2/RobotSolver.java:52-66 | scanning the rows from i on, row by row, turns the maps of the rows below i into those of all rows |
| EightPuzzle.Estimate | src/tutorial1/eight/TotalManhattanDistance.java:25-34 | the loop's result is the sum of row and column distances of tiles 1 to 8; it is never negative and is zero exactly when tiles 1 to 8 are all at their goal positions |
| EightPuzzle.DistanceSumZeroIff | src/tutorial1/eight/TotalManhattanDistance.java:29-32 | the distance sum is zero exactly when every counted tile is where the goal has it |
| EightPuzzle.DistanceSumSymmetric | src/tutorial1/eight/TotalManhattanDistance.java:29-32 | swapping the state and the goal gives the same estimate |
| EightPuzzle.DistanceSumOnlyCountedTiles | src/tutorial1/eight/TotalManhattanDistance.java:29-32 | states that place the counted tiles alike get the same sum |
| EightPuzzle.BlankIgnored | src/tutorial1/eight/TotalManhattanDistance.java:29 | the blank tile 0 never affects the estimate |
| EightPuzzle.DistanceSumBounded | src/tutorial1/eight/TotalManhattanDistance.java:29-32 | on a 3-by-3 board each tile adds at most 4, so the estimate is at most 32 and the int accumulator cannot overflow |
| EightPuzzle.GoalIsZero | src/tutorial1/eight/TotalManhattanDistance.java:25-34 | the goal is estimated at zero |
| Plane.ToDegrees | src/tutorial2/StateTools.java:31 | Math.toDegrees keeps the sign and maps only zero to zero |
| Plane.ToRadians | src/tutorial2/ProblemSpec.java:68-69 | Math.toRadians keeps the sign |
| Plane.DegreesRoundTrip | src/tutorial2/ProblemSpec.java:68-69 | converting degrees read from a file to radians and back gives the number read (exact arithmetic) |
| Plane.ToDegreesAdds | src/tutorial2/StateTools.java:31 | the degree conversion is additive, so converting a sum of differences equals summing converted differences |
| Plane.ToDegreesMonotonic | src/tutorial2/StateTools.java:31 | the degree conversion keeps order both ways |
| RobotArm.Points | src/tutorial2/RobotArmState.java:40-48 | the constructor computes three points, the first at the origin |
| RobotArm.RodLengths | src/tutorial2/RobotArmState.java:40-48 | where cos and sin lie on the unit circle, the first point pair is length1 apart and the second pair length2 apart |
| RobotArm.StraightArm | src/tutorial2/RobotArmState.java:40-48 | with both angles zero the arm lies along the x axis, ending at length1 + length2 |
| RobotArm.EqualsIsEquivalence | src/tutorial2/RobotArmState.java:52-58 | equals is reflexive, symmetric and transitive on states |
| RobotArm.EqualsIgnoresLengths | src/tutorial2/RobotArmState.java:52-58 | changing rod lengths never changes equals, and only a RobotArmState (never null or another class) can be equal to one |
| RobotArm.HashCodeAgreesWithEquals | src/tutorial2/RobotArmState.java:67-70 | equal states have equal 32-bit hash codes |
| JavaText.Wrap32 | src/tutorial2/RobotArmState.java:68-69 | int arithmetic: the result is a Java int equal to the exact value modulo 2^32, and the exact value itself when it fits |
| JavaText.Trim | src/tutorial1/navigation/NavigationSolver.java:29-41 | String.trim: the result is the middle of the string, with nothing trimmable at either end and only trimmable characters removed |
| JavaText.TrimIdempotent | src/tutorial1/navigation/NavigationSolver.java:41 | trimming twice is trimming once |
| JavaText.WordsAreRuns | src/tutorial1/navigation/NavigationSolver.java:41 | every piece of split("\\s+") on a trimmed line is a non-empty run without whitespace |
| JavaText.WordsKeepEveryOtherChar | src/tutorial1/navigation/NavigationSolver.java:41 | splitting loses exactly the separators: the pieces put together are the line without its whitespace |
| JavaText.SplitTrimmed | src/tutorial1/navigation/NavigationSolver.java:41 | on a trimmed non-empty line, split("\\s+") gives exactly its whitespace-separated words |
| JavaText.ParseInt | src/tutorial1/navigation/NavigationSolver.java:29 | Integer.valueOf accepts only an optional sign followed by decimal digits, of any script in the Basic Multilingual Plane, whose value fits a Java int |
| JavaText.UnicodeDigitsParse | src/tutorial1/navigation/NavigationSolver.java:29 | digits of other scripts are read: Arabic-Indic 3, fullwidth 12 and Devanagari -10 |
| JavaText.ParseIntSignAndNonDigits | src/tutorial1/navigation/NavigationSolver.java:29 | a leading + is accepted, and the characters just past a digit block (the colon after 9, the Arabic percent sign) are not digits |
| JavaText.ParseIntToString | src/tutorial1/navigation/NavigationSolver.java:29 | Integer.valueOf reads back every int that Integer.toString writes |
| JavaText.NatToString | src/tutorial2/ProblemSpec.java:89-93 | %d of a line number: a non-empty digit string without leading zeros whose value is the number |
| StateTools.TotalAngleDelta | src/tutorial2/StateTools.java:30-32 | the distance is never negative and is zero exactly when both angles agree |
| StateTools.TotalAngleDeltaSymmetric | src/tutorial2/StateTools.java:30-32 | the distance does not depend on the order of the two states |
| StateTools.TotalAngleDeltaTriangle | src/tutorial2/StateTools.java:30-32 | going through a third state is never shorter (triangle inequality) |
| StateTools.NoWraparound | src/tutorial2/StateTools.java:30-32 | angles are not reduced modulo a full turn: second-rod angles 3 and -3 count as 6 radians apart, over 180 degrees |
| StateTools.CheckValidState | src/tutorial2/StateTools.java:40-61 | the early-return loops answer true exactly when the angles are in range, every coordinate of every point lies in [0, 1] and no obstacle collides with either rod |
| StateTools.AngleBoundsInclusive | src/tutorial2/StateTools.java:41-46 | the angle bounds are inclusive: 0 and pi/2 for the first angle, -pi and pi for the second, and anything beyond them is rejected |
| StateTools.NoObstaclesNoCollision | src/tutorial2/StateTools.java:55-60 | without obstacles validity is the angle and workspace checks alone |
| StateTools.SaturateToInt | src/tutorial2/StateTools.java:76 | the (int) cast keeps values in the int range and saturates the others at the bounds |
| StateTools.Ceil | src/tutorial2/StateTools.java:76 | Math.ceil is the least integer at or above its argument |
| StateTools.CheckSweep | src/tutorial2/StateTools.java:77-86 | the sampling loop answers true exactly when every interior sample, steps 1 to numSteps-1, is a valid state |
| StateTools.ShortSweepAccepted | src/tutorial2/StateTools.java:76-86 | with at most one step the sampling loop runs no iteration, so the path is accepted without looking at any obstacle |
| StateTools.HasDirectPathAsWritten | src/tutorial2/StateTools.java:70-87 | hasDirectPath as written: true exactly when every interior sample of the as-written sweep is valid |
| StateTools.HasDirectPath | src/tutorial2/StateTools.java:70-87 | hasDirectPath corrected: true exactly when every interior sample of the sweep from s1's angles to s2's angles is valid |
| StateTools.AsWrittenHoldsSecondAngle | src/tutorial2/StateTools.java:73-80 | as written, the step count sees only the first angle and every sample keeps s2's second angle |
| StateTools.AsWrittenSkipsSweep | src/tutorial2/StateTools.java:70-87 | a concrete pair differing only in the second angle, with every intermediate pose colliding, is accepted as written and rejected by the corrected sweep |
| StateTools.DirectSweepResolution | src/tutorial2/StateTools.java:75-80 | the corrected sweep starts at s1's angles and ends at s2's; each step moves each angle by at most 0.1 radians; with no steps the two states have equal angles |
| AngleHeuristic.Estimate | src/tutorial2/TotalAngleDeltaHeuristic.java:29-32 | a value exactly for RobotArmStates (null fails when read, other classes at the cast); it is never negative and is zero exactly on states equal to the goal |
| AngleHeuristic.EstimateConsistent | src/tutorial2/TotalAngleDeltaHeuristic.java:29-32 | the estimate is consistent: it drops by at most the angle distance of a move |
| AngleHeuristic.EstimateAdmissible | src/tutorial2/TotalAngleDeltaHeuristic.java:29-32 | the estimate is admissible: it never exceeds the angle-distance cost of a path that ends at a goal state |
| Roadmap.CreateRandomState | src/tutorial2/StateTools.java:18-22 | the random state keeps the rod lengths; with draws in [0, 1) the first angle lies in [0, PI/2) and the second in [-PI, PI) |
| Roadmap.RandomStatesInRange | src/tutorial2/StateTools.java:18-22 | a random state always passes the angle-range part of isValidState |
| Roadmap.ValidCandidatesAreValid | src/tutorial2/RobotSolver.java:34-38 | every state kept from the draws is valid and has the problem's rod lengths |
| Roadmap.DrawValidState | src/tutorial2/RobotSolver.java:33-40 | the while(true) loop consumes draws up to and including the next valid candidate, and returns that candidate: the last draw consumed, and valid |
| Roadmap.GenerateStates | src/tutorial2/RobotSolver.java:31-42 | the list grows by exactly n states (none, and no draw, when n <= 0); the old list is a prefix; the new states are exactly the valid candidates among the draws consumed, so the first n in draw order; the last draw consumed is a valid one; each new state is valid with the problem's rod lengths |
| Roadmap.RuleIsLinked | src/tutorial2/RobotSolver.java:54-62 | the pair decision is the connect test (angle distance at most the maximum, then the workspace's hasDirectPath) on the lower index first, at the pair's angle distance in either order |
| Roadmap.ScanMakesRoadmap | src/tutorial2/RobotSolver.java:51-67 | the maps after the scan of all pairs hold exactly the roadmap entries: a linked pair's angle distance, the old entry otherwise |
| Roadmap.ConnectPair | src/tutorial2/RobotSolver.java:55-64 | one inner iteration links the pair both ways at its angle distance when that is at most the maximum and hasDirectPath, as written or as intended by the workspace, accepts the path; otherwise it changes nothing |
| Roadmap.PathTestDecidesLink | src/tutorial2/RobotSolver.java:56-62 | for a pair differing only in the second angle with every intermediate pose colliding, the as-written test links the pair and the intended test does not |
| Roadmap.ConnectRow | src/tutorial2/RobotSolver.java:54-65 | the inner loop from column j applies the pair test to (i, j), (i, j+1), ... in order, each accepted pair adding its two-way edge |
| Roadmap.ConnectRows | src/tutorial2/RobotSolver.java:52-66 | the outer loop from row i runs the inner loop of each row i, i+1, ... in order |
| Roadmap.ConnectStates | src/tutorial2/RobotSolver.java:51-67 | every pair i < j that the workspace's connect test links is joined both ways at its angle distance and no other entry changes; symmetric maps stay symmetric; maps weighted by angle distance stay so |
| Roadmap.RoadmapHasNoSelfLinks | src/tutorial2/RobotSolver.java:52-55 | the scan only pairs a state with a later one, so no state's entry for itself is changed |
| Roadmap.EntriesKeepWeights | src/tutorial2/RobotSolver.java:63-64 | entries set by connectStates are angle distances, so maps holding only angle distances keep holding only them |
| Roadmap.HeuristicConsistentOnRoadmap | src/tutorial2/RobotSolver.java:56-64 | along any roadmap edge the angle heuristic drops by at most the edge's recorded cost |
| Problem.Fresh | src/tutorial2/ProblemSpec.java:23-42 | a new spec has neither flag set and a solution cost of zero |
| Problem.NextDouble | src/tutorial2/ProblemSpec.java:61-62 | nextDouble returns the token when it is a number; a non-number is a mismatch; running out of tokens is "no such element" |
| Problem.ReadNumbers | src/tutorial2/ProblemSpec.java:58-63 | a line gives two numbers exactly when its first two tokens are numbers; otherwise the error names the line and is "not enough tokens" exactly when the line ran out of tokens before any non-number |
| Problem.ReadEach | src/tutorial2/ProblemSpec.java:83-86 | the read-until-null loop keeps one item per line read, in order; it stops at the first bad line and reports that line's error, or reads every line |
| Problem.LoadProblem | src/tutorial2/ProblemSpec.java:50-97 | loadProblem always leaves solutionLoaded false, sets problemLoaded exactly on success, and leaves the path and the solution cost alone |
| Problem.LoadProblemAccepts | src/tutorial2/ProblemSpec.java:50-97 | loadProblem succeeds exactly when the file opens, has at least three lines, the first three hold two numbers each, and every later line is an obstacle |
| Problem.LoadProblemContents | src/tutorial2/ProblemSpec.java:58-87 | on success, line 1 gives the rod lengths; lines 2 and 3 give the initial and goal states, built with those lengths and with angles converted to radians; the obstacles are the later lines in order |
| Problem.LoadProblemFailure | src/tutorial2/ProblemSpec.java:54-93 | an error is an unopenable file; or a missing line k (1 to 3) after k-1 good lines; or a bad line k after k-1 good lines, reported as "not enough tokens" on lines 1 to 3 exactly when the line ran short |
| Problem.LoadProblemPartial | src/tutorial2/ProblemSpec.java:58-86 | after a failure, each field keeps its old value unless its line was read; length1 alone is set when only line 1's second number fails; the obstacle list holds the obstacles read before the bad line |
| Problem.LoadSolution | src/tutorial2/ProblemSpec.java:106-135 | without a loaded problem nothing changes; otherwise only the path and solutionLoaded change, and solutionLoaded is set exactly on success; an unopenable file leaves the path alone |
| Problem.LoadSolutionAccepts | src/tutorial2/ProblemSpec.java:116-125 | with a problem loaded, loadSolution succeeds exactly when the file opens and every line starts with two numbers (an empty file included) |
| Problem.LoadSolutionPath | src/tutorial2/ProblemSpec.java:110-131 | the path has one state per line read, in file order, with the loaded rod lengths and the line's angles in radians; all lines on success; on failure at line n the n-1 lines before it; a solution error is never "file ended" |
| Problem.GetObstacles | src/tutorial2/ProblemSpec.java:181-183 | getObstacles gives the obstacle list, failing exactly when it was never created |
| Problem.GetPath | src/tutorial2/ProblemSpec.java:173-175 | getPath gives the solution path, failing exactly when it was never created |
| Problem.RunConsistent | src/tutorial2/ProblemSpec.java:50-135 | over any run of loads, solutionLoaded implies problemLoaded; a loaded problem has its states, built with the loaded rod lengths, and its obstacles; a loaded path uses the loaded rod lengths; the solution cost stays 0 |
| Problem.LoadedListsExist | src/tutorial2/ProblemSpec.java:173-183 | in a consistent spec the getters do not fail on a loaded problem's obstacles or a loaded solution's path |
| Problem.Message | src/tutorial2/ProblemSpec.java:88-93 | every parse error has a message; an unopenable file surfaces the opener's own exception instead |
| Problem.MessageIdentifiesError | src/tutorial2/ProblemSpec.java:88-93 | two errors with the same message in the same loader are the same kind, on the same line, with the same detail |

## Left out

- The search framework (`search.*`): the `State` interface, the algorithms and `StateWithMap`. The robot roadmap keeps its successor maps per list index. The source keys them by the states themselves, which hash and compare by angle.
- The `main` methods, `writeOutput`, the visualiser and `RobotArmState.toString`. They are console, file and UI formatting.
- `EightPuzzleState` and the `Obstacle` class. The estimate reads a board as the row and column of each tile. An obstacle line's parser is an oracle that gives an obstacle or a Scanner failure.
- EightPuzzle.Estimate: takes a board, so the `(EightPuzzleState)` cast at src/tutorial1/eight/TotalManhattanDistance.java:26 is not modelled. Another `State` class throws ClassCastException there, and null fails at `getRowOf`.
- File opening, `BufferedReader` and `Scanner` tokenising. A file is its sequence of lines, and None when it cannot be opened. A ProblemSpec line is its sequence of tokens.
- `Math.cos`, `Math.sin`, `Line2D.intersects`, `Double.valueOf` and `Double.hashCode` are parameters. No property of them is assumed beyond those stated in a lemma's requires.
- Floating point: reals are exact. NaN, infinities, -0.0 and rounding are not modelled, including `Math.toDegrees` and `Math.toRadians` rounding. `DegreesRoundTrip` holds only on exact reals.
- RobotArm.HashCodeAgreesWithEquals: holds only because -0.0 is not modelled. In Java `0.0 == -0.0`, so `equals` (src/tutorial2/RobotArmState.java:57) accepts the pair, but `Double.hashCode` gives 0 for one and -2147483648 for the other (lines 67-70). A file angle of "-0" reaches -0.0 through `Math.toRadians`.
- RobotArm.EqualsIsEquivalence: holds only because NaN is not modelled. In Java `NaN != NaN`, so a state with a NaN angle is not equal to itself.
- `Random`: the random draws are a parameter. It is only assumed that they lie in [0, 1) where a lemma needs it.
- Roadmap.GenerateStates: requires that the draws contain enough valid candidates. The source's `while (true)` never ends when no valid state can be drawn, and the model does not represent that non-termination.
- StateTools.DirectSweepResolution: requires that `maxDelta * 10` fits an int. Beyond that, the cast saturates and the 0.1 step bound does not hold.
- JavaText.ParseInt: the decimal digits are those of the Basic Multilingual Plane as of Unicode 7. A digit outside that plane is a surrogate pair in a Java string, and `Character.digit` rejects each half.
- Problem.Message: the detail text of a Scanner exception, and the message of FileReader's exception, are not modelled. `String.format("%d", lineNo)` (src/tutorial2/ProblemSpec.java:89-93) writes the digits of the default locale, Arabic-Indic under ar-EG for example. `JavaText.NatToString` writes ASCII digits, so the messages are those of a locale with ASCII digits.
- The plain getters (`getLength1`, `getInitialState`, `problemLoaded()`, `getSolutionCost`, the `RobotArmState` getters and `getPoints`) are field reads of the datatypes. Under value semantics the copies `getPath` and `getObstacles` return cannot alias the spec. The same holds for the fresh lists `getSuccessors` returns.
- The navigation graph is built in one pass from the parsed edges (`NavigationLoader.Adjacency`), not by mutating shared states. In `readFile`, a name listed twice maps to its last vertex, and the earlier vertex stays unreachable by name.

## Findings

| source | as written | input that shows it | evidently intended | confidence | as-written member | corrected member |
|---|---|---|---|---|---|---|
| src/tutorial2/StateTools.java:73 | `angle2_0` is read from `s2`, so the second angle never moves along the sampled path and the step count ignores the second angle; connectStates (RobotSolver.java:60) therefore links such pairs | s1 = (0.5, 0.5, 0, 0), s2 = (0.5, 0.5, 0, 1) with an obstacle hit by every intermediate pose: no samples are taken and the path is accepted | `angle2_0 = s1.getAngle2()`: both angles move from s1 to s2, sampled at most 0.1 radians apart | not executed | StateTools.AsWrittenSkipsSweep | StateTools.DirectSweepResolution |
