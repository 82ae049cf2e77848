/**
 * ProblemSpec: the robot-arm problem and solution files, read line by line
 * into one record that also carries the two flags saying whether a problem
 * and a solution are loaded.
 *
 * Opening the file and Scanner's tokenising are not modelled: a file is the
 * sequence of its lines, or None when it cannot be opened, and each line is
 * the sequence of its tokens, each either a number or not.
 */
module Problem {
  import opened Wrappers
  import opened Plane
  import opened RobotArm
  import opened JavaText

  /** A token as Scanner.nextDouble sees it. */
  datatype Token = Number(value: real) | NotANumber

  /** One line of a file, as tokens. */
  type Line = seq<Token>

  /** Why Scanner.nextDouble fails: InputMismatchException, or NoSuchElementException. */
  datatype TokenError = Mismatch | Exhausted

  /** The IOExceptions the loaders throw, with the line number they report. */
  datatype LoadError = CannotOpen | InvalidNumber(lineNo: nat) | NotEnoughTokens(lineNo: nat) | FileEnded(lineNo: nat)

  /**
   * The fields of a ProblemSpec. A reference field that Java leaves null is
   * None.
   */
  datatype ProblemSpec = ProblemSpec(
    problemLoaded: bool,
    solutionLoaded: bool,
    length1: real,
    length2: real,
    initialState: Option<RobotArmState>,
    goalState: Option<RobotArmState>,
    obstacles: Option<seq<Obstacle>>,
    path: Option<seq<RobotArmState>>,
    solutionCost: real)

  /** new ProblemSpec(): nothing loaded, numbers zero, references null. */
  function Fresh(): (spec: ProblemSpec)
    ensures !spec.problemLoaded && !spec.solutionLoaded && spec.solutionCost == 0.0
  {
    ProblemSpec(false, false, 0.0, 0.0, None, None, None, None, 0.0)
  }

  // ---------------------------------------------------------------- reading numbers

  /** The k-th call of nextDouble on a line (counting from 0), when the earlier calls succeeded. */
  function NextDouble(line: Line, k: nat): (r: Result<real, TokenError>)
    ensures r.Ok? <==> k < |line| && line[k].Number?
    ensures r.Ok? ==> r.value == line[k].value
    ensures r == Err(Exhausted) <==> k >= |line|
  {
    if k >= |line| then Err(Exhausted)
    else match line[k]
      case Number(v) => Ok(v)
      case NotANumber => Err(Mismatch)
  }

  /** The IOException a Scanner failure on line `lineNo` is turned into. */
  function TokenFailure(e: TokenError, lineNo: nat): (r: LoadError)
    ensures r == InvalidNumber(lineNo) || r == NotEnoughTokens(lineNo)
    ensures r.InvalidNumber? <==> e == Mismatch
  {
    match e
    case Mismatch => InvalidNumber(lineNo)
    case Exhausted => NotEnoughTokens(lineNo)
  }

  /** A line that starts with two numbers; any further tokens are ignored. */
  predicate IsPairLine(line: Line) {
    |line| >= 2 && line[0].Number? && line[1].Number?
  }

  /** The line runs out of tokens before it shows a token that is not a number. */
  predicate ShortOfNumbers(line: Line) {
    |line| < 2 && forall k :: 0 <= k < |line| ==> line[k].Number?
  }

  /**
   * Two nextDouble calls on line `lineNo`: the two numbers, or the exception
   * of the first call that fails.
   */
  function ReadNumbers(line: Line, lineNo: nat): (r: Result<(real, real), LoadError>)
    ensures r.Ok? <==> IsPairLine(line)
    ensures r.Ok? ==> r.value == (line[0].value, line[1].value)
    ensures r.Err? ==> r.error == InvalidNumber(lineNo) || r.error == NotEnoughTokens(lineNo)
    ensures r.Err? ==> (r.error.NotEnoughTokens? <==> ShortOfNumbers(line))
  {
    match NextDouble(line, 0)
    case Err(e) => Err(TokenFailure(e, lineNo))
    case Ok(a) =>
      match NextDouble(line, 1)
      case Err(e) => Err(TokenFailure(e, lineNo))
      case Ok(b) => Ok((a, b))
  }

  /** readLine for the line at index `idx`, then its two numbers; a missing line ends the file. */
  function ReadLine(lines: seq<Line>, idx: nat): (r: Result<(real, real), LoadError>)
    ensures idx >= |lines| ==> r == Err(FileEnded(idx + 1))
    ensures idx < |lines| ==> r == ReadNumbers(lines[idx], idx + 1)
  {
    if idx >= |lines| then Err(FileEnded(idx + 1)) else ReadNumbers(lines[idx], idx + 1)
  }

  /** A state with the given rod lengths and two angles read in degrees. */
  function StateInDegrees(length1: real, length2: real, degrees: (real, real)): (s: RobotArmState)
    ensures s.length1 == length1 && s.length2 == length2
    ensures ToDegrees(s.angle1) == degrees.0 && ToDegrees(s.angle2) == degrees.1
  {
    DegreesRoundTrip(degrees.0);
    DegreesRoundTrip(degrees.1);
    RobotArmState(length1, length2, ToRadians(degrees.0), ToRadians(degrees.1))
  }

  // ---------------------------------------------------------------- reading line by line

  /**
   * The `while ((line = input.readLine()) != null)` loops: each line from
   * index `k` on is read with `read`, which is given the line and its line
   * number, until the end of the file or the first failure. The result is
   * what was read before that point, and the failure if there was one.
   */
  function ReadEach<T>(lines: seq<Line>, k: nat, read: (Line, nat) -> Result<T, LoadError>): (r: (seq<T>, Option<LoadError>))
    requires k <= |lines|
    ensures k + |r.0| <= |lines|
    ensures forall i :: 0 <= i < |r.0| ==> read(lines[k + i], k + i + 1) == Ok(r.0[i])
    ensures r.1.None? <==> forall j :: k <= j < |lines| ==> read(lines[j], j + 1).Ok?
    ensures r.1.None? ==> k + |r.0| == |lines|
    ensures r.1.Some? ==> k + |r.0| < |lines| && read(lines[k + |r.0|], k + |r.0| + 1) == Err(r.1.value)
    decreases |lines| - k
  {
    if k == |lines| then ([], None)
    else match read(lines[k], k + 1)
      case Err(e) => ([], Some(e))
      case Ok(x) =>
        var rest := ReadEach(lines, k + 1, read);
        ([x] + rest.0, rest.1)
  }

  /** new Obstacle(line), whose own parsing `parse` stands for, inside loadProblem's loop. */
  function ObstacleReader(parse: Line -> Result<Obstacle, TokenError>): (Line, nat) -> Result<Obstacle, LoadError> {
    (line: Line, lineNo: nat) => match parse(line)
      case Ok(o) => Ok(o)
      case Err(e) => Err(TokenFailure(e, lineNo))
  }

  /** One line of a solution file: two angles in degrees, with the loaded rod lengths. */
  function PathReader(length1: real, length2: real): (Line, nat) -> Result<RobotArmState, LoadError> {
    (line: Line, lineNo: nat) => match ReadNumbers(line, lineNo)
      case Ok(p) => Ok(StateInDegrees(length1, length2, p))
      case Err(e) => Err(e)
  }

  // ---------------------------------------------------------------- loadProblem

  /** The line at index `k` of a problem file is fine: two numbers on the first three lines, an obstacle after them. */
  predicate GoodProblemLine(lines: seq<Line>, k: nat, parse: Line -> Result<Obstacle, TokenError>)
    requires k < |lines|
  {
    if k < 3 then IsPairLine(lines[k]) else parse(lines[k]).Ok?
  }

  /** A problem file loadProblem accepts: at least three lines, every one of them fine. */
  predicate WellFormedProblem(lines: seq<Line>, parse: Line -> Result<Obstacle, TokenError>) {
    |lines| >= 3 && forall k :: 0 <= k < |lines| ==> GoodProblemLine(lines, k, parse)
  }

  /**
   * loadProblem: both flags cleared, then the rod lengths from line 1, the
   * initial angles from line 2, the goal angles from line 3 and one obstacle
   * per remaining line. Fields are assigned as they are read, so a failure
   * leaves those read before it in place; problemLoaded is set only when
   * every line was read.
   */
  function LoadProblem(spec: ProblemSpec, file: Option<seq<Line>>, parse: Line -> Result<Obstacle, TokenError>): (r: (ProblemSpec, Outcome<LoadError>))
    ensures !r.0.solutionLoaded
    ensures r.0.problemLoaded <==> r.1.Pass?
    ensures r.0.path == spec.path && r.0.solutionCost == spec.solutionCost
  {
    var cleared := spec.(problemLoaded := false, solutionLoaded := false);
    if file.None? then (cleared, Fail(CannotOpen))
    else
      var lines := file.value;
      match ReadLine(lines, 0)
      case Err(e) =>
        var first := if 0 < |lines| then NextDouble(lines[0], 0) else Err(Exhausted);
        (if first.Ok? then cleared.(length1 := first.value) else cleared, Fail(e))
      case Ok(lengths) =>
        var withLengths := cleared.(length1 := lengths.0, length2 := lengths.1);
        match ReadLine(lines, 1)
        case Err(e) => (withLengths, Fail(e))
        case Ok(initial) =>
          var withInitial := withLengths.(initialState := Some(StateInDegrees(lengths.0, lengths.1, initial)));
          match ReadLine(lines, 2)
          case Err(e) => (withInitial, Fail(e))
          case Ok(goal) =>
            var withGoal := withInitial.(goalState := Some(StateInDegrees(lengths.0, lengths.1, goal)));
            var obstacles := ReadEach(lines, 3, ObstacleReader(parse));
            var withObstacles := withGoal.(obstacles := Some(obstacles.0));
            if obstacles.1.None? then (withObstacles.(problemLoaded := true), Pass)
            else (withObstacles, Fail(obstacles.1.value))
  }

  /** The obstacle reader succeeds exactly where the obstacle parser does, with the same obstacle. */
  lemma ObstacleReaderAgrees(parse: Line -> Result<Obstacle, TokenError>, line: Line, lineNo: nat)
    ensures ObstacleReader(parse)(line, lineNo).Ok? <==> parse(line).Ok?
    ensures parse(line).Ok? ==> ObstacleReader(parse)(line, lineNo).value == parse(line).value
    ensures parse(line).Err? ==> ObstacleReader(parse)(line, lineNo).error == TokenFailure(parse(line).error, lineNo)
  {
  }

  /** The obstacle lines of a file are all fine exactly when the obstacle reader gets through them. */
  lemma ObstacleLinesRead(lines: seq<Line>, parse: Line -> Result<Obstacle, TokenError>)
    requires |lines| >= 3
    ensures (forall j :: 3 <= j < |lines| ==> parse(lines[j]).Ok?)
        <==> (forall j :: 3 <= j < |lines| ==> ObstacleReader(parse)(lines[j], j + 1).Ok?)
  {
    forall j | 3 <= j < |lines|
      ensures parse(lines[j]).Ok? <==> ObstacleReader(parse)(lines[j], j + 1).Ok?
    {
      ObstacleReaderAgrees(parse, lines[j], j + 1);
    }
  }

  /** A file of at least three lines is well formed when its first three lines hold two numbers each and every later line is an obstacle. */
  lemma WellFormedProblemLines(lines: seq<Line>, parse: Line -> Result<Obstacle, TokenError>)
    requires |lines| >= 3
    ensures WellFormedProblem(lines, parse) <==>
      IsPairLine(lines[0]) && IsPairLine(lines[1]) && IsPairLine(lines[2]) &&
      forall j :: 3 <= j < |lines| ==> parse(lines[j]).Ok?
  {
    if WellFormedProblem(lines, parse) {
      assert GoodProblemLine(lines, 0, parse) && GoodProblemLine(lines, 1, parse) && GoodProblemLine(lines, 2, parse);
      forall j | 3 <= j < |lines| ensures parse(lines[j]).Ok? {
        assert GoodProblemLine(lines, j, parse);
      }
    }
  }

  /** loadProblem succeeds exactly when the file opens and is well formed. */
  lemma LoadProblemAccepts(spec: ProblemSpec, file: Option<seq<Line>>, parse: Line -> Result<Obstacle, TokenError>)
    ensures LoadProblem(spec, file, parse).1.Pass? <==> file.Some? && WellFormedProblem(file.value, parse)
  {
    if file.Some? && |file.value| >= 3 {
      ObstacleLinesRead(file.value, parse);
      WellFormedProblemLines(file.value, parse);
    }
  }

  /** The state loadProblem builds from a line of two angles in degrees. */
  function ProblemState(lengths: Line, angles: Line): RobotArmState
    requires IsPairLine(lengths) && IsPairLine(angles)
  {
    RobotArmState(lengths[0].value, lengths[1].value, ToRadians(angles[0].value), ToRadians(angles[1].value))
  }

  /**
   * What a successful loadProblem holds: the rod lengths of line 1, the
   * initial and goal states of lines 2 and 3 built with those lengths and
   * the angles turned into radians, and the obstacles of the remaining lines
   * in file order.
   */
  lemma LoadProblemContents(spec: ProblemSpec, lines: seq<Line>, parse: Line -> Result<Obstacle, TokenError>)
    requires WellFormedProblem(lines, parse)
    ensures var r := LoadProblem(spec, Some(lines), parse).0;
      && r.problemLoaded && !r.solutionLoaded
      && r.length1 == lines[0][0].value && r.length2 == lines[0][1].value
      && r.initialState == Some(ProblemState(lines[0], lines[1]))
      && r.goalState == Some(ProblemState(lines[0], lines[2]))
      && r.obstacles.Some? && |r.obstacles.value| == |lines| - 3
      && (forall k :: 0 <= k < |r.obstacles.value| ==> parse(lines[3 + k]) == Ok(r.obstacles.value[k]))
  {
    assert GoodProblemLine(lines, 0, parse) && GoodProblemLine(lines, 1, parse) && GoodProblemLine(lines, 2, parse);
    var read := ReadEach(lines, 3, ObstacleReader(parse));
    forall k | 0 <= k < |read.0| ensures parse(lines[3 + k]) == Ok(read.0[k]) {
      ObstacleReaderAgrees(parse, lines[3 + k], 3 + k + 1);
    }
    LoadProblemAccepts(spec, Some(lines), parse);
  }

  /** Every line before index `n` of a problem file is fine. */
  predicate GoodUpTo(lines: seq<Line>, n: nat, parse: Line -> Result<Obstacle, TokenError>)
    requires n <= |lines|
  {
    forall k :: 0 <= k < n ==> GoodProblemLine(lines, k, parse)
  }

  /**
   * Where loadProblem fails: an unopenable file; a missing line k
   * (1 <= k <= 3) after k - 1 fine lines; or a bad number on line k after
   * k - 1 fine lines, reported as "not enough tokens" exactly when the line
   * ran out of tokens before showing a non-number.
   */
  lemma LoadProblemFailure(spec: ProblemSpec, file: Option<seq<Line>>, parse: Line -> Result<Obstacle, TokenError>)
    requires LoadProblem(spec, file, parse).1.Fail?
    ensures var e := LoadProblem(spec, file, parse).1.error;
      && (e == CannotOpen <==> file.None?)
      && (e.FileEnded? ==> file.Some? && 1 <= e.lineNo <= 3 && |file.value| == e.lineNo - 1
                           && GoodUpTo(file.value, e.lineNo - 1, parse))
      && ((e.InvalidNumber? || e.NotEnoughTokens?) ==>
            && file.Some? && 1 <= e.lineNo <= |file.value|
            && GoodUpTo(file.value, e.lineNo - 1, parse)
            && !GoodProblemLine(file.value, e.lineNo - 1, parse)
            && (e.lineNo <= 3 ==> (e.NotEnoughTokens? <==> ShortOfNumbers(file.value[e.lineNo - 1]))))
  {
    if file.Some? {
      var lines := file.value;
      if |lines| >= 3 && IsPairLine(lines[0]) && IsPairLine(lines[1]) && IsPairLine(lines[2]) {
        var read := ReadEach(lines, 3, ObstacleReader(parse));
        var n := 3 + |read.0|;
        ObstacleReaderAgrees(parse, lines[n], n + 1);
        forall k | 3 <= k < n ensures parse(lines[k]).Ok? {
          assert ObstacleReader(parse)(lines[3 + (k - 3)], 3 + (k - 3) + 1) == Ok(read.0[k - 3]);
          ObstacleReaderAgrees(parse, lines[k], k + 1);
        }
      }
    }
  }

  /**
   * What a failed loadProblem leaves behind: each field keeps its old value
   * unless its line was read before the failure, and the obstacle list then
   * holds the obstacles of the lines before the bad one.
   */
  lemma LoadProblemPartial(spec: ProblemSpec, lines: seq<Line>, parse: Line -> Result<Obstacle, TokenError>)
    requires LoadProblem(spec, Some(lines), parse).1.Fail?
    ensures var (r, out) := LoadProblem(spec, Some(lines), parse);
      && !r.problemLoaded && !r.solutionLoaded
      && (out.error.lineNo == 1 ==>
            && r.length2 == spec.length2
            && r.length1 == (if |lines| > 0 && NextDouble(lines[0], 0).Ok? then lines[0][0].value else spec.length1))
      && (out.error.lineNo >= 2 ==> r.length1 == lines[0][0].value && r.length2 == lines[0][1].value)
      && (out.error.lineNo <= 2 ==> r.initialState == spec.initialState)
      && (out.error.lineNo >= 3 ==> r.initialState == Some(ProblemState(lines[0], lines[1])))
      && (out.error.lineNo <= 3 ==> r.goalState == spec.goalState && r.obstacles == spec.obstacles)
      && (out.error.lineNo >= 4 ==>
            && r.goalState == Some(ProblemState(lines[0], lines[2]))
            && r.obstacles.Some? && |r.obstacles.value| == out.error.lineNo - 4
            && (forall k :: 0 <= k < |r.obstacles.value| ==> parse(lines[3 + k]) == Ok(r.obstacles.value[k])))
  {
    if |lines| >= 3 && IsPairLine(lines[0]) && IsPairLine(lines[1]) && IsPairLine(lines[2]) {
      var read := ReadEach(lines, 3, ObstacleReader(parse));
      var n := 3 + |read.0|;
      ObstacleReaderAgrees(parse, lines[n], n + 1);
      forall k | 0 <= k < |read.0| ensures parse(lines[3 + k]) == Ok(read.0[k]) {
        ObstacleReaderAgrees(parse, lines[3 + k], 3 + k + 1);
      }
    }
  }

  // ---------------------------------------------------------------- loadSolution

  /**
   * loadSolution: nothing happens unless a problem is loaded; otherwise the
   * solution flag is cleared, the path restarts empty once the file opens,
   * gets one state per line built with the loaded rod lengths, and the flag
   * is set only when every line was read. Nothing else changes.
   */
  function LoadSolution(spec: ProblemSpec, file: Option<seq<Line>>): (r: (ProblemSpec, Outcome<LoadError>))
    ensures !spec.problemLoaded ==> r == (spec, Pass)
    ensures r.0 == spec.(solutionLoaded := r.0.solutionLoaded, path := r.0.path)
    ensures spec.problemLoaded ==> (r.0.solutionLoaded <==> r.1.Pass?)
    ensures file.None? ==> r.0.path == spec.path
  {
    if !spec.problemLoaded then (spec, Pass)
    else
      var cleared := spec.(solutionLoaded := false);
      if file.None? then (cleared, Fail(CannotOpen))
      else
        var read := ReadEach(file.value, 0, PathReader(spec.length1, spec.length2));
        var withPath := cleared.(path := Some(read.0));
        if read.1.None? then (withPath.(solutionLoaded := true), Pass)
        else (withPath, Fail(read.1.value))
  }

  /** The path reader succeeds exactly on lines of two numbers, with the state those angles give. */
  lemma PathReaderAgrees(length1: real, length2: real, line: Line, lineNo: nat)
    ensures PathReader(length1, length2)(line, lineNo).Ok? <==> IsPairLine(line)
    ensures IsPairLine(line) ==> PathReader(length1, length2)(line, lineNo).value
                                 == RobotArmState(length1, length2, ToRadians(line[0].value), ToRadians(line[1].value))
    ensures !IsPairLine(line) ==> PathReader(length1, length2)(line, lineNo).error == ReadNumbers(line, lineNo).error
  {
  }

  /** A solution file loadSolution accepts: every line starts with two numbers. An empty file is accepted. */
  predicate WellFormedSolution(lines: seq<Line>) {
    forall k :: 0 <= k < |lines| ==> IsPairLine(lines[k])
  }

  /** With a problem loaded, loadSolution succeeds exactly when the file opens and is well formed. */
  lemma LoadSolutionAccepts(spec: ProblemSpec, file: Option<seq<Line>>)
    requires spec.problemLoaded
    ensures LoadSolution(spec, file).1.Pass? <==> file.Some? && WellFormedSolution(file.value)
  {
    if file.Some? {
      forall k | 0 <= k < |file.value|
        ensures PathReader(spec.length1, spec.length2)(file.value[k], k + 1).Ok? <==> IsPairLine(file.value[k])
      {
        PathReaderAgrees(spec.length1, spec.length2, file.value[k], k + 1);
      }
    }
  }

  /**
   * The path a loadSolution on an opened file leaves: one state per line
   * read, in file order, each with the loaded rod lengths and the line's
   * angles in radians; all lines on success, and on failure at line n the
   * n - 1 lines before it, all fine, while line n is not, and the error is
   * never a missing line.
   */
  lemma LoadSolutionPath(spec: ProblemSpec, lines: seq<Line>)
    requires spec.problemLoaded
    ensures var (r, out) := LoadSolution(spec, Some(lines));
      && r.path.Some?
      && (out.Pass? ==> |r.path.value| == |lines|)
      && (out.Fail? ==>
            && (out.error.InvalidNumber? || out.error.NotEnoughTokens?)
            && out.error.lineNo == |r.path.value| + 1 <= |lines|
            && !IsPairLine(lines[out.error.lineNo - 1])
            && (out.error.NotEnoughTokens? <==> ShortOfNumbers(lines[out.error.lineNo - 1])))
      && (forall k :: 0 <= k < |r.path.value| ==>
            && IsPairLine(lines[k])
            && r.path.value[k] == RobotArmState(spec.length1, spec.length2, ToRadians(lines[k][0].value), ToRadians(lines[k][1].value)))
  {
    var read := ReadEach(lines, 0, PathReader(spec.length1, spec.length2));
    forall k | 0 <= k < |read.0|
      ensures IsPairLine(lines[k]) &&
        read.0[k] == RobotArmState(spec.length1, spec.length2, ToRadians(lines[k][0].value), ToRadians(lines[k][1].value))
    {
      assert PathReader(spec.length1, spec.length2)(lines[0 + k], 0 + k + 1) == Ok(read.0[k]);
      PathReaderAgrees(spec.length1, spec.length2, lines[k], k + 1);
    }
    if read.1.Some? {
      var n := |read.0|;
      PathReaderAgrees(spec.length1, spec.length2, lines[n], n + 1);
      assert PathReader(spec.length1, spec.length2)(lines[0 + n], 0 + n + 1) == Err(read.1.value);
    }
  }

  // ---------------------------------------------------------------- getters and flags

  /** Why a list getter fails: the list was never loaded, and copying null throws. */
  datatype GetError = NullList

  /** getObstacles: a copy of the obstacle list; with value semantics the copy can never alias the spec. */
  function GetObstacles(spec: ProblemSpec): (r: Result<seq<Obstacle>, GetError>)
    ensures r.Ok? <==> spec.obstacles.Some?
    ensures r.Ok? ==> r.value == spec.obstacles.value
  {
    match spec.obstacles
    case None => Err(NullList)
    case Some(os) => Ok(os)
  }

  /** getPath: a copy of the solution path. */
  function GetPath(spec: ProblemSpec): (r: Result<seq<RobotArmState>, GetError>)
    ensures r.Ok? <==> spec.path.Some?
    ensures r.Ok? ==> r.value == spec.path.value
  {
    match spec.path
    case None => Err(NullList)
    case Some(p) => Ok(p)
  }

  /** A call a client can make on a ProblemSpec that changes it. */
  datatype Load = LoadProblemFrom(problemFile: Option<seq<Line>>) | LoadSolutionFrom(solutionFile: Option<seq<Line>>)

  /** One load applied to the spec; a failure is an exception the caller catches, and the spec stays as the load left it. */
  function Apply(spec: ProblemSpec, load: Load, parse: Line -> Result<Obstacle, TokenError>): ProblemSpec {
    match load
    case LoadProblemFrom(f) => LoadProblem(spec, f, parse).0
    case LoadSolutionFrom(f) => LoadSolution(spec, f).0
  }

  /** A run of loads, in order. */
  function Run(spec: ProblemSpec, loads: seq<Load>, parse: Line -> Result<Obstacle, TokenError>): ProblemSpec
    decreases |loads|
  {
    if loads == [] then spec else Run(Apply(spec, loads[0], parse), loads[1..], parse)
  }

  /**
   * What the two flags promise: a loaded problem has its states, built with
   * the loaded rod lengths, and its obstacles; a loaded solution implies a
   * loaded problem and has a path whose states use the loaded rod lengths;
   * and the solution cost is never set.
   */
  predicate Consistent(spec: ProblemSpec) {
    && (spec.problemLoaded ==>
          && spec.initialState.Some? && spec.goalState.Some? && spec.obstacles.Some?
          && spec.initialState.value.length1 == spec.length1 && spec.initialState.value.length2 == spec.length2
          && spec.goalState.value.length1 == spec.length1 && spec.goalState.value.length2 == spec.length2)
    && (spec.solutionLoaded ==>
          && spec.problemLoaded && spec.path.Some?
          && forall k :: 0 <= k < |spec.path.value| ==>
               spec.path.value[k].length1 == spec.length1 && spec.path.value[k].length2 == spec.length2)
    && spec.solutionCost == 0.0
  }

  /** A new spec is consistent. */
  lemma FreshConsistent()
    ensures Consistent(Fresh())
  {
  }

  /** loadProblem keeps the flags consistent. */
  lemma LoadProblemConsistent(spec: ProblemSpec, file: Option<seq<Line>>, parse: Line -> Result<Obstacle, TokenError>)
    requires Consistent(spec)
    ensures Consistent(LoadProblem(spec, file, parse).0)
  {
    if LoadProblem(spec, file, parse).1.Pass? {
      LoadProblemAccepts(spec, file, parse);
      LoadProblemContents(spec, file.value, parse);
    }
  }

  /** loadSolution keeps the flags consistent. */
  lemma LoadSolutionConsistent(spec: ProblemSpec, file: Option<seq<Line>>)
    requires Consistent(spec)
    ensures Consistent(LoadSolution(spec, file).0)
  {
    if spec.problemLoaded && file.Some? {
      LoadSolutionPath(spec, file.value);
    }
  }

  /**
   * Any run of loads from a consistent spec ends consistent: in particular
   * solutionLoaded always implies problemLoaded, and getSolutionCost is
   * always 0.
   */
  lemma {:induction false} RunConsistent(spec: ProblemSpec, loads: seq<Load>, parse: Line -> Result<Obstacle, TokenError>)
    requires Consistent(spec)
    ensures Consistent(Run(spec, loads, parse))
    decreases |loads|
  {
    if loads != [] {
      match loads[0] {
        case LoadProblemFrom(f) => LoadProblemConsistent(spec, f, parse);
        case LoadSolutionFrom(f) => LoadSolutionConsistent(spec, f);
      }
      RunConsistent(Apply(spec, loads[0], parse), loads[1..], parse);
    }
  }

  /** A loaded solution's path can be fetched, and so can a loaded problem's obstacles. */
  lemma LoadedListsExist(spec: ProblemSpec)
    requires Consistent(spec)
    ensures spec.problemLoaded ==> GetObstacles(spec).Ok?
    ensures spec.solutionLoaded ==> GetPath(spec).Ok?
  {
  }

  // ---------------------------------------------------------------- messages

  /**
   * The message of the IOException a load error becomes; `detail` stands
   * for the Scanner exception's own message. An unopenable file surfaces
   * FileReader's exception, whose message is not modelled.
   */
  function Message(e: LoadError, inSolution: bool, detail: string): (m: Option<string>)
    ensures m.None? <==> e == CannotOpen
  {
    match e
    case CannotOpen => None
    case InvalidNumber(n) => Some("Invalid number format on line " + (NatToString(n) + (": " + detail)))
    case NotEnoughTokens(n) =>
      Some("Not enough tokens on line " + (NatToString(n) + (if inSolution then " - 2 required" else "")))
    case FileEnded(n) => Some("Line " + (NatToString(n) + " expected, but file ended."))
  }

  /** Two strings with a common prefix are equal after it. */
  lemma DropPrefix(p: string, x: string, y: string)
    requires p + x == p + y
    ensures x == y
  {
    assert x == (p + x)[|p|..];
    assert y == (p + y)[|p|..];
  }

  /** Two "invalid number" messages agree only for the same line and the same detail. */
  lemma InvalidNumberMessages(n1: nat, n2: nat, inSolution: bool, d1: string, d2: string)
    requires Message(InvalidNumber(n1), inSolution, d1) == Message(InvalidNumber(n2), inSolution, d2)
    ensures n1 == n2 && d1 == d2
  {
    DropPrefix("Invalid number format on line ", NatToString(n1) + (": " + d1), NatToString(n2) + (": " + d2));
    DigitsThenRest(NatToString(n1), NatToString(n2), ": " + d1, ": " + d2);
    NatToStringInjective(n1, n2);
    DropPrefix(": ", d1, d2);
  }

  /** Two "not enough tokens" messages agree only for the same line. */
  lemma NotEnoughTokensMessages(n1: nat, n2: nat, inSolution: bool, d1: string, d2: string)
    requires Message(NotEnoughTokens(n1), inSolution, d1) == Message(NotEnoughTokens(n2), inSolution, d2)
    ensures n1 == n2
  {
    var tail := if inSolution then " - 2 required" else "";
    DropPrefix("Not enough tokens on line ", NatToString(n1) + tail, NatToString(n2) + tail);
    DigitsThenRest(NatToString(n1), NatToString(n2), tail, tail);
    NatToStringInjective(n1, n2);
  }

  /** Two "file ended" messages agree only for the same line. */
  lemma FileEndedMessages(n1: nat, n2: nat, inSolution: bool, d1: string, d2: string)
    requires Message(FileEnded(n1), inSolution, d1) == Message(FileEnded(n2), inSolution, d2)
    ensures n1 == n2
  {
    var tail := " expected, but file ended.";
    DropPrefix("Line ", NatToString(n1) + tail, NatToString(n2) + tail);
    DigitsThenRest(NatToString(n1), NatToString(n2), tail, tail);
    NatToStringInjective(n1, n2);
  }

  /** The first letter of a message tells which kind of error it reports. */
  function Initial(e: LoadError): char {
    match e
    case InvalidNumber(_) => 'I'
    case NotEnoughTokens(_) => 'N'
    case FileEnded(_) => 'L'
    case CannotOpen => ' '
  }

  /**
   * A message names its error: two load errors that give the same message
   * in the same loader are the same error, on the same line, with the same
   * detail where the message carries one.
   */
  lemma MessageIdentifiesError(e1: LoadError, e2: LoadError, inSolution: bool, d1: string, d2: string)
    requires Message(e1, inSolution, d1).Some? && Message(e1, inSolution, d1) == Message(e2, inSolution, d2)
    ensures e1 == e2
    ensures e1.InvalidNumber? ==> d1 == d2
  {
    assert Message(e1, inSolution, d1).value[0] == Initial(e1);
    assert Message(e2, inSolution, d2).value[0] == Initial(e2);
    match e1
    case InvalidNumber(n1) => InvalidNumberMessages(n1, e2.lineNo, inSolution, d1, d2);
    case NotEnoughTokens(n1) => NotEnoughTokensMessages(n1, e2.lineNo, inSolution, d1, d2);
    case FileEnded(n1) => FileEndedMessages(n1, e2.lineNo, inSolution, d1, d2);
  }
}
