/**
 * NavigationSolver.readFile: builds the named navigation graph from the
 * lines of an input file. The file holds a vertex count, that many vertex
 * names, an edge count, and that many edge lines `name name cost`; each
 * edge is stored in both directions. Lines after the last edge are never
 * read. Opening and reading the file are left out: the input is the
 * sequence of lines the reader would return.
 */
module NavigationLoader {
  import opened Wrappers
  import opened JavaText
  import opened SuccessorGraph
  import opened Navigation

  /** The exceptions readFile lets escape, each with the 1-based number of the line being read. */
  datatype ReadError =
    | FileEnded(lineNo: nat)      // readLine gave null, and trim() dereferenced it
    | NotAnInteger(lineNo: nat)   // Integer.valueOf rejected a count
    | MissingField(lineNo: nat)   // fewer than three fields on an edge line
    | NotANumber(lineNo: nat)     // Double.valueOf rejected an edge cost
    | UnknownVertex(lineNo: nat)  // byName.get gave null for an edge end

  /**
   * What readFile leaves behind: the created states in creation order (only
   * their names here), the byName index, and the edges read, in order.
   */
  datatype Network = Network(names: seq<string>, byName: map<string, Id>, edges: seq<Edge>)

  predicate Valid(net: Network) {
    InRange(net.edges, |net.names|)
  }

  /** The states' successor maps after every edge was inserted in both directions. */
  function Adjacency(net: Network): Adj
    requires Valid(net)
  {
    AddEdges(Empty(|net.names|), net.edges)
  }

  /** The NavigationState created for vertex `v`. */
  function StateOf(net: Network, v: Id): NavState
    requires Valid(net) && v < |net.names|
  {
    NavState(net.names[v], Adjacency(net)[v])
  }

  /** A negative count makes the reading loop run zero times. */
  function Clamp(x: int): nat {
    if x < 0 then 0 else x
  }

  /** No vertex after index `i` carries the name `nm`. */
  predicate LastWithName(names: seq<string>, nm: string, i: nat) {
    i < |names| && names[i] == nm && forall k :: i < k < |names| ==> names[k] != nm
  }

  /** byName after putting every vertex in creation order: each listed name maps to its last vertex. */
  function IndexByName(names: seq<string>): (m: map<string, Id>)
    ensures forall nm :: nm in m <==> nm in names
    ensures forall nm :: nm in m ==> LastWithName(names, nm, m[nm])
    decreases |names|
  {
    if names == [] then map[]
    else
      var last := |names| - 1;
      var m0 := IndexByName(names[..last]);
      LastWithNameExtends(names, m0);
      m0[names[last] := last]
  }

  /** Appending a vertex keeps every other name's last vertex. */
  lemma LastWithNameExtends(names: seq<string>, m0: map<string, Id>)
    requires names != []
    requires forall nm :: nm in m0 <==> nm in names[..|names| - 1]
    requires forall nm :: nm in m0 ==> LastWithName(names[..|names| - 1], nm, m0[nm])
    ensures forall nm :: nm in m0 && nm != names[|names| - 1] ==> LastWithName(names, nm, m0[nm])
    ensures forall nm :: nm in names <==> nm in names[..|names| - 1] || nm == names[|names| - 1]
  {
    var front := names[..|names| - 1];
    assert names == front + [names[|names| - 1]];
  }

  /** Field `k` (from 0) of an edge line, as `line.trim().split("\\s+")[k]` would give it. */
  function Field(line: string, k: nat): Option<string> {
    NthWord(Trim(line), 0, k)
  }

  /**
   * One edge line: the two vertex names and the cost. Too few fields fail
   * first, then an unreadable cost, then an unknown vertex; fields beyond
   * the third are never looked at.
   */
  function ParseEdgeLine(line: string, lineNo: nat, byName: map<string, Id>, parseDouble: string -> Option<real>): (r: Result<Edge, ReadError>)
    ensures r.Ok? <==>
      && Field(line, 0).Some? && Field(line, 1).Some? && Field(line, 2).Some?
      && parseDouble(Field(line, 2).value).Some?
      && Field(line, 0).value in byName && Field(line, 1).value in byName
    ensures r.Ok? ==> r.value == Edge(byName[Field(line, 0).value], byName[Field(line, 1).value], parseDouble(Field(line, 2).value).value)
    ensures r.Err? ==> r.error.lineNo == lineNo && !r.error.FileEnded?
  {
    match (Field(line, 0), Field(line, 1), Field(line, 2))
    case (Some(a), Some(b), Some(c)) =>
      (match parseDouble(c)
       case None => Err(NotANumber(lineNo))
       case Some(cost) =>
         if a !in byName || b !in byName then Err(UnknownVertex(lineNo))
         else Ok(Edge(byName[a], byName[b], cost)))
    case _ => Err(MissingField(lineNo))
  }

  /** Field `k` is piece `k` of the split trimmed line, and exists exactly when the split has that many non-empty pieces. */
  lemma FieldIsSplitPiece(line: string, k: nat)
    ensures
      var f := Split(Trim(line));
      Field(line, k) == if Trim(line) != [] && k < |f| then Some(f[k]) else None
  {
    var t := Trim(line);
    NthWordOfWords(t, 0, k);
    if t != [] {
      assert !IsSpace(t[0]);
    }
  }

  /** Edge `k` of `edges` is what the line at index `start + k` parses to. */
  predicate EdgeLinesRead(lines: seq<string>, start: nat, byName: map<string, Id>, parseDouble: string -> Option<real>, edges: seq<Edge>) {
    && start + |edges| <= |lines|
    && forall k {:trigger edges[k]} :: 0 <= k < |edges| ==>
         ParseEdgeLine(lines[start + k], start + k + 1, byName, parseDouble) == Ok(edges[k])
  }

  /** Every line from index `from` up to (not including) index `to` is a good edge line. */
  predicate EdgesParse(lines: seq<string>, from: nat, to: nat, byName: map<string, Id>, parseDouble: string -> Option<real>) {
    && to <= |lines|
    && forall k :: from <= k < to ==> ParseEdgeLine(lines[k], k + 1, byName, parseDouble).Ok?
  }

  /**
   * The error of reading `count` edge lines from index `start`: the error of
   * the first of them that fails, or, when every line present parses but
   * fewer than `count` remain, the null line just past the end.
   */
  predicate EdgeSectionError(lines: seq<string>, start: nat, count: nat, byName: map<string, Id>, parseDouble: string -> Option<real>, e: ReadError) {
    if e.FileEnded? then
      && e.lineNo == |lines| + 1 && |lines| < start + count
      && EdgesParse(lines, start, |lines|, byName, parseDouble)
    else
      && start < e.lineNo <= |lines| && e.lineNo <= start + count
      && EdgesParse(lines, start, e.lineNo - 1, byName, parseDouble)
      && ParseEdgeLine(lines[e.lineNo - 1], e.lineNo, byName, parseDouble) == Err(e)
  }

  /**
   * The `count` edge lines starting at index `start`, stopping at the first
   * failure: they are read exactly when all of them are present and good,
   * and otherwise the first failure is reported.
   */
  function ReadEdges(lines: seq<string>, start: nat, count: nat, byName: map<string, Id>, parseDouble: string -> Option<real>): (r: Result<seq<Edge>, ReadError>)
    requires start <= |lines|
    ensures r.Ok? <==> EdgesParse(lines, start, start + count, byName, parseDouble)
    ensures r.Ok? ==> |r.value| == count && EdgeLinesRead(lines, start, byName, parseDouble, r.value)
    ensures r.Err? ==> EdgeSectionError(lines, start, count, byName, parseDouble, r.error)
    decreases count
  {
    if count == 0 then Ok([])
    else if start == |lines| then Err(FileEnded(|lines| + 1))
    else match ParseEdgeLine(lines[start], start + 1, byName, parseDouble)
      case Err(e) => Err(e)
      case Ok(edge) =>
        EdgesParseFront(lines, start, start + count, byName, parseDouble);
        match ReadEdges(lines, start + 1, count - 1, byName, parseDouble)
        case Err(e) =>
          EdgeSectionErrorFront(lines, start, count, byName, parseDouble, e);
          Err(e)
        case Ok(rest) =>
          EdgeLinesReadCons(lines, start, byName, parseDouble, edge, rest);
          Ok([edge] + rest)
  }

  /** A range of good edge lines is its first line followed by the rest. */
  lemma EdgesParseFront(lines: seq<string>, from: nat, to: nat, byName: map<string, Id>, parseDouble: string -> Option<real>)
    requires from < to
    ensures EdgesParse(lines, from, to, byName, parseDouble) <==>
      && from < |lines| && ParseEdgeLine(lines[from], from + 1, byName, parseDouble).Ok?
      && EdgesParse(lines, from + 1, to, byName, parseDouble)
  {
  }

  /** A failure after a good first line is the failure of the whole section. */
  lemma EdgeSectionErrorFront(lines: seq<string>, start: nat, count: nat, byName: map<string, Id>, parseDouble: string -> Option<real>, e: ReadError)
    requires start < |lines| && count > 0 && ParseEdgeLine(lines[start], start + 1, byName, parseDouble).Ok?
    requires EdgeSectionError(lines, start + 1, count - 1, byName, parseDouble, e)
    ensures EdgeSectionError(lines, start, count, byName, parseDouble, e)
  {
    if e.FileEnded? {
      EdgesParseFront(lines, start, |lines|, byName, parseDouble);
    } else {
      EdgesParseFront(lines, start, e.lineNo - 1, byName, parseDouble);
    }
  }

  /** A parsed line in front of parsed lines. */
  lemma EdgeLinesReadCons(lines: seq<string>, start: nat, byName: map<string, Id>, parseDouble: string -> Option<real>, edge: Edge, rest: seq<Edge>)
    requires start < |lines| && ParseEdgeLine(lines[start], start + 1, byName, parseDouble) == Ok(edge)
    requires EdgeLinesRead(lines, start + 1, byName, parseDouble, rest)
    ensures EdgeLinesRead(lines, start, byName, parseDouble, [edge] + rest)
  {
    var es := [edge] + rest;
    forall k | 0 <= k < |es| ensures ParseEdgeLine(lines[start + k], start + k + 1, byName, parseDouble) == Ok(es[k]) {
      if k == 0 {
        assert es[0] == edge;
      } else {
        var j := k - 1;
        assert es[k] == rest[j];
        assert ParseEdgeLine(lines[start + 1 + j], start + 1 + j + 1, byName, parseDouble) == Ok(rest[j]);
        assert start + 1 + j == start + k;
      }
    }
  }

  /** Both ends of every parsed edge are vertices of the index. */
  lemma EdgeLinesEndpoints(lines: seq<string>, start: nat, byName: map<string, Id>, parseDouble: string -> Option<real>, edges: seq<Edge>)
    requires EdgeLinesRead(lines, start, byName, parseDouble, edges)
    ensures forall k {:trigger edges[k]} :: 0 <= k < |edges| ==> edges[k].a in byName.Values && edges[k].b in byName.Values
  {
    forall k | 0 <= k < |edges| ensures edges[k].a in byName.Values && edges[k].b in byName.Values {
      assert ParseEdgeLine(lines[start + k], start + k + 1, byName, parseDouble) == Ok(edges[k]);
    }
  }

  /**
   * A count line: `Integer.valueOf(line.trim())`, where a missing line is
   * the null dereference and a negative count reads nothing.
   */
  function ReadCount(lines: seq<string>, idx: nat): (r: Result<nat, ReadError>)
    ensures r.Ok? <==> idx < |lines| && ParseInt(Trim(lines[idx])).Some?
    ensures r.Ok? ==> r.value == Clamp(ParseInt(Trim(lines[idx])).value)
    ensures r.Err? ==> r.error == (if idx < |lines| then NotAnInteger(idx + 1) else FileEnded(idx + 1))
  {
    if idx >= |lines| then Err(FileEnded(idx + 1))
    else match ParseInt(Trim(lines[idx]))
      case None => Err(NotAnInteger(idx + 1))
      case Some(v) => Ok(Clamp(v))
  }

  /** Everything readFile promises about the network it returns for `lines`. */
  predicate ReadFrom(lines: seq<string>, parseDouble: string -> Option<real>, net: Network) {
    var n := |net.names|;
    && Valid(net)
    && |lines| >= n + 2 + |net.edges|
    && ReadCount(lines, 0) == Ok(n)
    && (forall i {:trigger net.names[i]} :: 0 <= i < n ==> net.names[i] == Trim(lines[1 + i]))
    && net.byName == IndexByName(net.names)
    && ReadCount(lines, n + 1) == Ok(|net.edges|)
    && EdgeLinesRead(lines, n + 2, net.byName, parseDouble, net.edges)
  }

  /** Every vertex id in the index names a listed vertex, so edges between indexed vertices are in range. */
  lemma IndexedEdgesInRange(names: seq<string>, edges: seq<Edge>)
    requires forall k {:trigger edges[k]} :: 0 <= k < |edges| ==>
      edges[k].a in IndexByName(names).Values && edges[k].b in IndexByName(names).Values
    ensures InRange(edges, |names|)
  {
    var byName := IndexByName(names);
    forall v | v in byName.Values ensures v < |names| {
      var nm :| nm in byName && byName[nm] == v;
      assert LastWithName(names, nm, v);
    }
  }

  /** The second half of readFile, once the vertex names are read: the edge count and the edge lines. */
  function ReadEdgeSection(lines: seq<string>, names: seq<string>, parseDouble: string -> Option<real>): (r: Result<Network, ReadError>)
    requires |names| + 2 <= |lines|
    ensures r.Ok? ==>
      var net := r.value;
      && net.names == names && net.byName == IndexByName(names) && Valid(net)
      && ReadCount(lines, |names| + 1) == Ok(|net.edges|)
      && |lines| >= |names| + 2 + |net.edges|
      && EdgeLinesRead(lines, |names| + 2, net.byName, parseDouble, net.edges)
    ensures ReadCount(lines, |names| + 1).Err? ==> r == Err(NotAnInteger(|names| + 2))
    ensures ReadCount(lines, |names| + 1).Ok? ==>
      var m := ReadCount(lines, |names| + 1).value;
      && (r.Ok? <==> EdgesParse(lines, |names| + 2, |names| + 2 + m, IndexByName(names), parseDouble))
      && (r.Err? ==> EdgeSectionError(lines, |names| + 2, m, IndexByName(names), parseDouble, r.error))
  {
    var byName := IndexByName(names);
    match ReadCount(lines, |names| + 1)
    case Err(e) => Err(e)
    case Ok(m) =>
      match ReadEdges(lines, |names| + 2, m, byName, parseDouble)
      case Err(e) => Err(e)
      case Ok(edges) =>
        EdgeLinesEndpoints(lines, |names| + 2, byName, parseDouble, edges);
        IndexedEdgesInRange(names, edges);
        Ok(Network(names, byName, edges))
  }

  /** The `n` vertex names on the lines after the vertex count, each trimmed. */
  function ReadNames(lines: seq<string>, n: nat): (names: seq<string>)
    requires n < |lines|
    ensures |names| == n
    ensures forall i {:trigger names[i]} :: 0 <= i < n ==> names[i] == Trim(lines[1 + i])
  {
    if n == 0 then [] else ReadNames(lines, n - 1) + [Trim(lines[n])]
  }

  /**
   * The exception readFile raises on `lines`: a vertex count that is missing
   * or no int; the file ending among the vertex names or at the edge count;
   * an edge count that is no int; or the first failing edge line, or the end
   * of the file before the last edge line.
   */
  predicate FileError(lines: seq<string>, parseDouble: string -> Option<real>, e: ReadError) {
    match ReadCount(lines, 0)
    case Err(e0) => e == e0
    case Ok(n) =>
      if |lines| < n + 2 then e == FileEnded(|lines| + 1)
      else
        match ReadCount(lines, n + 1)
        case Err(e1) => e == e1
        case Ok(m) => EdgeSectionError(lines, n + 2, m, IndexByName(ReadNames(lines, n)), parseDouble, e)
  }

  /** The count line, the names and the edge section together are what readFile promises, or the exception it raises. */
  lemma SectionsMakeNetwork(lines: seq<string>, parseDouble: string -> Option<real>, n: nat, r: Result<Network, ReadError>)
    requires ReadCount(lines, 0) == Ok(n) && n + 2 <= |lines|
    requires r == ReadEdgeSection(lines, ReadNames(lines, n), parseDouble)
    ensures r.Ok? ==> ReadFrom(lines, parseDouble, r.value)
    ensures r.Err? ==> FileError(lines, parseDouble, r.error)
  {
  }

  /** readFile over the lines of the input file: what it builds, or the exception it raises. */
  function ReadFile(lines: seq<string>, parseDouble: string -> Option<real>): (r: Result<Network, ReadError>)
    ensures r.Ok? ==> ReadFrom(lines, parseDouble, r.value)
    ensures r.Err? ==> FileError(lines, parseDouble, r.error)
    ensures r.Err? && r.error.FileEnded? ==> r.error.lineNo == |lines| + 1
    ensures r.Err? && !r.error.FileEnded? ==> 1 <= r.error.lineNo <= |lines|
  {
    match ReadCount(lines, 0)
    case Err(e) => Err(e)
    case Ok(n) =>
      if |lines| < n + 2 then Err(FileEnded(|lines| + 1))
      else
        var r := ReadEdgeSection(lines, ReadNames(lines, n), parseDouble);
        SectionsMakeNetwork(lines, parseDouble, n, r);
        r
  }

  /** Edge lists read from the same lines agree: each edge is what its line parses to. */
  lemma EdgeLinesReadUnique(lines: seq<string>, start: nat, byName: map<string, Id>, parseDouble: string -> Option<real>, es1: seq<Edge>, es2: seq<Edge>)
    requires EdgeLinesRead(lines, start, byName, parseDouble, es1) && EdgeLinesRead(lines, start, byName, parseDouble, es2)
    requires |es1| == |es2|
    ensures es1 == es2
  {
    forall k | 0 <= k < |es1| ensures es1[k] == es2[k] {
      assert ParseEdgeLine(lines[start + k], start + k + 1, byName, parseDouble) == Ok(es1[k]);
      assert ParseEdgeLine(lines[start + k], start + k + 1, byName, parseDouble) == Ok(es2[k]);
    }
  }

  /**
   * readFile accepts every file that describes a network, and builds that
   * network: a file is read exactly when some network fits it, and then the
   * network is the one it describes.
   */
  lemma ReadFileAccepts(lines: seq<string>, parseDouble: string -> Option<real>, net: Network)
    requires ReadFrom(lines, parseDouble, net)
    ensures ReadFile(lines, parseDouble) == Ok(net)
  {
    var n := |net.names|;
    assert ReadNames(lines, n) == net.names;
    EdgeSectionAccepts(lines, parseDouble, net);
  }

  /** The edge section of a file that describes `net` is read as `net`'s edges. */
  lemma EdgeSectionAccepts(lines: seq<string>, parseDouble: string -> Option<real>, net: Network)
    requires ReadFrom(lines, parseDouble, net)
    ensures ReadEdgeSection(lines, net.names, parseDouble) == Ok(net)
  {
    var start := |net.names| + 2;
    EdgeLinesParse(lines, start, net.byName, parseDouble, net.edges);
    var edges := ReadEdges(lines, start, |net.edges|, net.byName, parseDouble);
    EdgeLinesReadUnique(lines, start, net.byName, parseDouble, edges.value, net.edges);
  }

  /** Lines that were read as edges are good edge lines. */
  lemma EdgeLinesParse(lines: seq<string>, start: nat, byName: map<string, Id>, parseDouble: string -> Option<real>, edges: seq<Edge>)
    requires EdgeLinesRead(lines, start, byName, parseDouble, edges)
    ensures EdgesParse(lines, start, start + |edges|, byName, parseDouble)
  {
    forall k | start <= k < start + |edges| ensures ParseEdgeLine(lines[k], k + 1, byName, parseDouble).Ok? {
      assert ParseEdgeLine(lines[start + (k - start)], start + (k - start) + 1, byName, parseDouble) == Ok(edges[k - start]);
    }
  }

  /**
   * The graph readFile builds is symmetric, and every successor entry comes
   * from an edge naming the pair (in either order), with the cost of the
   * last such edge; by ReadFrom, edge `k` is the one on line `n + 3 + k`.
   */
  lemma SuccessorsComeFromEdgeLines(net: Network, i: Id, j: Id)
    requires Valid(net)
    requires i < |net.names|
    ensures Symmetric(Adjacency(net))
    ensures j in StateOf(net, i).succMap ==>
      exists k :: 0 <= k < |net.edges| && Joins(net.edges[k], i, j)
        && StateOf(net, i).succMap[j] == net.edges[k].cost
        && forall k' :: k < k' < |net.edges| ==> !Joins(net.edges[k'], i, j)
  {
    EdgeGraph(|net.names|, net.edges, i, j);
    LastCostIsLast(net.edges, i, j);
  }

  /** An edge line joining two listed vertices gives each the other as successor at that line's cost, unless a later line joins them again. */
  lemma EdgeLineMakesSuccessors(net: Network, k: nat)
    requires Valid(net)
    requires k < |net.edges|
    requires forall k' :: k < k' < |net.edges| ==> !Joins(net.edges[k'], net.edges[k].a, net.edges[k].b)
    ensures
      var e := net.edges[k];
      && Lookup(StateOf(net, e.a).succMap, e.b) == Some(e.cost)
      && Lookup(StateOf(net, e.b).succMap, e.a) == Some(e.cost)
  {
    var e := net.edges[k];
    EdgeGraphEntry(|net.names|, net.edges, e.a, e.b);
    EdgeGraphEntry(|net.names|, net.edges, e.b, e.a);
    LastCostOfLatest(net.edges, k, e.a, e.b);
    LastCostOfLatest(net.edges, k, e.b, e.a);
  }
}
