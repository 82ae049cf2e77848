/**
 * Successor maps and the undirected weighted graphs built from them.
 *
 * Every state in the system keeps its outgoing edges in a hash map from
 * successor to edge cost (NavigationState.succMap, StateWithMap). States are
 * identified here by their index in the list that holds them, so a graph is
 * one successor map per index.
 */
module SuccessorGraph {
  import opened Wrappers

  type Id = nat

  /** A state's successor map: successor identity to edge cost. */
  type SuccMap = map<Id, real>

  /** The cost recorded for `to`, or None when `to` is not a successor. */
  function Lookup(m: SuccMap, to: Id): Option<real> {
    if to in m then Some(m[to]) else None
  }

  /** HashMap.put: `to` gets the new cost and every other entry is kept. */
  function Put(m: SuccMap, to: Id, cost: real): (r: SuccMap)
    ensures r.Keys == m.Keys + {to}
    ensures Lookup(r, to) == Some(cost)
    ensures forall t :: t != to ==> Lookup(r, t) == Lookup(m, t)
  {
    m[to := cost]
  }

  /** One successor map per state index. */
  type Adj = seq<SuccMap>

  /** `n` states, none with a successor. */
  function Empty(n: nat): (adj: Adj)
    ensures |adj| == n
    ensures forall i, j: Id :: 0 <= i < n ==> Lookup(adj[i], j) == None
  {
    seq(n, i => map[])
  }

  /** The state at index `from` records `to` as a successor at the given cost. */
  function AddSuccessor(adj: Adj, from: Id, to: Id, cost: real): (r: Adj)
    requires from < |adj|
    ensures |r| == |adj|
    ensures Lookup(r[from], to) == Some(cost)
    ensures forall i, j: Id :: 0 <= i < |adj| && (i, j) != (from, to) ==> Lookup(r[i], j) == Lookup(adj[i], j)
  {
    adj[from := Put(adj[from], to, cost)]
  }

  /** An undirected edge between indices `a` and `b`. */
  datatype Edge = Edge(a: Id, b: Id, cost: real)

  /** Edge `e` connects `i` and `j`, in either direction. */
  predicate Joins(e: Edge, i: Id, j: Id) {
    (e.a == i && e.b == j) || (e.a == j && e.b == i)
  }

  predicate InRange(es: seq<Edge>, n: nat) {
    forall k :: 0 <= k < |es| ==> es[k].a < n && es[k].b < n
  }

  /** Every successor is a state of the graph and records the same cost back. */
  predicate Symmetric(adj: Adj) {
    forall i: Id, j: Id {:trigger j in adj[i]} :: i < |adj| && j in adj[i] ==> j < |adj| && Lookup(adj[j], i) == Some(adj[i][j])
  }

  /**
   * The two successor insertions the loaders perform for one edge line:
   * `b` becomes a successor of `a` and `a` of `b`, both at the edge's cost.
   */
  function AddEdge(adj: Adj, e: Edge): (r: Adj)
    requires e.a < |adj| && e.b < |adj|
    ensures |r| == |adj|
    ensures forall i, j: Id {:trigger Lookup(r[i], j)} :: 0 <= i < |adj| ==>
      Lookup(r[i], j) == if Joins(e, i, j) then Some(e.cost) else Lookup(adj[i], j)
    ensures Symmetric(adj) ==> Symmetric(r)
  {
    var r := AddSuccessor(AddSuccessor(adj, e.a, e.b, e.cost), e.b, e.a, e.cost);
    SymmetricAfterEdge(adj, e, r);
    r
  }

  /** Helper for AddEdge: an update that sets exactly the edge's two entries keeps symmetry. */
  lemma SymmetricAfterEdge(adj: Adj, e: Edge, r: Adj)
    requires e.a < |adj| && e.b < |adj| && |r| == |adj|
    requires forall i, j: Id {:trigger Lookup(r[i], j)} :: 0 <= i < |adj| ==>
      Lookup(r[i], j) == if Joins(e, i, j) then Some(e.cost) else Lookup(adj[i], j)
    ensures Symmetric(adj) ==> Symmetric(r)
  {
    if Symmetric(adj) {
      forall i: Id, j: Id {:trigger j in r[i]} | i < |r| && j in r[i]
        ensures j < |r| && Lookup(r[j], i) == Some(r[i][j])
      {
        assert Lookup(r[i], j) == Some(r[i][j]);
        if !Joins(e, i, j) {
          assert Lookup(adj[i], j) == Some(r[i][j]);
          assert j in adj[i];
          assert j < |adj| && Lookup(adj[j], i) == Some(adj[i][j]);
          assert !Joins(e, j, i);
          assert Lookup(r[j], i) == Lookup(adj[j], i);
        } else {
          assert j < |adj|;
          assert Joins(e, j, i);
          assert Lookup(r[j], i) == Some(e.cost);
        }
      }
      assert Symmetric(r);
    }
  }

  /** Successor maps that agree on every lookup are the same map. */
  lemma SameLookups(m1: SuccMap, m2: SuccMap)
    requires forall j :: Lookup(m1, j) == Lookup(m2, j)
    ensures m1 == m2
  {
    assert forall j :: j in m1 <==> Lookup(m1, j).Some?;
    assert forall j :: j in m2 <==> Lookup(m2, j).Some?;
    assert m1.Keys == m2.Keys;
  }

  /** An edge from a state to itself adds one entry: the state becomes its own successor, and no other map changes. */
  lemma SelfEdge(adj: Adj, a: Id, c: real)
    requires a < |adj|
    ensures Lookup(AddEdge(adj, Edge(a, a, c))[a], a) == Some(c)
    ensures AddEdge(adj, Edge(a, a, c))[a].Keys == adj[a].Keys + {a}
    ensures forall i :: 0 <= i < |adj| && i != a ==> AddEdge(adj, Edge(a, a, c))[i] == adj[i]
  {
    var r := AddEdge(adj, Edge(a, a, c));
    forall i | 0 <= i < |adj| && i != a ensures r[i] == adj[i] {
      forall j ensures Lookup(r[i], j) == Lookup(adj[i], j) {
        assert !Joins(Edge(a, a, c), i, j);
      }
      SameLookups(r[i], adj[i]);
    }
    forall j ensures j in r[a] <==> j in adj[a] || j == a {
      assert Lookup(r[a], j) == if j == a then Some(c) else Lookup(adj[a], j);
    }
  }

  /** The edges inserted in order, a later edge overwriting an earlier one between the same pair. */
  function AddEdges(adj: Adj, es: seq<Edge>): (r: Adj)
    requires InRange(es, |adj|)
    ensures |r| == |adj|
    ensures Symmetric(adj) ==> Symmetric(r)
    decreases |es|
  {
    if es == [] then adj else AddEdge(AddEdges(adj, es[..|es| - 1]), es[|es| - 1])
  }

  /** The cost of the last edge of `es` that connects `i` and `j`. */
  function LastCost(es: seq<Edge>, i: Id, j: Id): Option<real>
    decreases |es|
  {
    if es == [] then None
    else if Joins(es[|es| - 1], i, j) then Some(es[|es| - 1].cost)
    else LastCost(es[..|es| - 1], i, j)
  }

  /** After the insertions, an entry is the last edge's cost for its pair, or what was there before. */
  lemma {:induction false} AddEdgesEntry(adj: Adj, es: seq<Edge>, i: Id, j: Id)
    requires InRange(es, |adj|) && i < |adj|
    ensures Lookup(AddEdges(adj, es)[i], j) == if LastCost(es, i, j).Some? then LastCost(es, i, j) else Lookup(adj[i], j)
    decreases |es|
  {
    if es != [] {
      AddEdgesEntry(adj, es[..|es| - 1], i, j);
    }
  }

  /** Which edge is last for a pair does not depend on the order the pair is named in. */
  lemma {:induction false} LastCostSymmetric(es: seq<Edge>, i: Id, j: Id)
    ensures LastCost(es, i, j) == LastCost(es, j, i)
    decreases |es|
  {
    if es != [] {
      LastCostSymmetric(es[..|es| - 1], i, j);
    }
  }

  /** LastCost finds the latest edge joining the pair, and None when no edge joins it. */
  lemma {:induction false} LastCostIsLast(es: seq<Edge>, i: Id, j: Id)
    ensures LastCost(es, i, j).None? <==> forall k :: 0 <= k < |es| ==> !Joins(es[k], i, j)
    ensures LastCost(es, i, j).Some? ==>
      exists k :: 0 <= k < |es| && Joins(es[k], i, j) && LastCost(es, i, j) == Some(es[k].cost)
        && forall k' :: k < k' < |es| ==> !Joins(es[k'], i, j)
    decreases |es|
  {
    if es != [] {
      var last := |es| - 1;
      var front := es[..last];
      if Joins(es[last], i, j) {
        assert LastCost(es, i, j) == Some(es[last].cost);
      } else {
        assert LastCost(es, i, j) == LastCost(front, i, j);
        LastCostIsLast(front, i, j);
        assert forall k :: 0 <= k < last ==> front[k] == es[k];
        if LastCost(front, i, j).Some? {
          var k :| 0 <= k < |front| && Joins(front[k], i, j) && LastCost(front, i, j) == Some(front[k].cost)
            && forall k' :: k < k' < |front| ==> !Joins(front[k'], i, j);
          assert Joins(es[k], i, j);
        }
      }
    }
  }

  /** An edge joining `i` and `j` with no later edge joining them sets their cost. */
  lemma {:induction false} LastCostOfLatest(es: seq<Edge>, k: nat, i: Id, j: Id)
    requires k < |es| && Joins(es[k], i, j)
    requires forall k' :: k < k' < |es| ==> !Joins(es[k'], i, j)
    ensures LastCost(es, i, j) == Some(es[k].cost)
    decreases |es|
  {
    if k < |es| - 1 {
      var front := es[..|es| - 1];
      assert forall k' :: k < k' < |front| ==> front[k'] == es[k'];
      LastCostOfLatest(front, k, i, j);
    }
  }

  /** When every edge joining `i` and `j` is the same edge, its cost is the one recorded. */
  lemma {:induction false} LastCostOfUnique(es: seq<Edge>, i: Id, j: Id, c: real)
    requires i < j
    requires forall k :: 0 <= k < |es| && Joins(es[k], i, j) ==> es[k] == Edge(i, j, c)
    ensures LastCost(es, i, j) == if Edge(i, j, c) in es then Some(c) else None
    decreases |es|
  {
    if es != [] {
      var front := es[..|es| - 1];
      assert forall k :: 0 <= k < |front| ==> front[k] == es[k];
      LastCostOfUnique(front, i, j, c);
      assert es == front + [es[|es| - 1]];
    }
  }

  /** A graph of `n` states built only from edges is symmetric, and each entry comes from the last edge of its pair. */
  lemma EdgeGraph(n: nat, es: seq<Edge>, i: Id, j: Id)
    requires InRange(es, n) && i < n
    ensures Symmetric(AddEdges(Empty(n), es))
    ensures Lookup(AddEdges(Empty(n), es)[i], j) == LastCost(es, i, j)
  {
    EdgeGraphEntry(n, es, i, j);
  }

  /** Each entry of a graph built only from edges comes from the last edge of its pair. */
  lemma EdgeGraphEntry(n: nat, es: seq<Edge>, i: Id, j: Id)
    requires InRange(es, n) && i < n
    ensures Lookup(AddEdges(Empty(n), es)[i], j) == LastCost(es, i, j)
  {
    AddEdgesEntry(Empty(n), es, i, j);
  }

  // ---------------------------------------------------------------- scanning all pairs

  /** A decision for every pair of state indices, lower index first: whether to join them, and at what cost. */
  datatype PairRule = PairRule(joins: (Id, Id) -> bool, cost: (Id, Id) -> real)

  /** The edge between `i` and `j` at the rule's cost. */
  function RuleEdge(rule: PairRule, i: Id, j: Id): Edge {
    Edge(i, j, rule.cost(i, j))
  }

  /** An edge the rule accepts between two of `n` states, lower index first. */
  predicate IsRuleEdge(rule: PairRule, n: nat, e: Edge) {
    e.a < e.b < n && rule.joins(e.a, e.b) && e == RuleEdge(rule, e.a, e.b)
  }

  predicate AllRuleEdges(rule: PairRule, n: nat, es: seq<Edge>) {
    forall k :: 0 <= k < |es| ==> IsRuleEdge(rule, n, es[k])
  }

  /** The edges row `i` of the scan adds while its partner index runs from i + 1 up to (not including) `j`. */
  function RowEdges(rule: PairRule, i: Id, j: Id): seq<Edge>
    requires i < j
    decreases j
  {
    if j == i + 1 then []
    else
      var front := RowEdges(rule, i, j - 1);
      if rule.joins(i, j - 1) then front + [RuleEdge(rule, i, j - 1)] else front
  }

  /** The edges of rows 0 up to (not including) `i` of the scan over `n` states, in the order they are added. */
  function PairEdges(rule: PairRule, n: nat, i: nat): seq<Edge>
    requires i <= n
    decreases i
  {
    if i == 0 then [] else PairEdges(rule, n, i - 1) + RowEdges(rule, i - 1, n)
  }

  /** Row `i` holds exactly the accepted pairs from `i` to the indices below `j`. */
  lemma {:induction false} RowEdgesExactly(rule: PairRule, i: Id, j: Id)
    requires i < j
    ensures AllRuleEdges(rule, j, RowEdges(rule, i, j))
    ensures forall k :: 0 <= k < |RowEdges(rule, i, j)| ==> RowEdges(rule, i, j)[k].a == i
    ensures forall b: Id :: i < b < j ==> (RuleEdge(rule, i, b) in RowEdges(rule, i, j) <==> rule.joins(i, b))
    decreases j
  {
    if j > i + 1 {
      RowEdgesExactly(rule, i, j - 1);
      var front := RowEdges(rule, i, j - 1);
      var es := RowEdges(rule, i, j);
      assert forall k :: 0 <= k < |front| ==> es[k] == front[k];
      forall b: Id | i < b < j
        ensures RuleEdge(rule, i, b) in es <==> rule.joins(i, b)
      {
        if b < j - 1 {
          assert RuleEdge(rule, i, b) in es <==> RuleEdge(rule, i, b) in front;
        }
      }
    }
  }

  /** Rows below `i` hold exactly the accepted pairs whose lower index is below `i`. */
  lemma {:induction false} PairEdgesExactly(rule: PairRule, n: nat, i: nat)
    requires i <= n
    ensures AllRuleEdges(rule, n, PairEdges(rule, n, i))
    ensures forall k :: 0 <= k < |PairEdges(rule, n, i)| ==> PairEdges(rule, n, i)[k].a < i
    ensures forall a: Id, b: Id :: a < i && a < b < n ==> (RuleEdge(rule, a, b) in PairEdges(rule, n, i) <==> rule.joins(a, b))
    decreases i
  {
    if i > 0 {
      PairEdgesExactly(rule, n, i - 1);
      var front := PairEdges(rule, n, i - 1);
      if i - 1 < n - 1 {
        RowEdgesExactly(rule, i - 1, n);
      }
      var row := RowEdges(rule, i - 1, n);
      var es := front + row;
      forall a: Id, b: Id | a < i && a < b < n
        ensures RuleEdge(rule, a, b) in es <==> rule.joins(a, b)
      {
        if a < i - 1 {
          assert RuleEdge(rule, a, b) !in row;
        } else {
          assert RuleEdge(rule, a, b) !in front;
        }
      }
    }
  }

  /** The rule joins `i` and `j`, asked with the lower index first. */
  predicate PairJoined(rule: PairRule, n: nat, i: Id, j: Id) {
    i < n && j < n && i != j && if i < j then rule.joins(i, j) else rule.joins(j, i)
  }

  /** The rule's cost for the pair, asked with the lower index first. */
  function PairCost(rule: PairRule, i: Id, j: Id): real {
    if i < j then rule.cost(i, j) else rule.cost(j, i)
  }

  /** Among edges the rule accepts, the last joining `i` and `j` carries the pair's cost, if the rule joins them. */
  lemma RuleLastCost(rule: PairRule, n: nat, es: seq<Edge>, i: Id, j: Id)
    requires AllRuleEdges(rule, n, es)
    requires forall a: Id, b: Id :: a < b < n ==> (RuleEdge(rule, a, b) in es <==> rule.joins(a, b))
    ensures LastCost(es, i, j) == if PairJoined(rule, n, i, j) then Some(PairCost(rule, i, j)) else None
  {
    if i < j {
      LastCostOfUnique(es, i, j, rule.cost(i, j));
    } else if j < i {
      LastCostOfUnique(es, j, i, rule.cost(j, i));
      LastCostSymmetric(es, i, j);
    } else {
      LastCostIsLast(es, i, j);
    }
  }

  /**
   * After the scan of all pairs of `n` states, an entry holds the pair's cost
   * when the rule joins the pair, and what it held before otherwise.
   */
  lemma PairScanEntry(rule: PairRule, adj: Adj, i: Id, j: Id)
    requires i < |adj|
    ensures InRange(PairEdges(rule, |adj|, |adj|), |adj|)
    ensures Lookup(AddEdges(adj, PairEdges(rule, |adj|, |adj|))[i], j)
      == if PairJoined(rule, |adj|, i, j) then Some(PairCost(rule, i, j)) else Lookup(adj[i], j)
  {
    var es := PairEdges(rule, |adj|, |adj|);
    PairEdgesExactly(rule, |adj|, |adj|);
    AddEdgesEntry(adj, es, i, j);
    RuleLastCost(rule, |adj|, es, i, j);
  }

  /** The fold of edges after appending one edge is one more AddEdge. */
  lemma AddEdgesSnoc(adj: Adj, es: seq<Edge>, e: Edge)
    requires InRange(es, |adj|) && e.a < |adj| && e.b < |adj|
    ensures InRange(es + [e], |adj|)
    ensures AddEdges(adj, es + [e]) == AddEdge(AddEdges(adj, es), e)
  {
    assert (es + [e])[..|es|] == es;
  }

  /** Part-way through row `i`, every edge added so far is an accepted pair of the `n` states. */
  lemma ScanInRange(rule: PairRule, n: nat, i: Id, j: Id)
    requires i < j <= n
    ensures AllRuleEdges(rule, n, PairEdges(rule, n, i) + RowEdges(rule, i, j))
    ensures InRange(PairEdges(rule, n, i) + RowEdges(rule, i, j), n)
  {
    PairEdgesExactly(rule, n, i);
    RowEdgesExactly(rule, i, j);
  }

  /** The scan's edges are accepted pairs, so both ends of each are among the `n` states. */
  lemma PairEdgesInRange(rule: PairRule, n: nat, i: nat)
    requires i <= n
    ensures InRange(PairEdges(rule, n, i), n)
  {
    PairEdgesExactly(rule, n, i);
  }

  /** The edges of the scan part-way through row `i` join states among the `n`. */
  lemma RowInRange(rule: PairRule, n: nat, i: Id, j: Id)
    requires i < j <= n
    ensures InRange(PairEdges(rule, n, i) + RowEdges(rule, i, j), n)
  {
    ScanInRange(rule, n, i, j);
  }

  /** The maps after rows 0 up to (not including) `i` of the scan over the states of `adj`. */
  ghost function ScanMaps(rule: PairRule, adj: Adj, i: nat): (r: Adj)
    requires i <= |adj|
    ensures |r| == |adj|
  {
    PairEdgesInRange(rule, |adj|, i);
    AddEdges(adj, PairEdges(rule, |adj|, i))
  }

  /** The maps part-way through row `i`: `adj` with the rows below `i` and row `i` up to (not including) `j` added. */
  ghost function RowMaps(rule: PairRule, adj: Adj, i: Id, j: Id): (r: Adj)
    requires i < j <= |adj|
    ensures |r| == |adj|
  {
    RowInRange(rule, |adj|, i, j);
    AddEdges(adj, PairEdges(rule, |adj|, i) + RowEdges(rule, i, j))
  }

  /** A row starts from the maps the rows below it built. */
  lemma RowStart(rule: PairRule, adj: Adj, i: Id)
    requires i < |adj|
    ensures RowMaps(rule, adj, i, i + 1) == ScanMaps(rule, adj, i)
  {
    var done := PairEdges(rule, |adj|, i);
    assert RowEdges(rule, i, i + 1) == [];
    assert done + [] == done;
  }

  /** One pair of the inner scan as it is performed: the pair's edge is added when the rule joins it. */
  function PairStep(rule: PairRule, r: Adj, i: Id, j: Id): (r': Adj)
    requires i < j < |r|
    ensures |r'| == |r|
  {
    if rule.joins(i, j) then AddEdge(r, RuleEdge(rule, i, j)) else r
  }

  /** One step of the inner scan: the pair (i, j) is added exactly when the rule joins it. */
  lemma ScanStep(rule: PairRule, adj: Adj, i: Id, j: Id)
    requires i < j < |adj|
    ensures |RowMaps(rule, adj, i, j)| == |adj|
    ensures PairStep(rule, RowMaps(rule, adj, i, j), i, j) == RowMaps(rule, adj, i, j + 1)
  {
    var es := PairEdges(rule, |adj|, i) + RowEdges(rule, i, j);
    ScanInRange(rule, |adj|, i, j);
    ScanInRange(rule, |adj|, i, j + 1);
    if rule.joins(i, j) {
      assert PairEdges(rule, |adj|, i) + RowEdges(rule, i, j + 1) == es + [RuleEdge(rule, i, j)];
      AddEdgesSnoc(adj, es, RuleEdge(rule, i, j));
    }
  }

  /** The rest of row `i` of the scan, from column `j` on, pair by pair. */
  function RowRest(rule: PairRule, r: Adj, i: Id, j: Id): (r': Adj)
    requires i < j <= |r|
    ensures |r'| == |r|
    decreases |r| - j
  {
    if j == |r| then r else RowRest(rule, PairStep(rule, r, i, j), i, j + 1)
  }

  /** The rest of row `i` from column `j` is the pair (i, j) followed by the rest from `j + 1`. */
  lemma RowRestStep(rule: PairRule, r: Adj, i: Id, j: Id)
    requires i < j < |r|
    ensures RowRest(rule, r, i, j) == RowRest(rule, PairStep(rule, r, i, j), i, j + 1)
  {
  }

  /** Scanning the rest of row `i` pair by pair adds exactly the row's remaining rule edges. */
  lemma {:induction false} RowRestMaps(rule: PairRule, adj: Adj, i: Id, j: Id)
    requires i < j <= |adj|
    ensures |RowMaps(rule, adj, i, j)| == |adj|
    ensures RowRest(rule, RowMaps(rule, adj, i, j), i, j) == RowMaps(rule, adj, i, |adj|)
    decreases |adj| - j
  {
    if j < |adj| {
      ScanStep(rule, adj, i, j);
      RowRestMaps(rule, adj, i, j + 1);
      RowRestStep(rule, RowMaps(rule, adj, i, j), i, j);
    }
  }

  /** Row `i` of the scan, pair by pair, turns the maps of the rows below `i` into those of the rows up to `i`. */
  lemma RowScan(rule: PairRule, adj: Adj, i: Id)
    requires i < |adj|
    ensures |ScanMaps(rule, adj, i)| == |adj|
    ensures RowRest(rule, ScanMaps(rule, adj, i), i, i + 1) == ScanMaps(rule, adj, i + 1)
  {
    RowStart(rule, adj, i);
    RowRestMaps(rule, adj, i, i + 1);
  }

  /** The rows of the scan from row `i` on, each scanned pair by pair. */
  function RowsRest(rule: PairRule, r: Adj, i: nat): Adj
    requires i <= |r|
    decreases |r| - i
  {
    if i == |r| then r else RowsRest(rule, RowRest(rule, r, i, i + 1), i + 1)
  }

  /** The scan from row `i` on is row `i` followed by the scan from row `i + 1` on. */
  lemma RowsRestStep(rule: PairRule, r: Adj, i: nat)
    requires i < |r|
    ensures RowsRest(rule, r, i) == RowsRest(rule, RowRest(rule, r, i, i + 1), i + 1)
  {
  }

  /** Scanning the rows from `i` on turns the maps of the rows below `i` into those of all rows. */
  lemma {:induction false} RowsRestMaps(rule: PairRule, adj: Adj, i: nat)
    requires i <= |adj|
    ensures |ScanMaps(rule, adj, i)| == |adj|
    ensures RowsRest(rule, ScanMaps(rule, adj, i), i) == ScanMaps(rule, adj, |adj|)
    decreases |adj| - i
  {
    if i < |adj| {
      RowScan(rule, adj, i);
      RowsRestMaps(rule, adj, i + 1);
      RowsRestStep(rule, ScanMaps(rule, adj, i), i);
    }
  }

  /** Before the first row nothing has been added. */
  lemma ScanStartsEmpty(rule: PairRule, adj: Adj)
    ensures ScanMaps(rule, adj, 0) == adj
  {
    assert PairEdges(rule, |adj|, 0) == [];
  }
}
