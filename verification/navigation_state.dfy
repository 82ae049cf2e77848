/**
 * NavigationState: a named location whose successors and edge costs are kept
 * in a hash map. The class does not override equals, so a state is
 * identified by the object itself; here by its index among the created
 * states (SuccessorGraph.Id).
 */
module Navigation {
  import opened Wrappers
  import opened SuccessorGraph

  datatype NavState = NavState(name: string, succMap: SuccMap)

  /** The constructor: the given name and no successors yet. */
  function New(name: string): (s: NavState)
    ensures s.name == name
    ensures forall t :: Lookup(s.succMap, t) == None
  {
    NavState(name, map[])
  }

  function GetName(s: NavState): string {
    s.name
  }

  /** toString prints the name. */
  function ToString(s: NavState): string {
    s.name
  }

  /**
   * addSuccessor: `succ` becomes a successor at `cost`, replacing any earlier
   * cost for it; the name and every other successor are untouched.
   */
  function AddSuccessor(s: NavState, succ: Id, cost: real): (r: NavState)
    ensures r.name == s.name
    ensures r.succMap.Keys == s.succMap.Keys + {succ}
    ensures Lookup(r.succMap, succ) == Some(cost)
    ensures forall t :: t != succ ==> Lookup(r.succMap, t) == Lookup(s.succMap, t)
  {
    s.(succMap := Put(s.succMap, succ, cost))
  }

  /** How getCost fails: the state is no successor, so the map gives null and unboxing it throws. */
  datatype CostError = NotASuccessor

  /** getCost: the cost recorded for a successor. */
  function GetCost(s: NavState, succ: Id): (r: Result<real, CostError>)
    ensures r.Ok? <==> succ in s.succMap
    ensures r.Ok? ==> Lookup(s.succMap, succ) == Some(r.value)
  {
    if succ in s.succMap then Ok(s.succMap[succ]) else Err(NotASuccessor)
  }

  /**
   * getSuccessors: a fresh list holding each successor exactly once. The
   * order is the hash map's iteration order, which the model leaves open.
   */
  method GetSuccessors(s: NavState) returns (list: seq<Id>)
    ensures forall t :: t in list <==> t in s.succMap
    ensures forall p, q :: 0 <= p < q < |list| ==> list[p] != list[q]
    ensures |list| == |s.succMap|
  {
    list := [];
    var rest := s.succMap.Keys;
    while rest != {}
      invariant rest <= s.succMap.Keys
      invariant forall t :: t in list <==> t in s.succMap.Keys - rest
      invariant forall p, q :: 0 <= p < q < |list| ==> list[p] != list[q]
      invariant |list| + |rest| == |s.succMap.Keys|
      decreases |rest|
    {
      var t :| t in rest;
      list := list + [t];
      rest := rest - {t};
    }
  }

  /** The cost read back after addSuccessor is the cost just added; other costs are as before. */
  lemma CostAfterAdd(s: NavState, succ: Id, cost: real, other: Id)
    requires other != succ
    ensures GetCost(AddSuccessor(s, succ, cost), succ) == Ok(cost)
    ensures GetCost(AddSuccessor(s, succ, cost), other) == GetCost(s, other)
  {
    assert Lookup(AddSuccessor(s, succ, cost).succMap, other) == Lookup(s.succMap, other);
  }

  /** Adding a successor that is already present keeps the successor count. */
  lemma ReAddKeepsSuccessors(s: NavState, succ: Id, cost: real)
    requires succ in s.succMap
    ensures AddSuccessor(s, succ, cost).succMap.Keys == s.succMap.Keys
    ensures |AddSuccessor(s, succ, cost).succMap| == |s.succMap|
  {
    assert AddSuccessor(s, succ, cost).succMap.Keys == s.succMap.Keys;
  }

  /** getName and toString give back the constructor's name, whatever successors were added. */
  lemma NameIsStable(name: string, succ: Id, cost: real)
    ensures GetName(New(name)) == name && ToString(New(name)) == name
    ensures GetName(AddSuccessor(New(name), succ, cost)) == name
  {
  }

  /** A state after a series of addSuccessor calls, made in order. */
  function AddAll(s: NavState, adds: seq<(Id, real)>): NavState
    decreases |adds|
  {
    if adds == [] then s else AddSuccessor(AddAll(s, adds[..|adds| - 1]), adds[|adds| - 1].0, adds[|adds| - 1].1)
  }

  /** Call `k` of `adds` is the last one that names `t`. */
  predicate LastAddOf(adds: seq<(Id, real)>, k: nat, t: Id) {
    k < |adds| && adds[k].0 == t && forall k' :: k < k' < |adds| ==> adds[k'].0 != t
  }

  /**
   * The successors of a new state after a series of addSuccessor calls are
   * exactly the states passed to it, each at the cost of the last call that
   * named it.
   */
  lemma {:induction false} SuccessorsAreAdded(name: string, adds: seq<(Id, real)>, t: Id)
    ensures t in AddAll(New(name), adds).succMap <==> exists k :: 0 <= k < |adds| && adds[k].0 == t
    ensures t in AddAll(New(name), adds).succMap ==>
      exists k: nat :: LastAddOf(adds, k, t) && AddAll(New(name), adds).succMap[t] == adds[k].1
    decreases |adds|
  {
    if adds != [] {
      var prev := adds[..|adds| - 1];
      var last := |adds| - 1;
      var m := AddAll(New(name), adds).succMap;
      SuccessorsAreAdded(name, prev, t);
      if adds[last].0 == t {
        assert LastAddOf(adds, last, t) && m[t] == adds[last].1;
      } else {
        assert Lookup(m, t) == Lookup(AddAll(New(name), prev).succMap, t);
        if t in m {
          var k: nat :| LastAddOf(prev, k, t) && AddAll(New(name), prev).succMap[t] == prev[k].1;
          assert LastAddOf(adds, k, t);
        }
        if exists k :: 0 <= k < |adds| && adds[k].0 == t {
          var k :| 0 <= k < |adds| && adds[k].0 == t;
          assert prev[k].0 == t;
        }
      }
    }
  }
}
