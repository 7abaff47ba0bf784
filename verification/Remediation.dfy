/** Dependency-aware remediation order: Kahn's algorithm on the requested part of the table. The loops
    are proved against functions that say what each of them computes; what the order promises is in
    module RemediationLaws. */
module Remediation {
  import opened Sequences
  import opened ServiceGraph

  type Degrees = map<Service, int>
  type Adjacency = map<Service, seq<Service>>

  datatype Graph = Graph(degree: Degrees, adj: Adjacency)

  function Elements(s: seq<Service>): set<Service> {
    set x | x in s
  }

  // ---------- the graph over the requested known services ----------

  function IsKnown(table: Table): Service -> bool {
    (s: Service) => Known(table, s)
  }

  function IsUnknown(table: Table): Service -> bool {
    (s: Service) => !Known(table, s)
  }

  function KnownOf(table: Table, services: seq<Service>): seq<Service> {
    Select(services, IsKnown(table))
  }

  function UnknownOf(table: Table, services: seq<Service>): seq<Service> {
    Select(services, IsUnknown(table))
  }

  function EmptyGraph(inGraph: seq<Service>): Graph {
    Graph(map s | s in inGraph :: 0, map s | s in inGraph :: [])
  }

  /** One dependency of `s`, if it is requested. */
  function EnterDependency(g: Graph, s: Service, dep: Service): Graph
    requires s in g.degree && g.degree.Keys == g.adj.Keys
  {
    if dep in g.degree then Graph(g.degree[s := g.degree[s] + 1], g.adj[dep := g.adj[dep] + [s]]) else g
  }

  function EnterDependencies(g: Graph, s: Service, deps: seq<Service>): (r: Graph)
    requires s in g.degree && g.degree.Keys == g.adj.Keys
    ensures r.degree.Keys == r.adj.Keys == g.degree.Keys
  {
    if deps == [] then g else EnterDependency(EnterDependencies(g, s, deps[..|deps| - 1]), s, deps[|deps| - 1])
  }

  /** Enters services one occurrence at a time. */
  function EnterAll(table: Table, g: Graph, services: seq<Service>): (r: Graph)
    requires g.degree.Keys == g.adj.Keys && forall s :: s in services ==> s in g.degree
    ensures r.degree.Keys == r.adj.Keys == g.degree.Keys
  {
    if services == [] then g else
      var init, last := services[..|services| - 1], services[|services| - 1];
      assert last in services && forall s :: s in init ==> s in services;
      EnterDependencies(EnterAll(table, g, init), last, Dependencies(table, last))
  }

  function GraphOf(table: Table, inGraph: seq<Service>): (r: Graph)
    ensures r.degree.Keys == r.adj.Keys == Elements(inGraph)
  {
    EnterAll(table, EmptyGraph(inGraph), inGraph)
  }

  // ---------- popping ----------

  datatype Scan = Scan(degree: Degrees, queue: seq<Service>)

  /** One dependent of a popped service: it joins the queue when its degree reaches zero. */
  function Visit(sc: Scan, x: Service): Scan {
    if x !in sc.degree then sc else
      var degree := sc.degree[x := sc.degree[x] - 1];
      Scan(degree, if degree[x] == 0 then sc.queue + [x] else sc.queue)
  }

  ghost function Positive(degree: Degrees): set<Service> {
    set s | s in degree && degree[s] > 0
  }

  lemma VisitLowers(sc: Scan, x: Service)
    ensures var sc' := Visit(sc, x);
            |sc'.queue| + |Positive(sc'.degree)| <= |sc.queue| + |Positive(sc.degree)|
  {
    var sc' := Visit(sc, x);
    if x in sc.degree && sc.degree[x] == 1 {
      assert Positive(sc.degree) == Positive(sc'.degree) + {x};
    } else {
      assert Positive(sc.degree) == Positive(sc'.degree);
    }
  }

  function VisitAll(sc: Scan, dependents: seq<Service>): (r: Scan)
    ensures r.degree.Keys == sc.degree.Keys
    ensures |r.queue| + |Positive(r.degree)| <= |sc.queue| + |Positive(sc.degree)|
  {
    if dependents == [] then sc else
      var init := VisitAll(sc, dependents[..|dependents| - 1]);
      VisitLowers(init, dependents[|dependents| - 1]);
      Visit(init, dependents[|dependents| - 1])
  }

  function Listed(adj: Adjacency, s: Service): seq<Service> {
    if s in adj then adj[s] else []
  }

  /** Pops until the queue is empty. */
  function Drain(adj: Adjacency, sc: Scan, result: seq<Service>): seq<Service>
    decreases |sc.queue| + |Positive(sc.degree)|
  {
    if sc.queue == [] then result else
      var node := sc.queue[0];
      Drain(adj, VisitAll(Scan(sc.degree, sc.queue[1..]), Listed(adj, node)), result + [node])
  }

  function IsFree(degree: Degrees): Service -> bool {
    (s: Service) => s in degree && degree[s] == 0
  }

  function NotIn(popped: seq<Service>): Service -> bool {
    (s: Service) => s !in popped
  }

  function Free(inGraph: seq<Service>, degree: Degrees): seq<Service> {
    Select(inGraph, IsFree(degree))
  }

  /** The services in the order in which the queue gives them up. */
  function Popped(table: Table, services: seq<Service>): seq<Service> {
    var inGraph := KnownOf(table, services);
    var g := GraphOf(table, inGraph);
    Drain(g.adj, Scan(g.degree, Free(inGraph, g.degree)), [])
  }

  /** The requested known services that were never popped. */
  function HeldBack(table: Table, services: seq<Service>): seq<Service> {
    Select(KnownOf(table, services), NotIn(Popped(table, services)))
  }

  function Order(table: Table, services: seq<Service>): seq<Service> {
    Popped(table, services) + HeldBack(table, services) + UnknownOf(table, services)
  }

  // ---------- the loops ----------

  /** Every service listed anywhere has a degree. */
  ghost predicate Closed(degree: Degrees, adj: Adjacency) {
    degree.Keys == adj.Keys && forall d, k :: d in adj && 0 <= k < |adj[d]| ==> adj[d][k] in degree
  }

  method BuildGraph(table: Table, inGraph: seq<Service>) returns (degree: Degrees, adj: Adjacency)
    ensures Graph(degree, adj) == GraphOf(table, inGraph) && Closed(degree, adj)
  {
    hide EnterDependencies, EnterAll;
    degree := map s | s in inGraph :: 0;
    adj := map s | s in inGraph :: [];
    EnterNone(table, Graph(degree, adj));
    for i := 0 to |inGraph|
      invariant Closed(degree, adj) && degree.Keys == Elements(inGraph)
      invariant Graph(degree, adj) == EnterAll(table, EmptyGraph(inGraph), inGraph[..i])
    {
      EnterNext(table, EmptyGraph(inGraph), inGraph, i);
      assert inGraph[i] in Elements(inGraph);
      degree, adj := EnterService(table, inGraph[i], degree, adj);
    }
    assert inGraph[..|inGraph|] == inGraph;
  }

  lemma EnterNone(table: Table, g: Graph)
    requires g.degree.Keys == g.adj.Keys
    ensures EnterAll(table, g, []) == g
  {}

  lemma EnterNext(table: Table, g: Graph, services: seq<Service>, i: nat)
    requires g.degree.Keys == g.adj.Keys && i < |services| && forall s :: s in services ==> s in g.degree
    ensures EnterAll(table, g, services[..i + 1]) ==
            EnterDependencies(EnterAll(table, g, services[..i]), services[i], Dependencies(table, services[i]))
  {
    assert services[..i + 1][..i] == services[..i];
  }

  /** Enters one service: counts its requested dependencies and lists it under each. */
  method EnterService(table: Table, s: Service, degree0: Degrees, adj0: Adjacency)
    returns (degree: Degrees, adj: Adjacency)
    requires s in degree0 && Closed(degree0, adj0)
    ensures Graph(degree, adj) == EnterDependencies(Graph(degree0, adj0), s, Dependencies(table, s))
    ensures Closed(degree, adj) && degree.Keys == degree0.Keys
  {
    hide EnterDependencies, Closed;
    degree, adj := degree0, adj0;
    ghost var g := Graph(degree0, adj0);
    var deps := Dependencies(table, s);
    ClosedKeys(degree0, adj0);
    EnterNoDependency(g, s);
    for j := 0 to |deps|
      invariant Graph(degree, adj) == EnterDependencies(g, s, deps[..j])
      invariant Closed(degree, adj) && degree.Keys == adj.Keys == degree0.Keys
    {
      EnterNextDependency(g, s, deps, j);
      ClosedEntered(Graph(degree, adj), s, deps[j]);
      if deps[j] in degree {
        degree := degree[s := degree[s] + 1];
        adj := adj[deps[j] := adj[deps[j]] + [s]];
      }
    }
    assert deps[..|deps|] == deps;
  }

  lemma ClosedKeys(degree: Degrees, adj: Adjacency)
    requires Closed(degree, adj)
    ensures degree.Keys == adj.Keys
  {}

  lemma EnterNoDependency(g: Graph, s: Service)
    requires s in g.degree && g.degree.Keys == g.adj.Keys
    ensures EnterDependencies(g, s, []) == g
  {}

  lemma EnterNextDependency(g: Graph, s: Service, deps: seq<Service>, j: nat)
    requires s in g.degree && g.degree.Keys == g.adj.Keys && j < |deps|
    ensures EnterDependencies(g, s, deps[..j + 1]) == EnterDependency(EnterDependencies(g, s, deps[..j]), s, deps[j])
  {
    assert deps[..j + 1][..j] == deps[..j];
  }

  lemma ClosedEntered(g: Graph, s: Service, dep: Service)
    requires s in g.degree && Closed(g.degree, g.adj)
    ensures g.degree.Keys == g.adj.Keys
    ensures var r := EnterDependency(g, s, dep); Closed(r.degree, r.adj) && r.degree.Keys == g.degree.Keys
  {}

  /** Services ordered so that dependencies come first, then what a cycle holds back, then services the
      table does not know. Terminates on every request. */
  method RemediationOrder(table: Table, services: seq<Service>) returns (order: seq<Service>)
    ensures order == Order(table, services)
  {
    hide KnownOf, UnknownOf, GraphOf, Drain, VisitAll, Closed;
    var inGraph, unknown := KnownOf(table, services), UnknownOf(table, services);
    var degree, adj := BuildGraph(table, inGraph);
    var queue, result := Free(inGraph, degree), [];
    QueueStart(inGraph, degree);
    ghost var goal := Drain(adj, Scan(degree, queue), result);
    while queue != []
      invariant Closed(degree, adj) && (forall x :: x in queue ==> x in degree)
      invariant Drain(adj, Scan(degree, queue), result) == goal
      decreases |queue| + |Positive(degree)|
    {
      DrainNext(adj, Scan(degree, queue), result);
      var node := queue[0];
      ClosedListed(degree, adj, node);
      degree, queue := VisitDependents(degree, queue[1..], adj[node]);
      ClosedKept(degree, adj);
      result := result + [node];
    }
    DrainEnd(adj, degree, result);
    order := result + Select(inGraph, NotIn(result)) + unknown;
  }

  lemma QueueStart(inGraph: seq<Service>, degree: Degrees)
    ensures forall x :: x in Free(inGraph, degree) ==> x in degree
  {
    forall x | x in Free(inGraph, degree) ensures x in degree {
      SelectMembers(inGraph, IsFree(degree), x);
    }
  }

  lemma DrainNext(adj: Adjacency, sc: Scan, result: seq<Service>)
    requires sc.queue != []
    ensures var node := sc.queue[0];
            var sc' := VisitAll(Scan(sc.degree, sc.queue[1..]), Listed(adj, node));
            && Drain(adj, sc, result) == Drain(adj, sc', result + [node])
            && |sc'.queue| + |Positive(sc'.degree)| < |sc.queue| + |Positive(sc.degree)|
  {}

  lemma DrainEnd(adj: Adjacency, degree: Degrees, result: seq<Service>)
    ensures Drain(adj, Scan(degree, []), result) == result
  {}

  lemma ClosedListed(degree: Degrees, adj: Adjacency, node: Service)
    requires Closed(degree, adj) && node in degree
    ensures node in adj && adj[node] == Listed(adj, node) && forall x :: x in adj[node] ==> x in degree
  {}

  lemma ClosedKept(degree: Degrees, adj: Adjacency)
    ensures forall old_: Degrees :: Closed(old_, adj) && old_.Keys == degree.Keys ==> Closed(degree, adj)
  {}

  method VisitDependents(degree0: Degrees, queue0: seq<Service>, dependents: seq<Service>)
    returns (degree: Degrees, queue: seq<Service>)
    requires forall x :: x in dependents ==> x in degree0
    requires forall x :: x in queue0 ==> x in degree0
    ensures Scan(degree, queue) == VisitAll(Scan(degree0, queue0), dependents)
    ensures degree.Keys == degree0.Keys && forall x :: x in queue ==> x in degree
  {
    degree, queue := degree0, queue0;
    for k := 0 to |dependents|
      invariant Scan(degree, queue) == VisitAll(Scan(degree0, queue0), dependents[..k])
      invariant degree.Keys == degree0.Keys && forall x :: x in queue ==> x in degree
    {
      assert dependents[..k + 1][..k] == dependents[..k];
      var x := dependents[k];
      degree := degree[x := degree[x] - 1];
      if degree[x] == 0 {
        queue := queue + [x];
      }
    }
    assert dependents[..|dependents|] == dependents;
  }
}
