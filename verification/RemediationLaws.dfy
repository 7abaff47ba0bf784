/** What the remediation order promises, for requests with and without repeats: which services come out
    and how often, when dependencies come first, and when something is held back. */
module RemediationLaws {
  import opened Remediation
  import opened Sequences
  import opened ServiceGraph

  // ---------- counting ----------

  /** The number of entries of `deps` that are in `alive`, repeats counted. */
  ghost function CountIn(deps: seq<Service>, alive: set<Service>): nat {
    if deps == [] then 0
    else CountIn(deps[..|deps| - 1], alive) + (if deps[|deps| - 1] in alive then 1 else 0)
  }

  lemma {:induction false} CountAdd(deps: seq<Service>, alive: set<Service>, d: Service)
    ensures CountIn(deps, alive + {d}) == CountIn(deps, alive) + if d in alive then 0 else multiset(deps)[d]
  {
    if deps != [] {
      CountAdd(deps[..|deps| - 1], alive, d);
      assert deps == deps[..|deps| - 1] + [deps[|deps| - 1]];
    }
  }

  lemma {:induction false} CountZero(deps: seq<Service>, alive: set<Service>)
    ensures CountIn(deps, alive) == 0 <==> forall d :: d in deps ==> d !in alive
  {
    if deps != [] {
      CountZero(deps[..|deps| - 1], alive);
      assert deps == deps[..|deps| - 1] + [deps[|deps| - 1]];
    }
  }

  lemma {:induction false} CountSplit(deps: seq<Service>, all: set<Service>, part: set<Service>)
    requires part <= all
    ensures CountIn(deps, all) == CountIn(deps, part) + CountIn(deps, all - part)
  {
    if deps != [] {
      CountSplit(deps[..|deps| - 1], all, part);
    }
  }

  /** How often s depends on d. */
  ghost function Needs(table: Table, s: Service, d: Service): nat {
    multiset(Dependencies(table, s))[d]
  }

  /** How often s depends on requested services. */
  ghost function Demand(table: Table, graph: set<Service>, s: Service): nat {
    CountIn(Dependencies(table, s), graph)
  }

  /** How often s is requested. */
  ghost function Asked(inGraph: seq<Service>, s: Service): nat {
    multiset(inGraph)[s]
  }

  ghost predicate HasRequested(table: Table, graph: set<Service>, s: Service) {
    exists d :: d in graph && DependsOn(table, s, d)
  }

  lemma DemandIffRequested(table: Table, graph: set<Service>, s: Service)
    ensures Demand(table, graph, s) > 0 <==> HasRequested(table, graph, s)
  {
    CountZero(Dependencies(table, s), graph);
  }

  lemma DemandCovers(table: Table, graph: set<Service>, s: Service, d: Service)
    requires d in graph && Needs(table, s, d) > 0
    ensures Demand(table, graph, s) > 0
  {
    DemandIffRequested(table, graph, s);
    assert DependsOn(table, s, d);
  }

  /** What the popped services have taken off the demand of s. */
  ghost function Met(table: Table, s: Service, popped: seq<Service>): nat {
    if popped == [] then 0 else Met(table, s, popped[..|popped| - 1]) + Needs(table, s, popped[|popped| - 1])
  }

  lemma MetSnoc(table: Table, s: Service, popped: seq<Service>, d: Service)
    ensures Met(table, s, popped + [d]) == Met(table, s, popped) + Needs(table, s, d)
  {
    assert (popped + [d])[..|popped|] == popped;
  }

  function Times(n: nat, v: int): int {
    n * v
  }

  lemma TimesLess(n: nat, v: int, w: int)
    ensures Times(n, v - w) == Times(n, v) - Times(n, w) && Times(n + 1, v) == Times(n, v) + v && Times(0, v) == 0
  {}

  lemma TimesSign(n: nat, v: int)
    requires n > 0
    ensures Times(n, v) > 0 <==> v > 0
    ensures Times(n, v) < 0 <==> v < 0
  {}

  // ---------- the graph ----------

  ghost function Occurrences(adj: Adjacency, d: Service, s: Service): nat {
    multiset(Listed(adj, d))[s]
  }

  /** When the occurrences in `done` have been entered: every occurrence of a service raises its degree
      by its demand and lists it under each dependency as often as it needs it. */
  ghost predicate Entered(table: Table, done: seq<Service>, g: Graph) {
    && (forall s :: s in g.degree ==> g.degree[s] == Times(Asked(done, s), Demand(table, g.degree.Keys, s)))
    && (forall d, s :: d in g.adj ==> Occurrences(g.adj, d, s) == Times(Asked(done, s), Needs(table, s, d)))
  }

  /** Entering the first dependencies of one occurrence. */
  lemma {:induction false} DependenciesEntered(g: Graph, s: Service, deps: seq<Service>)
    requires s in g.degree && g.degree.Keys == g.adj.Keys
    ensures var r := EnterDependencies(g, s, deps);
            && r.degree == g.degree[s := g.degree[s] + CountIn(deps, g.degree.Keys)]
            && (forall d, x :: d in g.adj ==>
                  Occurrences(r.adj, d, x) == Occurrences(g.adj, d, x) + if x == s then multiset(deps)[d] else 0)
  {
    if deps != [] {
      var init, dep := deps[..|deps| - 1], deps[|deps| - 1];
      assert deps == init + [dep];
      DependenciesEntered(g, s, init);
      DependencyEntered(EnterDependencies(g, s, init), s, dep);
      hide EnterDependency, Occurrences;
    }
  }

  lemma DependencyEntered(g: Graph, s: Service, dep: Service)
    requires s in g.degree && g.degree.Keys == g.adj.Keys
    ensures var r := EnterDependency(g, s, dep);
            && r.degree == g.degree[s := g.degree[s] + if dep in g.degree then 1 else 0]
            && (forall d, x :: d in g.adj ==>
                  Occurrences(r.adj, d, x) == Occurrences(g.adj, d, x) + if d == dep && x == s then 1 else 0)
  {}

  lemma {:induction false} AllEntered(table: Table, g: Graph, services: seq<Service>)
    requires g.degree.Keys == g.adj.Keys && (forall s :: s in services ==> s in g.degree) && Entered(table, [], g)
    ensures Entered(table, services, EnterAll(table, g, services))
  {
    hide EnterDependencies, Needs, Demand, Occurrences, Dependencies;
    if services != [] {
      var init, last := services[..|services| - 1], services[|services| - 1];
      assert services == init + [last];
      AllEntered(table, g, init);
      OneEntered(table, EnterAll(table, g, init), init, last);
    }
  }

  lemma OneEntered(table: Table, g: Graph, init: seq<Service>, last: Service)
    requires g.degree.Keys == g.adj.Keys && last in g.degree && Entered(table, init, g)
    ensures Entered(table, init + [last], EnterDependencies(g, last, Dependencies(table, last)))
  {
    hide EnterDependencies, Occurrences, Demand, Needs, Times, Asked, Dependencies;
    var r := EnterDependencies(g, last, Dependencies(table, last));
    forall s | s in r.degree ensures r.degree[s] == Times(Asked(init + [last], s), Demand(table, r.degree.Keys, s)) {
      DegreeEntered(table, g, init, last, s);
    }
    forall d, s | d in r.adj ensures Occurrences(r.adj, d, s) == Times(Asked(init + [last], s), Needs(table, s, d)) {
      ListEntered(table, g, init, last, d, s);
    }
  }

  lemma DegreeEntered(table: Table, g: Graph, init: seq<Service>, last: Service, s: Service)
    requires g.degree.Keys == g.adj.Keys && last in g.degree && s in g.degree
    requires g.degree[s] == Times(Asked(init, s), Demand(table, g.degree.Keys, s))
    ensures EnterDependencies(g, last, Dependencies(table, last)).degree[s] ==
            Times(Asked(init + [last], s), Demand(table, g.degree.Keys, s))
  {
    hide EnterDependencies, Occurrences, Demand, Needs, Times, Asked, Dependencies;
    ServiceEntered(table, g, last);
    AskedTimes(init, last, s, Demand(table, g.degree.Keys, s));
  }

  lemma ListEntered(table: Table, g: Graph, init: seq<Service>, last: Service, d: Service, s: Service)
    requires g.degree.Keys == g.adj.Keys && last in g.degree && d in g.adj
    requires Occurrences(g.adj, d, s) == Times(Asked(init, s), Needs(table, s, d))
    ensures Occurrences(EnterDependencies(g, last, Dependencies(table, last)).adj, d, s) ==
            Times(Asked(init + [last], s), Needs(table, s, d))
  {
    hide EnterDependencies, Occurrences, Demand, Needs, Times, Asked, Dependencies;
    ServiceEntered(table, g, last);
    AskedTimes(init, last, s, Needs(table, s, d));
  }

  lemma ServiceEntered(table: Table, g: Graph, s: Service)
    requires s in g.degree && g.degree.Keys == g.adj.Keys
    ensures var r := EnterDependencies(g, s, Dependencies(table, s));
            && (forall x :: x in g.degree ==>
                  r.degree[x] == g.degree[x] + if x == s then Demand(table, g.degree.Keys, x) else 0)
            && (forall d, x :: d in g.adj ==>
                  Occurrences(r.adj, d, x) == Occurrences(g.adj, d, x) + if x == s then Needs(table, x, d) else 0)
  {
    DependenciesEntered(g, s, Dependencies(table, s));
    hide EnterDependencies, Occurrences, CountIn, Dependencies;
  }

  lemma AskedTimes(init: seq<Service>, last: Service, s: Service, v: int)
    ensures Times(Asked(init + [last], s), v) == Times(Asked(init, s), v) + if s == last then v else 0
  {
    AskedSnoc(init, last, s);
    TimesLess(Asked(init, s), v, 0);
    hide Asked, Times;
  }

  lemma AskedSnoc(init: seq<Service>, last: Service, s: Service)
    ensures Asked(init + [last], s) == Asked(init, s) + if s == last then 1 else 0
  {}

  lemma GraphEntered(table: Table, inGraph: seq<Service>)
    ensures Entered(table, inGraph, GraphOf(table, inGraph))
  {
    var g := EmptyGraph(inGraph);
    assert Entered(table, [], g) by {
      assert forall v :: Times(0, v) == 0;
    }
    AllEntered(table, g, inGraph);
  }

  // ---------- what popping keeps ----------

  /** A service's degree: its demand not yet met, once per request, less the visits in `done`. */
  ghost predicate DegreesOk(table: Table, inGraph: seq<Service>, degree: Degrees, popped: seq<Service>,
                            done: seq<Service>) {
    forall s :: s in degree ==>
      degree[s] == Times(Asked(inGraph, s), Demand(table, degree.Keys, s) - Met(table, s, popped)) - multiset(done)[s]
  }

  /** A service without requested dependencies was queued once per request; any other one once, when its
      degree came down to zero. */
  ghost predicate QueuedOk(table: Table, inGraph: seq<Service>, degree: Degrees, all: seq<Service>) {
    forall s :: multiset(all)[s] == Queued(table, inGraph, degree, s)
  }

  ghost function Queued(table: Table, inGraph: seq<Service>, degree: Degrees, s: Service): nat {
    if s !in degree then 0
    else if Demand(table, degree.Keys, s) == 0 then Asked(inGraph, s)
    else if degree[s] <= 0 then 1 else 0
  }

  /** Between pops. */
  ghost predicate Popping(table: Table, inGraph: seq<Service>, adj: Adjacency, sc: Scan, popped: seq<Service>) {
    && adj.Keys == sc.degree.Keys == Elements(inGraph)
    && (forall d, s :: d in adj ==> Occurrences(adj, d, s) == Times(Asked(inGraph, s), Needs(table, s, d)))
    && DegreesOk(table, inGraph, sc.degree, popped, [])
    && QueuedOk(table, inGraph, sc.degree, popped + sc.queue)
  }

  lemma StartPopping(table: Table, inGraph: seq<Service>)
    ensures var g := GraphOf(table, inGraph);
            Popping(table, inGraph, g.adj, Scan(g.degree, Free(inGraph, g.degree)), [])
  {
    hide Demand, Occurrences, Needs;
    var g := GraphOf(table, inGraph);
    GraphEntered(table, inGraph);
    hide GraphOf, Times;
    forall s | s in g.degree ensures Asked(inGraph, s) > 0 {}
    forall s ensures multiset(Free(inGraph, g.degree))[s] == Queued(table, inGraph, g.degree, s) {
      SelectCounts(inGraph, IsFree(g.degree), s);
      if s in g.degree { TimesSign(Asked(inGraph, s), Demand(table, g.degree.Keys, s)); }
    }
    assert [] + Free(inGraph, g.degree) == Free(inGraph, g.degree);
    forall s ensures Demand(table, g.degree.Keys, s) - Met(table, s, []) == Demand(table, g.degree.Keys, s) {}
  }

  /** One visited dependent. */
  lemma VisitKeeps(table: Table, inGraph: seq<Service>, popped: seq<Service>, sc: Scan, done: seq<Service>, x: Service)
    requires DegreesOk(table, inGraph, sc.degree, popped, done)
    requires QueuedOk(table, inGraph, sc.degree, popped + sc.queue)
    requires x in sc.degree && Demand(table, sc.degree.Keys, x) > 0
    ensures DegreesOk(table, inGraph, Visit(sc, x).degree, popped, done + [x])
    ensures QueuedOk(table, inGraph, Visit(sc, x).degree, popped + Visit(sc, x).queue)
    ensures Visit(sc, x).degree.Keys == sc.degree.Keys && sc.queue <= Visit(sc, x).queue
  {
    hide Demand, Met, Times, Asked;
    var sc' := Visit(sc, x);
    assert sc'.degree.Keys == sc.degree.Keys;
    assert popped + (sc.queue + [x]) == popped + sc.queue + [x];
  }

  lemma {:induction false} VisitAllKeeps(table: Table, inGraph: seq<Service>, popped: seq<Service>, sc: Scan,
                                         dependents: seq<Service>)
    requires DegreesOk(table, inGraph, sc.degree, popped, []) && QueuedOk(table, inGraph, sc.degree, popped + sc.queue)
    requires forall x :: x in dependents ==> x in sc.degree && Demand(table, sc.degree.Keys, x) > 0
    ensures var sc' := VisitAll(sc, dependents);
            && DegreesOk(table, inGraph, sc'.degree, popped, dependents)
            && QueuedOk(table, inGraph, sc'.degree, popped + sc'.queue) && sc'.degree.Keys == sc.degree.Keys
  {
    hide DegreesOk, QueuedOk, Demand, Visit;
    if dependents != [] {
      var init, last := dependents[..|dependents| - 1], dependents[|dependents| - 1];
      assert dependents == init + [last];
      VisitAllKeeps(table, inGraph, popped, sc, init);
      VisitKeeps(table, inGraph, popped, VisitAll(sc, init), init, last);
    }
  }

  /** Visiting all dependents of a popped service meets their need for it. */
  lemma PopKeeps(table: Table, inGraph: seq<Service>, adj: Adjacency, sc: Scan, popped: seq<Service>)
    requires Popping(table, inGraph, adj, sc, popped) && sc.queue != []
    ensures sc.queue[0] in sc.degree
    ensures var node := sc.queue[0];
            Popping(table, inGraph, adj, VisitAll(Scan(sc.degree, sc.queue[1..]), Listed(adj, node)), popped + [node])
  {
    var node, rest := sc.queue[0], Scan(sc.degree, sc.queue[1..]);
    var dependents, more := Listed(adj, node), popped + [node];
    assert popped + sc.queue == more + rest.queue;
    assert node in popped + sc.queue;
    NodeIsGraph(table, inGraph, sc.degree, popped + sc.queue, node);
    DependentsDemand(table, inGraph, adj, sc.degree, node);
    hide Demand, Times, Asked, Needs, VisitAll, Occurrences, DegreesOk, QueuedOk, Listed;
    VisitAllWithNode(table, inGraph, popped, node, rest, dependents);
    NodeMet(table, inGraph, adj, VisitAll(rest, dependents).degree, popped, node);
  }

  /** Visits that amount to the need for the node meet that need. */
  lemma NodeMet(table: Table, inGraph: seq<Service>, adj: Adjacency, degree: Degrees, popped: seq<Service>,
                node: Service)
    requires node in adj && DegreesOk(table, inGraph, degree, popped, Listed(adj, node))
    requires forall d, s :: d in adj ==> Occurrences(adj, d, s) == Times(Asked(inGraph, s), Needs(table, s, d))
    ensures DegreesOk(table, inGraph, degree, popped + [node], [])
  {
    hide Demand, Times, Asked, Needs, Met, Listed;
    var more := popped + [node];
    forall s | s in degree
      ensures degree[s] == Times(Asked(inGraph, s), Demand(table, degree.Keys, s) - Met(table, s, more))
    {
      MetSnoc(table, s, popped, node);
      TimesLess(Asked(inGraph, s), Demand(table, degree.Keys, s) - Met(table, s, popped), Needs(table, s, node));
      assert Occurrences(adj, node, s) == Times(Asked(inGraph, s), Needs(table, s, node));
    }
  }

  lemma NodeIsGraph(table: Table, inGraph: seq<Service>, degree: Degrees, all: seq<Service>, node: Service)
    requires QueuedOk(table, inGraph, degree, all) && node in all
    ensures node in degree
  {
    hide Demand;
    assert multiset(all)[node] > 0;
  }

  lemma DependentsDemand(table: Table, inGraph: seq<Service>, adj: Adjacency, degree: Degrees, node: Service)
    requires adj.Keys == degree.Keys == Elements(inGraph) && node in degree
    requires forall d, s :: d in adj ==> Occurrences(adj, d, s) == Times(Asked(inGraph, s), Needs(table, s, d))
    ensures forall x :: x in Listed(adj, node) ==> x in degree && Demand(table, degree.Keys, x) > 0
  {
    hide Demand, Needs;
    forall x | x in Listed(adj, node) ensures x in degree && Demand(table, degree.Keys, x) > 0 {
      assert x in multiset(Listed(adj, node));
      assert Times(Asked(inGraph, x), Needs(table, x, node)) > 0;
      PositiveFactors(Asked(inGraph, x), Needs(table, x, node));
      DemandCovers(table, degree.Keys, x, node);
    }
  }

  lemma PositiveFactors(n: nat, v: nat)
    requires Times(n, v) > 0
    ensures n > 0 && v > 0
  {}

  /** The same visits, told with the node still counted as queued before them. */
  lemma VisitAllWithNode(table: Table, inGraph: seq<Service>, popped: seq<Service>, node: Service, rest: Scan,
                         dependents: seq<Service>)
    requires DegreesOk(table, inGraph, rest.degree, popped, [])
    requires QueuedOk(table, inGraph, rest.degree, popped + [node] + rest.queue)
    requires forall x :: x in dependents ==> x in rest.degree && Demand(table, rest.degree.Keys, x) > 0
    ensures var sc' := VisitAll(rest, dependents);
            && DegreesOk(table, inGraph, sc'.degree, popped, dependents)
            && QueuedOk(table, inGraph, sc'.degree, popped + [node] + sc'.queue) && sc'.degree.Keys == rest.degree.Keys
  {
    hide VisitAll, DegreesOk, QueuedOk, Demand;
    var with := Scan(rest.degree, [node] + rest.queue);
    assert popped + [node] + rest.queue == popped + with.queue;
    VisitAllKeeps(table, inGraph, popped, with, dependents);
    QueueInFront(node, rest, dependents);
    var sc' := VisitAll(rest, dependents);
    assert popped + [node] + sc'.queue == popped + ([node] + sc'.queue);
  }

  lemma {:induction false} QueueInFront(node: Service, rest: Scan, dependents: seq<Service>)
    ensures VisitAll(Scan(rest.degree, [node] + rest.queue), dependents) ==
            Scan(VisitAll(rest, dependents).degree, [node] + VisitAll(rest, dependents).queue)
  {
    if dependents != [] {
      var init, x := dependents[..|dependents| - 1], dependents[|dependents| - 1];
      QueueInFront(node, rest, init);
      var sc := VisitAll(rest, init);
      assert [node] + sc.queue + [x] == [node] + (sc.queue + [x]);
    }
  }

  ghost predicate Drained(table: Table, inGraph: seq<Service>, degree: Degrees, popped: seq<Service>) {
    && degree.Keys == Elements(inGraph)
    && DegreesOk(table, inGraph, degree, popped, []) && QueuedOk(table, inGraph, degree, popped)
  }

  lemma {:induction false} DrainKeeps(table: Table, inGraph: seq<Service>, adj: Adjacency, sc: Scan,
                                      popped: seq<Service>)
    returns (degree: Degrees)
    requires Popping(table, inGraph, adj, sc, popped)
    ensures Drained(table, inGraph, degree, Drain(adj, sc, popped))
    decreases |sc.queue| + |Positive(sc.degree)|
  {
    if sc.queue == [] {
      degree := sc.degree;
      assert popped + sc.queue == popped;
    } else {
      hide Popping, Drained, VisitAll;
      PopKeeps(table, inGraph, adj, sc, popped);
      DrainNext(adj, sc, popped);
      var node := sc.queue[0];
      var next := VisitAll(Scan(sc.degree, sc.queue[1..]), Listed(adj, node));
      degree := DrainKeeps(table, inGraph, adj, next, popped + [node]);
    }
  }

  // ---------- which services come out, and how often ----------

  /** How often a requested known service is popped. */
  lemma PopCounts(table: Table, services: seq<Service>) returns (degree: Degrees)
    ensures Drained(table, KnownOf(table, services), degree, Popped(table, services))
  {
    hide Popping, Drained, Drain, GraphOf;
    var inGraph := KnownOf(table, services);
    StartPopping(table, inGraph);
    var g := GraphOf(table, inGraph);
    degree := DrainKeeps(table, inGraph, g.adj, Scan(g.degree, Free(inGraph, g.degree)), []);
  }

  ghost function Requested(table: Table, services: seq<Service>): set<Service> {
    Elements(KnownOf(table, services))
  }

  /** Services with requested dependencies are popped at most once, however often they are requested;
      the others once per request. */
  lemma PoppedMultiplicity(table: Table, services: seq<Service>, s: Service)
    ensures var graph, n := Requested(table, services), multiset(Popped(table, services))[s];
            && (s !in graph ==> n == 0)
            && (s in graph && !HasRequested(table, graph, s) ==> n == Asked(KnownOf(table, services), s) > 0)
            && (s in graph && HasRequested(table, graph, s) ==> n <= 1)
  {
    var degree := PopCounts(table, services);
    DemandIffRequested(table, Requested(table, services), s);
    hide Demand, Popped, KnownOf, HasRequested, DegreesOk;
    assert s in Requested(table, services) ==> s in multiset(KnownOf(table, services));
  }

  /** The order holds each service as often as it was requested, except that a popped service with
      requested dependencies is there once only. */
  lemma OrderMultiplicity(table: Table, services: seq<Service>, s: Service)
    ensures var graph := Requested(table, services);
            multiset(Order(table, services))[s] ==
            if s in Popped(table, services) && HasRequested(table, graph, s) then 1 else multiset(services)[s]
  {
    var popped, known, unknown := Popped(table, services), KnownOf(table, services), UnknownOf(table, services);
    PoppedMultiplicity(table, services, s);
    SelectCounts(services, IsKnown(table), s);
    SelectCounts(services, IsUnknown(table), s);
    SelectCounts(known, NotIn(popped), s);
    SelectMembers(services, IsKnown(table), s);
    hide Popped, Known, HasRequested;
    assert multiset(popped + HeldBack(table, services) + unknown) ==
           multiset(popped) + multiset(HeldBack(table, services)) + multiset(unknown);
    assert s in popped <==> multiset(popped)[s] > 0;
  }

  /** Nothing is lost or invented: the order lists exactly the requested services. */
  lemma OrderMembers(table: Table, services: seq<Service>, s: Service)
    ensures s in Order(table, services) <==> s in services
  {
    OrderMultiplicity(table, services, s);
    PoppedMultiplicity(table, services, s);
    SelectMembers(services, IsKnown(table), s);
    hide Order, Popped, HasRequested, Known;
    assert s in Order(table, services) <==> multiset(Order(table, services))[s] > 0;
    assert s in services <==> multiset(services)[s] > 0;
    assert s in Popped(table, services) <==> multiset(Popped(table, services))[s] > 0;
  }

  /** The order is a permutation of the request exactly when no popped service with a requested
      dependency was requested twice. */
  lemma PermutationIff(table: Table, services: seq<Service>)
    ensures multiset(Order(table, services)) == multiset(services) <==>
            forall s :: s in Popped(table, services) && HasRequested(table, Requested(table, services), s) ==>
              multiset(services)[s] == 1
  {
    hide Order, Popped, HasRequested, Requested;
    forall s ensures multiset(Order(table, services))[s] ==
                     if s in Popped(table, services) && HasRequested(table, Requested(table, services), s) then 1
                     else multiset(services)[s] {
      OrderMultiplicity(table, services, s);
    }
    if multiset(Order(table, services)) == multiset(services) {
      assert forall s :: multiset(Order(table, services))[s] == multiset(services)[s];
    }
  }

  // ---------- cycles ----------

  /** Consecutive requested dependencies, starting at x and coming back to a service already visited. */
  ghost predicate LoopsFrom(table: Table, graph: set<Service>, x: Service, w: seq<Service>, i: nat, j: nat) {
    && i < j < |w| && w[0] == x && w[i] == w[j]
    && (forall k :: 0 <= k < |w| ==> w[k] in graph)
    && (forall k :: 0 <= k < |w| - 1 ==> DependsOn(table, w[k], w[k + 1]))
  }

  /** The service is on, or depends on, a cycle of requested services. */
  ghost predicate Looping(table: Table, graph: set<Service>, x: Service) {
    exists w, i: nat, j: nat :: LoopsFrom(table, graph, x, w, i, j)
  }

  ghost predicate IsCycle(table: Table, graph: set<Service>, w: seq<Service>) {
    && IsWalk(table, w) && w[0] == w[|w| - 1]
    && forall k :: 0 <= k < |w| ==> w[k] in graph
  }

  ghost predicate HasNext(table: Table, left: set<Service>, s: Service) {
    exists d :: d in left && DependsOn(table, s, d)
  }

  /** From a set in which every service depends on another one, walks of any length. */
  lemma {:induction false} LongWalk(table: Table, left: set<Service>, x: Service, n: nat) returns (w: seq<Service>)
    requires x in left
    requires forall s :: s in left ==> HasNext(table, left, s)
    ensures |w| == n + 1 && w[0] == x
    ensures forall k :: 0 <= k < |w| ==> w[k] in left
    ensures forall k :: 0 <= k < |w| - 1 ==> DependsOn(table, w[k], w[k + 1])
  {
    hide HasNext, DependsOn;
    if n == 0 {
      w := [x];
    } else {
      var init := LongWalk(table, left, x, n - 1);
      var d := Next(table, left, init[n - 1]);
      w := init + [d];
      assert forall k :: 0 <= k < n ==> w[k] == init[k];
    }
  }

  lemma Next(table: Table, left: set<Service>, s: Service) returns (d: Service)
    requires HasNext(table, left, s)
    ensures d in left && DependsOn(table, s, d)
  {
    d :| d in left && DependsOn(table, s, d);
  }

  lemma LeftLooping(table: Table, graph: set<Service>, left: set<Service>, x: Service)
    requires left <= graph && x in left
    requires forall s :: s in left ==> HasNext(table, left, s)
    ensures Looping(table, graph, x)
  {
    hide HasNext, DependsOn;
    var w := LongWalk(table, left, x, |left|);
    var i, j := Repeat(w, left);
    assert LoopsFrom(table, graph, x, w, i, j);
  }

  /** A list longer than the set its entries come from repeats one. */
  lemma Repeat(w: seq<Service>, left: set<Service>) returns (i: nat, j: nat)
    requires |w| > |left| && forall k :: 0 <= k < |w| ==> w[k] in left
    ensures i < j < |w| && w[i] == w[j]
  {
    if NoRepeats(w) {
      NoRepeatsSize(w, left);
      assert false;
    } else {
      i, j :| i < j < |w| && w[i] == w[j];
    }
  }

  lemma LoopingHasCycle(table: Table, graph: set<Service>, x: Service)
    requires Looping(table, graph, x)
    ensures exists c :: IsCycle(table, graph, c)
  {
    var w, i: nat, j: nat :| LoopsFrom(table, graph, x, w, i, j);
    var c := w[i..j + 1];
    assert forall k :: 0 <= k < |c| ==> c[k] == w[i + k];
    assert IsCycle(table, graph, c);
  }

  /** Popped services have met at least the demand for the services among them. */
  lemma {:induction false} MetAtLeast(table: Table, s: Service, popped: seq<Service>)
    ensures Met(table, s, popped) >= CountIn(Dependencies(table, s), Elements(popped))
  {
    if popped == [] {
      assert Elements(popped) == {};
      CountZero(Dependencies(table, s), {});
    } else {
      var init, last := popped[..|popped| - 1], popped[|popped| - 1];
      MetAtLeast(table, s, init);
      CountAdd(Dependencies(table, s), Elements(init), last);
      assert Elements(popped) == Elements(init) + {last};
    }
  }

  lemma PoppedAreRequested(table: Table, services: seq<Service>)
    ensures Elements(Popped(table, services)) <= Requested(table, services)
  {
    hide Popped, Requested;
    forall s | s in Popped(table, services) ensures s in Requested(table, services) {
      PoppedMultiplicity(table, services, s);
      assert multiset(Popped(table, services))[s] > 0;
    }
  }

  /** What is never popped still waits for something else that is never popped. */
  lemma UnpoppedWaits(table: Table, services: seq<Service>, s: Service)
    requires s in Requested(table, services) && s !in Popped(table, services)
    ensures HasNext(table, Requested(table, services) - Elements(Popped(table, services)), s)
  {
    var inGraph, popped, graph := KnownOf(table, services), Popped(table, services), Requested(table, services);
    PoppedAreRequested(table, services);
    var degree := PopCounts(table, services);
    hide Popped, KnownOf;
    assert s in multiset(inGraph) && multiset(popped)[s] == 0;
    assert multiset(popped)[s] == Queued(table, inGraph, degree, s);
    assert multiset([])[s] == 0;
    TimesSign(Asked(inGraph, s), Demand(table, graph, s) - Met(table, s, popped));
    MetAtLeast(table, s, popped);
    CountSplit(Dependencies(table, s), graph, Elements(popped));
    CountZero(Dependencies(table, s), graph - Elements(popped));
  }

  lemma UnpoppedLoops(table: Table, services: seq<Service>, s: Service)
    requires s in Requested(table, services) && s !in Popped(table, services)
    ensures Looping(table, Requested(table, services), s)
  {
    hide Popped, Requested, HasNext, Looping;
    var left := Requested(table, services) - Elements(Popped(table, services));
    forall x | x in left ensures HasNext(table, left, x) { UnpoppedWaits(table, services, x); }
    LeftLooping(table, Requested(table, services), left, s);
  }

  /** Without a dependency cycle everything is popped, and the order is a permutation of the request
      exactly when no service with a requested dependency is requested twice. */
  lemma AcyclicPermutationIff(table: Table, services: seq<Service>)
    requires forall w :: !IsCycle(table, Requested(table, services), w)
    ensures HeldBack(table, services) == []
    ensures multiset(Order(table, services)) == multiset(services) <==>
            forall s :: multiset(services)[s] > 1 ==>
              !(s in Requested(table, services) && HasRequested(table, Requested(table, services), s))
  {
    var graph := Requested(table, services);
    forall s | s in KnownOf(table, services) ensures s in Popped(table, services) {
      if s !in Popped(table, services) {
        UnpoppedLoops(table, services, s);
        LoopingHasCycle(table, graph, s);
      }
    }
    SelectNone(KnownOf(table, services), NotIn(Popped(table, services)));
    PermutationIff(table, services);
    PoppedAreRequested(table, services);
    forall s | s in graph ensures multiset(services)[s] >= 1 {
      SelectMembers(services, IsKnown(table), s);
    }
    hide Popped, Order, IsCycle, HasRequested, KnownOf;
    assert forall s :: s in graph <==> s in Popped(table, services);
  }
}
