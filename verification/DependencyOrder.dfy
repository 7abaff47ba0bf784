/** When the remediation order puts dependencies first, when a cycle holds services back, and what a
    repeated request does to both. */
module DependencyOrder {
  import opened Remediation
  import opened RemediationLaws
  import opened Sequences
  import opened ServiceGraph

  /** Every popped service comes after all its requested direct dependencies. */
  ghost predicate DependenciesFirst(table: Table, graph: set<Service>, popped: seq<Service>) {
    forall i, d :: 0 <= i < |popped| && d in graph && DependsOn(table, popped[i], d) ==> d in popped[..i]
  }

  ghost predicate Satisfied(table: Table, graph: set<Service>, x: Service, popped: seq<Service>) {
    forall d :: d in graph && DependsOn(table, x, d) ==> d in popped
  }

  /** No service without requested dependencies is both requested twice and needed by another. */
  ghost predicate SourcesOnce(table: Table, inGraph: seq<Service>) {
    forall s, x :: s in inGraph && x in inGraph && DependsOn(table, x, s) && Asked(inGraph, s) > 1 ==>
      HasRequested(table, Elements(inGraph), s)
  }

  /** Whatever is needed was popped once. */
  ghost predicate NeededOnce(table: Table, graph: set<Service>, popped: seq<Service>) {
    forall d, x :: d in popped && x in graph && Needs(table, x, d) > 0 ==> multiset(popped)[d] == 1
  }

  lemma {:induction false} MetExactly(table: Table, s: Service, popped: seq<Service>)
    requires forall d :: d in popped && Needs(table, s, d) > 0 ==> multiset(popped)[d] == 1
    ensures Met(table, s, popped) == CountIn(Dependencies(table, s), Elements(popped))
  {
    hide Needs;
    if popped == [] {
      assert Elements(popped) == {};
      CountZero(Dependencies(table, s), {});
    } else {
      var init, last := popped[..|popped| - 1], popped[|popped| - 1];
      assert popped == init + [last] && Elements(popped) == Elements(init) + {last};
      forall d | d in init && Needs(table, s, d) > 0 ensures multiset(init)[d] == 1 {
        assert d in popped && multiset(init)[d] > 0;
      }
      MetExactly(table, s, init);
      CountAdd(Dependencies(table, s), Elements(init), last);
      NeedsIs(table, s, last);
      assert last in init ==> multiset(init)[last] > 0;
    }
  }

  lemma NeedsIs(table: Table, s: Service, d: Service)
    ensures Needs(table, s, d) == multiset(Dependencies(table, s))[d]
    ensures Needs(table, s, d) > 0 <==> DependsOn(table, s, d)
  {}

  /** Once the whole demand is met, every dependency was popped. */
  lemma DemandMet(table: Table, graph: set<Service>, s: Service, popped: seq<Service>)
    requires s in graph && NeededOnce(table, graph, popped) && Elements(popped) <= graph
    requires Demand(table, graph, s) <= Met(table, s, popped)
    ensures Satisfied(table, graph, s, popped)
  {
    MetExactly(table, s, popped);
    CountSplit(Dependencies(table, s), graph, Elements(popped));
    CountZero(Dependencies(table, s), graph - Elements(popped));
  }

  // ---------- what popping keeps ----------

  lemma PoppedOnce(table: Table, inGraph: seq<Service>, adj: Adjacency, sc: Scan, popped: seq<Service>,
                   part: seq<Service>)
    requires Popping(table, inGraph, adj, sc, popped) && SourcesOnce(table, inGraph)
    requires part <= popped + sc.queue
    ensures NeededOnce(table, Elements(inGraph), part) && Elements(part) <= Elements(inGraph)
  {
    var all := popped + sc.queue;
    assert all == part + all[|part|..];
    forall d | d in part ensures d in inGraph && (Demand(table, Elements(inGraph), d) > 0 ==> multiset(part)[d] == 1)
                                 && 1 <= multiset(part)[d] <= multiset(all)[d] {
      assert multiset(all)[d] == Queued(table, inGraph, sc.degree, d);
    }
    forall d, x | d in part && x in Elements(inGraph) && Needs(table, x, d) > 0 ensures multiset(part)[d] == 1 {
      NeedsIs(table, x, d);
      DemandIffRequested(table, Elements(inGraph), d);
      assert multiset(all)[d] == Queued(table, inGraph, sc.degree, d);
    }
  }

  /** A dependent that joins the queue has all its dependencies popped. */
  lemma JoinsSatisfied(table: Table, inGraph: seq<Service>, popped: seq<Service>, node: Service, sc: Scan,
                       done: seq<Service>, x: Service)
    requires sc.degree.Keys == Elements(inGraph) && x in sc.degree
    requires DegreesOk(table, inGraph, sc.degree, popped, done)
    requires multiset(done + [x])[x] <= Times(Asked(inGraph, x), Needs(table, x, node))
    requires NeededOnce(table, Elements(inGraph), popped + [node]) && Elements(popped + [node]) <= Elements(inGraph)
    requires sc.degree[x] == 1
    ensures Satisfied(table, Elements(inGraph), x, popped + [node])
  {
    var graph := Elements(inGraph);
    assert Asked(inGraph, x) > 0;
    assert multiset(done + [x])[x] == multiset(done)[x] + 1;
    hide Demand, Needs, Met, Times, Asked, Satisfied, NeededOnce, Elements;
    LastVisit(Asked(inGraph, x), Demand(table, graph, x) - Met(table, x, popped), Needs(table, x, node),
              multiset(done)[x]);
    MetSnoc(table, x, popped, node);
    DemandMet(table, graph, x, popped + [node]);
  }

  /** If the last visit brings the degree to zero, the need for the node covers what was open. */
  lemma LastVisit(asked: nat, open: int, need: nat, done: nat)
    requires asked > 0 && Times(asked, open) - done == 1 && done + 1 <= Times(asked, need)
    ensures open <= need
  {
    hide Times;
    TimesLess(asked, open, need);
    TimesSign(asked, open - need);
  }

  lemma {:induction false} VisitAllSatisfied(table: Table, inGraph: seq<Service>, popped: seq<Service>, node: Service,
                                             sc: Scan, dependents: seq<Service>)
    requires sc.degree.Keys == Elements(inGraph)
    requires DegreesOk(table, inGraph, sc.degree, popped, [])
    requires QueuedOk(table, inGraph, sc.degree, popped + [node] + sc.queue)
    requires forall x :: x in dependents ==> x in sc.degree && Demand(table, sc.degree.Keys, x) > 0
    requires forall x :: multiset(dependents)[x] <= Times(Asked(inGraph, x), Needs(table, x, node))
    requires NeededOnce(table, Elements(inGraph), popped + [node]) && Elements(popped + [node]) <= Elements(inGraph)
    ensures forall x :: x in VisitAll(sc, dependents).queue ==>
              x in sc.queue || Satisfied(table, Elements(inGraph), x, popped + [node])
  {
    hide DegreesOk, QueuedOk, Demand, Satisfied, NeededOnce, Elements, Times, Asked, Needs;
    if dependents != [] {
      var init, x := dependents[..|dependents| - 1], dependents[|dependents| - 1];
      assert dependents == init + [x];
      VisitAllSatisfied(table, inGraph, popped, node, sc, init);
      VisitAllWithNode(table, inGraph, popped, node, sc, init);
      var mid := VisitAll(sc, init);
      if mid.degree[x] == 1 {
        JoinsSatisfied(table, inGraph, popped, node, mid, init, x);
      }
    }
  }

  /** Everything waiting in the queue has its dependencies popped. */
  ghost predicate Ready(table: Table, graph: set<Service>, queue: seq<Service>, popped: seq<Service>) {
    DependenciesFirst(table, graph, popped) && forall x :: x in queue ==> Satisfied(table, graph, x, popped)
  }

  lemma ReadyPop(table: Table, graph: set<Service>, queue: seq<Service>, popped: seq<Service>)
    requires queue != [] && Ready(table, graph, queue, popped)
    ensures Ready(table, graph, queue[1..], popped + [queue[0]])
  {
    var more := popped + [queue[0]];
    assert queue[0] in queue;
    forall i, d | 0 <= i < |more| && d in graph && DependsOn(table, more[i], d) ensures d in more[..i] {
      if i < |popped| {
        assert more[..i] == popped[..i] && d in popped[..i];
      } else {
        assert more[..i] == popped;
      }
    }
    forall x | x in queue[1..] ensures Satisfied(table, graph, x, more) {
      assert x in queue && Satisfied(table, graph, x, popped);
    }
  }

  lemma PopReady(table: Table, inGraph: seq<Service>, adj: Adjacency, sc: Scan, popped: seq<Service>)
    requires Popping(table, inGraph, adj, sc, popped) && SourcesOnce(table, inGraph) && sc.queue != []
    requires Ready(table, Elements(inGraph), sc.queue, popped)
    ensures var node := sc.queue[0];
            Ready(table, Elements(inGraph), VisitAll(Scan(sc.degree, sc.queue[1..]), Listed(adj, node)).queue,
                  popped + [node])
  {
    var node, rest := sc.queue[0], Scan(sc.degree, sc.queue[1..]);
    assert popped + sc.queue == popped + [node] + rest.queue;
    PoppedOnce(table, inGraph, adj, sc, popped, popped + [node]);
    assert node in popped + sc.queue;
    NodeIsGraph(table, inGraph, sc.degree, popped + sc.queue, node);
    DependentsDemand(table, inGraph, adj, sc.degree, node);
    ListedCounts(table, inGraph, adj, node);
    ReadyPop(table, Elements(inGraph), sc.queue, popped);
    hide DegreesOk, QueuedOk, Demand, Satisfied, NeededOnce, Elements, Times, Asked, Needs, VisitAll,
      DependenciesFirst, Listed;
    VisitAllSatisfied(table, inGraph, popped, node, rest, Listed(adj, node));
  }

  lemma ListedCounts(table: Table, inGraph: seq<Service>, adj: Adjacency, node: Service)
    requires node in adj
    requires forall d, s :: d in adj ==> Occurrences(adj, d, s) == Times(Asked(inGraph, s), Needs(table, s, d))
    ensures forall x :: multiset(Listed(adj, node))[x] <= Times(Asked(inGraph, x), Needs(table, x, node))
  {
    hide Times, Asked, Needs;
    forall x ensures multiset(Listed(adj, node))[x] <= Times(Asked(inGraph, x), Needs(table, x, node)) {
      assert Occurrences(adj, node, x) == Times(Asked(inGraph, x), Needs(table, x, node));
    }
  }

  lemma {:induction false} DrainReady(table: Table, inGraph: seq<Service>, adj: Adjacency, sc: Scan,
                                      popped: seq<Service>)
    requires Popping(table, inGraph, adj, sc, popped) && SourcesOnce(table, inGraph)
    requires Ready(table, Elements(inGraph), sc.queue, popped)
    ensures DependenciesFirst(table, Elements(inGraph), Drain(adj, sc, popped))
    decreases |sc.queue| + |Positive(sc.degree)|
  {
    if sc.queue != [] {
      hide Popping, SourcesOnce, Ready, VisitAll, DependenciesFirst;
      PopKeeps(table, inGraph, adj, sc, popped);
      PopReady(table, inGraph, adj, sc, popped);
      DrainNext(adj, sc, popped);
      var node := sc.queue[0];
      DrainReady(table, inGraph, adj, VisitAll(Scan(sc.degree, sc.queue[1..]), Listed(adj, node)), popped + [node]);
    }
  }

  lemma StartReady(table: Table, inGraph: seq<Service>)
    ensures var g := GraphOf(table, inGraph); Ready(table, Elements(inGraph), Free(inGraph, g.degree), [])
  {
    var g, graph := GraphOf(table, inGraph), Elements(inGraph);
    GraphEntered(table, inGraph);
    hide GraphOf, Demand, Times, Needs;
    forall x | x in Free(inGraph, g.degree) ensures Satisfied(table, graph, x, []) {
      SelectMembers(inGraph, IsFree(g.degree), x);
      assert Asked(inGraph, x) > 0;
      TimesSign(Asked(inGraph, x), Demand(table, graph, x));
      DemandIffRequested(table, graph, x);
    }
  }

  /** Dependencies come first whenever no repeated service without requested dependencies has a requested
      dependent. */
  lemma DependenciesComeFirst(table: Table, services: seq<Service>)
    requires SourcesOnce(table, KnownOf(table, services))
    ensures DependenciesFirst(table, Requested(table, services), Popped(table, services))
  {
    hide SourcesOnce, Popping, Ready, Drain, GraphOf, DependenciesFirst, Elements, Free, KnownOf;
    var inGraph := KnownOf(table, services);
    var g := GraphOf(table, inGraph);
    StartPopping(table, inGraph);
    StartReady(table, inGraph);
    DrainReady(table, inGraph, g.adj, Scan(g.degree, Free(inGraph, g.degree)), []);
    RequestedIs(table, services);
  }

  lemma RequestedIs(table: Table, services: seq<Service>)
    ensures Requested(table, services) == Elements(KnownOf(table, services))
  {}

  // ---------- what is held back ----------

  /** Where a service is first popped. */
  ghost function First(popped: seq<Service>, x: Service): (i: nat)
    requires x in popped
    ensures i < |popped| && popped[i] == x && forall k :: 0 <= k < i ==> popped[k] != x
  {
    if popped[0] == x then 0 else
      assert popped == [popped[0]] + popped[1..];
      First(popped[1..], x) + 1
  }

  lemma FirstEarlier(table: Table, graph: set<Service>, popped: seq<Service>, x: Service, d: Service)
    requires DependenciesFirst(table, graph, popped) && x in popped && d in graph && DependsOn(table, x, d)
    ensures d in popped && First(popped, d) < First(popped, x)
  {
    var i := First(popped, x);
    assert d in popped[..i];
    var j :| 0 <= j < i && popped[j] == d;
  }

  /** Along a walk from a popped service everything is popped, ever earlier. */
  lemma {:induction false} WalkEarlier(table: Table, graph: set<Service>, popped: seq<Service>, w: seq<Service>,
                                       i: nat, j: nat)
    requires DependenciesFirst(table, graph, popped) && i <= j < |w| && w[i] in popped
    requires forall m :: 0 <= m < |w| ==> w[m] in graph
    requires forall m :: 0 <= m < |w| - 1 ==> DependsOn(table, w[m], w[m + 1])
    ensures w[j] in popped && First(popped, w[j]) + (j - i) <= First(popped, w[i])
    decreases j
  {
    hide DependenciesFirst, DependsOn, First;
    if i < j {
      WalkEarlier(table, graph, popped, w, i, j - 1);
      assert DependsOn(table, w[j - 1], w[j - 1 + 1]);
      FirstEarlier(table, graph, popped, w[j - 1], w[j]);
    }
  }

  lemma PoppedNotLooping(table: Table, graph: set<Service>, popped: seq<Service>, x: Service)
    requires DependenciesFirst(table, graph, popped) && x in popped
    ensures !Looping(table, graph, x)
  {
    forall w, i: nat, j: nat ensures !LoopsFrom(table, graph, x, w, i, j) {
      if i < j < |w| && w[0] == x && (forall k :: 0 <= k < |w| ==> w[k] in graph)
         && (forall k :: 0 <= k < |w| - 1 ==> DependsOn(table, w[k], w[k + 1])) {
        WalkEarlier(table, graph, popped, w, 0, i);
        WalkEarlier(table, graph, popped, w, i, j);
      }
    }
  }

  /** Then exactly the services on, or above, a cycle of requested services are held back. */
  lemma HeldBackLoops(table: Table, services: seq<Service>, s: Service)
    requires SourcesOnce(table, KnownOf(table, services)) && s in Requested(table, services)
    ensures s in HeldBack(table, services) <==> Looping(table, Requested(table, services), s)
  {
    hide SourcesOnce, Popped, Looping, DependenciesFirst;
    DependenciesComeFirst(table, services);
    SelectMembers(KnownOf(table, services), NotIn(Popped(table, services)), s);
    if s in Popped(table, services) {
      PoppedNotLooping(table, Requested(table, services), Popped(table, services), s);
    } else {
      UnpoppedLoops(table, services, s);
    }
  }

  /** Something is held back exactly when the requested services contain a cycle. */
  lemma HeldBackIffCycle(table: Table, services: seq<Service>)
    requires SourcesOnce(table, KnownOf(table, services))
    ensures HeldBack(table, services) != [] <==> exists w :: IsCycle(table, Requested(table, services), w)
  {
    var graph, held := Requested(table, services), HeldBack(table, services);
    if held != [] {
      assert held[0] in held;
      SelectMembers(KnownOf(table, services), NotIn(Popped(table, services)), held[0]);
      HeldBackLoops(table, services, held[0]);
      LoopingHasCycle(table, graph, held[0]);
    }
    if c :| IsCycle(table, graph, c) {
      assert LoopsFrom(table, graph, c[0], c, 0, |c| - 1);
      HeldBackLoops(table, services, c[0]);
    }
  }

  /** A request whose known services are distinct: a permutation of it, dependencies first, exactly what
      a cycle holds back at the end, before the unknown services in request order. */
  lemma DistinctOrder(table: Table, services: seq<Service>)
    requires NoRepeats(KnownOf(table, services))
    ensures multiset(Order(table, services)) == multiset(services)
    ensures DependenciesFirst(table, Requested(table, services), Popped(table, services))
    ensures forall s :: s in Requested(table, services) ==>
              (s in HeldBack(table, services) <==> Looping(table, Requested(table, services), s))
  {
    hide Order, Popped, Looping, HasRequested, DependenciesFirst, HeldBack;
    var inGraph := KnownOf(table, services);
    forall s ensures Asked(inGraph, s) <= 1 { NoRepeatsCounts(inGraph, s); }
    DependenciesComeFirst(table, services);
    forall s | s in Requested(table, services)
      ensures s in HeldBack(table, services) <==> Looping(table, Requested(table, services), s)
    {
      HeldBackLoops(table, services, s);
    }
    PoppedAreRequested(table, services);
    forall s | s in Popped(table, services) ensures multiset(services)[s] == 1 {
      assert s in Elements(Popped(table, services)) && s in Requested(table, services);
      assert s in inGraph && multiset(inGraph)[s] > 0 && Asked(inGraph, s) <= 1;
      SelectCounts(services, IsKnown(table), s);
      SelectMembers(services, IsKnown(table), s);
    }
    PermutationIff(table, services);
  }
}
