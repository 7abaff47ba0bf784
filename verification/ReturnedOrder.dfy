/** The remediation order as its caller sees it: what stands where in the returned list. */
module ReturnedOrder {
  import opened DependencyOrder
  import opened Remediation
  import opened RemediationLaws
  import opened Sequences
  import opened ServiceGraph

  /** A requested known service on or above a cycle of requested services. */
  ghost predicate Stuck(table: Table, services: seq<Service>, s: Service) {
    s in services && Known(table, s) && Looping(table, Requested(table, services), s)
  }

  ghost function IsStuck(table: Table, services: seq<Service>): Service -> bool {
    s => Stuck(table, services, s)
  }

  /** A known service that depends on nothing requested. */
  ghost predicate Source(table: Table, services: seq<Service>, s: Service) {
    Known(table, s) && forall d :: d in services && Known(table, d) ==> !DependsOn(table, s, d)
  }

  ghost function IsSource(table: Table, services: seq<Service>): Service -> bool {
    s => Source(table, services, s)
  }

  // ---------- the unknown services ----------

  lemma PoppedKnown(table: Table, services: seq<Service>, s: Service)
    requires s in Popped(table, services) || s in HeldBack(table, services)
    ensures s in services && Known(table, s)
  {
    PoppedAreRequested(table, services);
    SelectMembers(services, IsKnown(table), s);
    SelectMembers(KnownOf(table, services), NotIn(Popped(table, services)), s);
    hide Popped, Known;
    assert s in Popped(table, services) ==> s in Elements(Popped(table, services));
  }

  /** Services the table does not know come last, in request order and as often as requested. */
  lemma UnknownLast(table: Table, services: seq<Service>)
    ensures var order := Order(table, services);
            && Select(order, IsUnknown(table)) == Select(services, IsUnknown(table))
            && forall i, j :: 0 <= i < j < |order| && !Known(table, order[i]) ==> !Known(table, order[j])
  {
    hide Popped, Known, HeldBack;
    var front, unknown := Popped(table, services) + HeldBack(table, services), UnknownOf(table, services);
    forall s | s in front ensures Known(table, s) { PoppedKnown(table, services, s); }
    forall s | s in unknown ensures !Known(table, s) { SelectMembers(services, IsUnknown(table), s); }
    SelectJoin(front, unknown, IsUnknown(table));
    SelectNone(front, IsUnknown(table));
    SelectAll(unknown, IsUnknown(table));
    var order := Order(table, services);
    assert order == front + unknown;
    forall i | 0 <= i < |front| ensures Known(table, order[i]) { assert front[i] in front; }
    forall j | |front| <= j < |order| ensures !Known(table, order[j]) { assert order[j] == unknown[j - |front|]; }
  }

  // ---------- what a cycle holds back ----------

  /** Where the three parts of the order end. */
  lemma Parts(table: Table, services: seq<Service>, i: nat)
    requires i < |Order(table, services)|
    ensures var s, p, h := Order(table, services)[i], |Popped(table, services)|, |HeldBack(table, services)|;
            && s in services
            && (i < p <==> s in Popped(table, services))
            && (p <= i < p + h <==> s in HeldBack(table, services))
            && (i >= p + h <==> !Known(table, s))
  {
    hide Popped, HeldBack, Known, Order;
    OrderParts(table, services, i);
    var s := Order(table, services)[i];
    OrderMembers(table, services, s);
    Apart(table, services, s);
    assert s in Order(table, services);
  }

  lemma OrderParts(table: Table, services: seq<Service>, i: nat)
    requires i < |Order(table, services)|
    ensures var s, p, h := Order(table, services)[i], |Popped(table, services)|, |HeldBack(table, services)|;
            && (i < p ==> s in Popped(table, services) && s == Popped(table, services)[i])
            && (p <= i < p + h ==> s in HeldBack(table, services))
            && (i >= p + h ==> s in UnknownOf(table, services))
  {
    hide Popped, HeldBack, UnknownOf;
  }

  lemma Apart(table: Table, services: seq<Service>, s: Service)
    ensures s in Popped(table, services) ==> Known(table, s) && s !in HeldBack(table, services)
    ensures s in HeldBack(table, services) ==> Known(table, s)
    ensures s in UnknownOf(table, services) ==> !Known(table, s)
  {
    hide Popped, Known;
    if s in Popped(table, services) || s in HeldBack(table, services) { PoppedKnown(table, services, s); }
    SelectMembers(services, IsUnknown(table), s);
    SelectMembers(KnownOf(table, services), NotIn(Popped(table, services)), s);
  }

  lemma StuckIsHeldBack(table: Table, services: seq<Service>, s: Service)
    requires SourcesOnce(table, KnownOf(table, services))
    ensures Stuck(table, services, s) <==> s in HeldBack(table, services)
  {
    hide SourcesOnce, HeldBack, Looping, Known, Popped;
    SelectMembers(services, IsKnown(table), s);
    if s in HeldBack(table, services) { PoppedKnown(table, services, s); }
    if s in services && Known(table, s) { HeldBackLoops(table, services, s); }
  }

  /** In the returned list every known service that no cycle holds up comes after all its requested
      dependencies, unless a repeated service without requested dependencies has a requested dependent. */
  lemma DependenciesEarlier(table: Table, services: seq<Service>)
    requires SourcesOnce(table, KnownOf(table, services))
    ensures var order := Order(table, services);
            forall i, d ::
              0 <= i < |order| && Known(table, order[i]) && !Stuck(table, services, order[i])
              && d in services && Known(table, d) && DependsOn(table, order[i], d)
              ==> d in order[..i]
  {
    hide SourcesOnce, Known, DependsOn, Stuck, Order;
    var order := Order(table, services);
    forall i, d | 0 <= i < |order| && Known(table, order[i]) && !Stuck(table, services, order[i])
                  && d in services && Known(table, d) && DependsOn(table, order[i], d)
      ensures d in order[..i]
    {
      DependencyEarlier(table, services, i, d);
    }
  }

  lemma DependencyEarlier(table: Table, services: seq<Service>, i: nat, d: Service)
    requires SourcesOnce(table, KnownOf(table, services))
    requires var order := Order(table, services);
             && i < |order| && Known(table, order[i]) && !Stuck(table, services, order[i])
             && d in services && Known(table, d) && DependsOn(table, order[i], d)
    ensures d in Order(table, services)[..i]
  {
    DependenciesComeFirst(table, services);
    SelectMembers(services, IsKnown(table), d);
    hide SourcesOnce, Popped, HeldBack, Known, DependsOn, Stuck, Order, KnownOf;
    Parts(table, services, i);
    OrderParts(table, services, i);
    StuckIsHeldBack(table, services, Order(table, services)[i]);
    PoppedInFront(table, services, i);
    assert DependsOn(table, Popped(table, services)[i], d) && d in Requested(table, services);
  }

  lemma PoppedInFront(table: Table, services: seq<Service>, i: nat)
    requires i <= |Popped(table, services)|
    ensures i <= |Order(table, services)| && Order(table, services)[..i] == Popped(table, services)[..i]
  {
    hide Popped, HeldBack;
  }

  /** Then the known services on or above a cycle follow all the other known ones, in request order and as
      often as requested. */
  lemma StuckAfterOthers(table: Table, services: seq<Service>)
    requires SourcesOnce(table, KnownOf(table, services))
    ensures var order := Order(table, services);
            && Select(order, IsStuck(table, services)) == Select(services, IsStuck(table, services))
            && forall i, j :: 0 <= i < j < |order| && Stuck(table, services, order[i]) && Known(table, order[j]) ==>
                 Stuck(table, services, order[j])
  {
    hide SourcesOnce, Popped, HeldBack, Known, Stuck, Order;
    var order := Order(table, services);
    forall i, j | 0 <= i < j < |order| && Stuck(table, services, order[i]) && Known(table, order[j])
      ensures Stuck(table, services, order[j])
    {
      Parts(table, services, i);
      Parts(table, services, j);
      StuckIsHeldBack(table, services, order[i]);
      StuckIsHeldBack(table, services, order[j]);
    }
    StuckSelected(table, services);
  }

  lemma StuckSelected(table: Table, services: seq<Service>)
    requires SourcesOnce(table, KnownOf(table, services))
    ensures Select(Order(table, services), IsStuck(table, services)) == Select(services, IsStuck(table, services))
  {
    hide SourcesOnce, Popped, Known, Stuck;
    var popped, held, unknown := Popped(table, services), HeldBack(table, services), UnknownOf(table, services);
    var stuck := IsStuck(table, services);
    forall s ensures stuck(s) <==> s in held { StuckIsHeldBack(table, services, s); }
    forall s ensures s in popped || s in unknown ==> s !in held { Apart(table, services, s); }
    forall s | s in services ensures stuck(s) == (IsKnown(table)(s) && NotIn(popped)(s)) {
      SelectMembers(services, IsKnown(table), s);
      SelectMembers(KnownOf(table, services), NotIn(popped), s);
    }
    SelectBoth(services, IsKnown(table), NotIn(popped), stuck);
    hide HeldBack;
    SelectNone(popped, stuck);
    SelectAll(held, stuck);
    SelectNone(unknown, stuck);
    SelectJoin(popped, held, stuck);
    SelectJoin(popped + held, unknown, stuck);
  }

  // ---------- the sources ----------

  lemma {:induction false} VisitAllExtends(sc: Scan, dependents: seq<Service>)
    ensures sc.queue <= VisitAll(sc, dependents).queue
  {
    if dependents != [] {
      VisitAllExtends(sc, dependents[..|dependents| - 1]);
    }
  }

  /** What is in the queue comes out first. */
  lemma {:induction false} DrainExtends(adj: Adjacency, sc: Scan, result: seq<Service>)
    ensures result + sc.queue <= Drain(adj, sc, result)
    decreases |sc.queue| + |Positive(sc.degree)|
  {
    hide VisitAll;
    if sc.queue == [] {
      assert result + [] == result;
    } else {
      var node, rest := sc.queue[0], Scan(sc.degree, sc.queue[1..]);
      DrainNext(adj, sc, result);
      VisitAllExtends(rest, Listed(adj, node));
      DrainExtends(adj, VisitAll(rest, Listed(adj, node)), result + [node]);
      assert result + sc.queue == result + [node] + sc.queue[1..];
    }
  }

  /** The queue starts with the sources. */
  lemma PoppedStarts(table: Table, services: seq<Service>)
    ensures var inGraph := KnownOf(table, services);
            Free(inGraph, GraphOf(table, inGraph).degree) <= Popped(table, services)
  {
    hide Drain, GraphOf, Free;
    var inGraph := KnownOf(table, services);
    var g := GraphOf(table, inGraph);
    DrainExtends(g.adj, Scan(g.degree, Free(inGraph, g.degree)), []);
    assert [] + Free(inGraph, g.degree) == Free(inGraph, g.degree);
  }

  lemma FreeIsSource(table: Table, services: seq<Service>, s: Service)
    requires s in services && Known(table, s)
    ensures IsFree(GraphOf(table, KnownOf(table, services)).degree)(s) <==> Source(table, services, s)
  {
    var inGraph := KnownOf(table, services);
    var graph := Requested(table, services);
    GraphEntered(table, inGraph);
    SelectMembers(services, IsKnown(table), s);
    assert Asked(inGraph, s) > 0;
    TimesSign(Asked(inGraph, s), Demand(table, graph, s));
    DemandIffRequested(table, graph, s);
    hide GraphOf, Demand, Times, Asked, Known, DependsOn;
    forall d ensures d in graph <==> d in services && Known(table, d) {
      SelectMembers(services, IsKnown(table), d);
    }
  }

  /** The sources of the request are what the queue starts with. */
  lemma SourcesStart(table: Table, services: seq<Service>)
    ensures Select(services, IsSource(table, services)) <= Popped(table, services)
  {
    var degree := GraphOf(table, KnownOf(table, services)).degree;
    PoppedStarts(table, services);
    hide Popped, GraphOf, Source, Known;
    forall s | s in services ensures IsSource(table, services)(s) == (IsKnown(table)(s) && IsFree(degree)(s)) {
      SourceKnown(table, services, s);
      if Known(table, s) { FreeIsSource(table, services, s); }
    }
    SelectBoth(services, IsKnown(table), IsFree(degree), IsSource(table, services));
  }

  lemma SourceKnown(table: Table, services: seq<Service>, s: Service)
    ensures Source(table, services, s) ==> Known(table, s)
  {}

  lemma SourceRequests(table: Table, services: seq<Service>, s: Service)
    requires Source(table, services, s)
    ensures !HasRequested(table, Requested(table, services), s)
    ensures s in Requested(table, services) <==> s in services
  {
    hide Known, DependsOn;
    forall d ensures d in Requested(table, services) <==> d in services && Known(table, d) {
      RequestedMembers(table, services, d);
    }
  }

  lemma RequestedMembers(table: Table, services: seq<Service>, d: Service)
    ensures d in Requested(table, services) <==> d in services && Known(table, d)
  {
    SelectMembers(services, IsKnown(table), d);
  }

  lemma SourceCounts(table: Table, services: seq<Service>, s: Service)
    requires Source(table, services, s)
    ensures multiset(Popped(table, services))[s] == multiset(services)[s]
  {
    SourceRequests(table, services, s);
    PoppedMultiplicity(table, services, s);
    SelectCounts(services, IsKnown(table), s);
    SourceKnown(table, services, s);
    hide Popped, Known, DependsOn, HasRequested, Requested;
    assert s !in services ==> multiset(services)[s] == 0;
  }

  /** Beyond the sources that start the queue, no source comes out. */
  lemma NoMoreSources(table: Table, services: seq<Service>, s: Service)
    requires Source(table, services, s)
    ensures var free, popped := Select(services, IsSource(table, services)), Popped(table, services);
            free <= popped && s !in popped[|free|..] && s !in HeldBack(table, services)
  {
    SourcesStart(table, services);
    SourceCounts(table, services, s);
    SelectCounts(services, IsSource(table, services), s);
    SelectMembers(KnownOf(table, services), NotIn(Popped(table, services)), s);
    SelectMembers(services, IsKnown(table), s);
    hide Popped, Known, Source, KnownOf;
    var free, popped := Select(services, IsSource(table, services)), Popped(table, services);
    var rest := popped[|free|..];
    assert popped == free + rest;
    assert multiset(popped)[s] == multiset(free)[s] + multiset(rest)[s];
    assert s in services ==> multiset(services)[s] > 0;
    assert s in popped <==> multiset(popped)[s] > 0;
    assert s in rest <==> multiset(rest)[s] > 0;
  }

  /** Services without requested dependencies come first, in request order and as often as requested. */
  lemma SourcesFirst(table: Table, services: seq<Service>)
    ensures var order := Order(table, services);
            && Select(order, IsSource(table, services)) == Select(services, IsSource(table, services))
            && forall i, j :: 0 <= i < j < |order| && Source(table, services, order[j]) ==>
                 Source(table, services, order[i])
  {
    hide Source, Popped, HeldBack, Known, UnknownOf;
    var source, order := IsSource(table, services), Order(table, services);
    var free := Select(services, source);
    SourcesStart(table, services);
    var rest := Popped(table, services)[|free|..] + HeldBack(table, services) + UnknownOf(table, services);
    assert order == free + rest;
    forall s | s in free ensures source(s) { SelectMembers(services, source, s); }
    forall s | s in rest ensures !source(s) {
      Apart(table, services, s);
      SourceKnown(table, services, s);
      if source(s) { NoMoreSources(table, services, s); }
    }
    SplitAt(order, free, rest, source);
  }

  lemma SplitAt<E>(all: seq<E>, front: seq<E>, rest: seq<E>, p: E -> bool)
    requires all == front + rest && (forall e :: e in front ==> p(e)) && forall e :: e in rest ==> !p(e)
    ensures Select(all, p) == front
    ensures forall i, j :: 0 <= i < j < |all| && p(all[j]) ==> p(all[i])
  {
    SelectJoin(front, rest, p);
    SelectAll(front, p);
    SelectNone(rest, p);
    hide Select;
    forall i | 0 <= i < |all| ensures p(all[i]) <==> i < |front| { FrontAt(front, rest, p, i); }
  }

  lemma FrontAt<E>(front: seq<E>, rest: seq<E>, p: E -> bool, i: nat)
    requires (forall e :: e in front ==> p(e)) && forall e :: e in rest ==> !p(e)
    requires i < |front + rest|
    ensures p((front + rest)[i]) <==> i < |front|
  {
    if i < |front| {
      assert front[i] in front;
    } else {
      assert rest[i - |front|] in rest;
    }
  }
}
