/** Two requests against the real dependency table that repeat a service: one loses an entry, one puts a
    service before its dependency. */
module Repeats {
  import opened DependencyOrder
  import opened Remediation
  import opened RemediationLaws
  import opened Sequences
  import opened ServiceGraph

  const POSTGRES := Service("postgres")
  const OLLAMA := Service("ollama")
  const LITELLM := Service("litellm")
  const OPEN_WEBUI := Service("open-webui")
  const N8N := Service("n8n")
  const LANGFUSE := Service("langfuse")
  const CLICKHOUSE := Service("clickhouse")
  const REDIS := Service("redis")
  const MINIO := Service("minio")

  const SERVICE_DEPENDENCIES: Table := [
    (LITELLM, [POSTGRES, OLLAMA]),
    (LANGFUSE, [POSTGRES, CLICKHOUSE, REDIS, MINIO]),
    (Service("langfuse-worker"), [LANGFUSE, POSTGRES, CLICKHOUSE, REDIS]),
    (OPEN_WEBUI, [LITELLM, OLLAMA]),
    (N8N, [POSTGRES]),
    (Service("qdrant"), []),
    (OLLAMA, []),
    (POSTGRES, []),
    (CLICKHOUSE, []),
    (REDIS, []),
    (MINIO, []),
    (Service("ntfy"), [])
  ]

  lemma AllKnown(table: Table, services: seq<Service>)
    requires forall s :: s in services ==> Known(table, s)
    ensures KnownOf(table, services) == services && UnknownOf(table, services) == []
  {
    hide Known;
    SelectAll(services, IsKnown(table));
    SelectNone(services, IsUnknown(table));
  }

  // ---------- running the algorithm ----------

  /** The graphs while services are entered one by one. */
  ghost predicate Entering(table: Table, services: seq<Service>, gs: seq<Graph>) {
    |gs| == |services| + 1 && forall k :: 0 <= k < |services| ==> Enters(table, gs[k], services[k], gs[k + 1])
  }

  ghost predicate Enters(table: Table, g: Graph, s: Service, h: Graph) {
    s in g.degree && g.degree.Keys == g.adj.Keys && h == EnterDependencies(g, s, Dependencies(table, s))
  }

  lemma {:induction false} EnteringEnds(table: Table, services: seq<Service>, gs: seq<Graph>)
    requires Entering(table, services, gs) && gs[0].degree.Keys == gs[0].adj.Keys
    requires forall s :: s in services ==> s in gs[0].degree
    ensures EnterAll(table, gs[0], services) == gs[|services|]
  {
    if services != [] {
      var k := |services| - 1;
      assert services == services[..k] + [services[k]];
      EnteringEnds(table, services[..k], gs[..k + 1]);
      assert Enters(table, gs[k], services[k], gs[k + 1]);
    }
  }

  /** The scans while the queue is drained. */
  predicate Draining(adj: Adjacency, scans: seq<Scan>) {
    && scans != [] && scans[|scans| - 1].queue == []
    && forall k :: 0 <= k < |scans| - 1 ==> Pops(adj, scans[k], scans[k + 1])
  }

  predicate Pops(adj: Adjacency, sc: Scan, next: Scan) {
    sc.queue != [] && next == VisitAll(Scan(sc.degree, sc.queue[1..]), Listed(adj, sc.queue[0]))
  }

  /** What the pops take off the queue. */
  function Heads(adj: Adjacency, scans: seq<Scan>): (heads: seq<Service>)
    requires Draining(adj, scans)
    ensures |heads| == |scans| - 1
  {
    seq(|scans| - 1, k requires 0 <= k < |scans| - 1 && Pops(adj, scans[k], scans[k + 1]) => scans[k].queue[0])
  }

  lemma {:induction false} DrainingEnds(adj: Adjacency, scans: seq<Scan>, result: seq<Service>)
    requires Draining(adj, scans)
    ensures Drain(adj, scans[0], result) == result + Heads(adj, scans)
    decreases |scans|
  {
    hide Drain, VisitAll, Listed;
    if |scans| == 1 {
      DrainEnd(adj, scans[0].degree, result);
    } else {
      assert Pops(adj, scans[0], scans[1]);
      DrainNext(adj, scans[0], result);
      var node := scans[0].queue[0];
      DrainingEnds(adj, scans[1..], result + [node]);
      assert [node] + Heads(adj, scans[1..]) == Heads(adj, scans);
      assert result + [node] + Heads(adj, scans[1..]) == result + ([node] + Heads(adj, scans[1..]));
    }
  }

  lemma EnterSnoc(g: Graph, s: Service, deps: seq<Service>, d: Service)
    requires s in g.degree && g.degree.Keys == g.adj.Keys
    ensures EnterDependencies(g, s, []) == g
    ensures EnterDependencies(g, s, deps + [d]) == EnterDependency(EnterDependencies(g, s, deps), s, d)
  {
    assert (deps + [d])[..|deps|] == deps;
  }

  lemma OneDependency(g: Graph, s: Service, d: Service)
    requires s in g.degree && g.degree.Keys == g.adj.Keys
    ensures EnterDependencies(g, s, []) == g
    ensures EnterDependencies(g, s, [d]) == EnterDependency(g, s, d)
  {
    assert [] + [d] == [d];
    EnterSnoc(g, s, [], d);
    hide *;
  }

  lemma TwoDependencies(g: Graph, s: Service, d: Service, e: Service)
    requires s in g.degree && g.degree.Keys == g.adj.Keys
    ensures EnterDependencies(g, s, [d, e]) == EnterDependency(EnterDependency(g, s, d), s, e)
  {
    OneDependency(g, s, d);
    assert [d] + [e] == [d, e];
    EnterSnoc(g, s, [d], e);
    hide *;
  }

  lemma VisitSnoc(sc: Scan, xs: seq<Service>, x: Service)
    ensures VisitAll(sc, []) == sc
    ensures VisitAll(sc, xs + [x]) == Visit(VisitAll(sc, xs), x)
  {
    assert (xs + [x])[..|xs|] == xs;
  }

  lemma VisitTwo(sc: Scan, x: Service, y: Service)
    ensures VisitAll(sc, []) == sc
    ensures VisitAll(sc, [x]) == Visit(sc, x)
    ensures VisitAll(sc, [x, y]) == Visit(Visit(sc, x), y)
  {
    hide VisitAll, Visit;
    VisitSnoc(sc, [], x);
    VisitSnoc(sc, [x], y);
    assert [] + [x] == [x] && [x] + [y] == [x, y];
  }

  /** A dependent requested twice comes out once. */
  lemma DependentListedOnce(table: Table, a: Service, b: Service)
    requires a != b && Known(table, a) && Known(table, b)
    requires Dependencies(table, a) == [] && Dependencies(table, b) == [a]
    ensures Order(table, [a, b, b]) == [a, b]
  {
    hide Known, Dependencies, Popped, Order;
    OncePopped(table, a, b);
    NoneHeldBack(table, [a, b, b]);
  }

  lemma NoneHeldBack(table: Table, services: seq<Service>)
    requires forall s :: s in services ==> Known(table, s) && s in Popped(table, services)
    ensures Order(table, services) == Popped(table, services) && KnownOf(table, services) == services
  {
    hide Known, Popped;
    AllKnown(table, services);
    hide KnownOf, UnknownOf;
    SelectNone(services, NotIn(Popped(table, services)));
  }

  lemma OncePopped(table: Table, a: Service, b: Service)
    requires a != b && Known(table, a) && Known(table, b)
    requires Dependencies(table, a) == [] && Dependencies(table, b) == [a]
    ensures Popped(table, [a, b, b]) == [a, b]
  {
    hide KnownOf, UnknownOf, GraphOf, Drain, Free, Known, Dependencies;
    AllKnown(table, [a, b, b]);
    OnceGraph(table, a, b);
    OnceDrain(a, b);
    OnceFree(a, b);
  }

  lemma OnceFree(a: Service, b: Service)
    requires a != b
    ensures Free([a, b, b], map[a := 0, b := 2]) == [a]
  {
    var p := IsFree(map[a := 0, b := 2]);
    SelectOne([], p, a);
    SelectOne([a], p, b);
    SelectOne([a, b], p, b);
    hide Select;
    assert [] + [a] == [a] && [a] + [b] == [a, b] && [a, b] + [b] == [a, b, b];
  }

  lemma OnceSteps(a: Service, b: Service)
    requires a != b
    ensures EmptyGraph([a, b, b]) == Graph(map[a := 0, b := 0], map[a := [], b := []])
    ensures EnterDependency(Graph(map[a := 0, b := 0], map[a := [], b := []]), b, a) ==
            Graph(map[a := 0, b := 1], map[a := [b], b := []])
    ensures EnterDependency(Graph(map[a := 0, b := 1], map[a := [b], b := []]), b, a) ==
            Graph(map[a := 0, b := 2], map[a := [b, b], b := []])
  {
    var d0: Degrees, d1: Degrees, d2: Degrees := map[a := 0, b := 0], map[a := 0, b := 1], map[a := 0, b := 2];
    var a0: Adjacency, a1: Adjacency := map[a := [], b := []], map[a := [b], b := []];
    var a2: Adjacency := map[a := [b, b], b := []];
    assert EmptyGraph([a, b, b]).degree == d0 && EmptyGraph([a, b, b]).adj == a0;
    assert d0[b := 1] == d1 && d1[b := 2] == d2;
    assert [] + [b] == [b] && [b] + [b] == [b, b];
    assert a0[a := [b]] == a1 && a1[a := [b, b]] == a2;
  }

  lemma OnceGraph(table: Table, a: Service, b: Service)
    requires a != b && Dependencies(table, a) == [] && Dependencies(table, b) == [a]
    ensures GraphOf(table, [a, b, b]) == Graph(map[a := 0, b := 2], map[a := [b, b], b := []])
  {
    var g0 := Graph(map[a := 0, b := 0], map[a := [], b := []]);
    var g1 := Graph(map[a := 0, b := 1], map[a := [b], b := []]);
    var g2 := Graph(map[a := 0, b := 2], map[a := [b, b], b := []]);
    OnceSteps(a, b);
    OneDependency(g0, a, a);
    OneDependency(g0, b, a);
    OneDependency(g1, b, a);
    hide EnterDependencies, EnterAll, Dependencies, EnterDependency, EmptyGraph;
    assert Enters(table, g0, a, g0) && Enters(table, g0, b, g1) && Enters(table, g1, b, g2);
    hide Enters;
    EnteringEnds(table, [a, b, b], [g0, g0, g1, g2]);
  }

  lemma OnceDrain(a: Service, b: Service)
    requires a != b
    ensures Drain(map[a := [b, b], b := []], Scan(map[a := 0, b := 2], [a]), []) == [a, b]
  {
    var adj: Adjacency := map[a := [b, b], b := []];
    var s0, s1, s2 := Scan(map[a := 0, b := 2], [a]), Scan(map[a := 0, b := 0], [b]), Scan(map[a := 0, b := 0], []);
    OncePops(a, b);
    hide Pops, Drain;
    DrainingEnds(adj, [s0, s1, s2], []);
  }

  lemma OncePops(a: Service, b: Service)
    requires a != b
    ensures var adj: Adjacency := map[a := [b, b], b := []];
            && Pops(adj, Scan(map[a := 0, b := 2], [a]), Scan(map[a := 0, b := 0], [b]))
            && Pops(adj, Scan(map[a := 0, b := 0], [b]), Scan(map[a := 0, b := 0], []))
  {
    var s0, s2 := Scan(map[a := 0, b := 2], []), Scan(map[a := 0, b := 0], []);
    VisitTwo(s0, b, b);
    VisitTwo(s2, b, b);
    hide VisitAll;
    assert map[a := 0, b := 2][b := 1] == map[a := 0, b := 1];
    assert map[a := 0, b := 1][b := 0] == map[a := 0, b := 0];
    assert Visit(s0, b) == Scan(map[a := 0, b := 1], []);
    assert Visit(Scan(map[a := 0, b := 1], []), b) == Scan(map[a := 0, b := 0], [b]);
  }

  /** Two checks on one service: the second request for it is lost. */
  lemma RepeatedDependentLost()
    ensures Order(SERVICE_DEPENDENCIES, [POSTGRES, N8N, N8N]) == [POSTGRES, N8N]
    ensures multiset(Order(SERVICE_DEPENDENCIES, [POSTGRES, N8N, N8N])) != multiset([POSTGRES, N8N, N8N])
  {
    Names();
    TableEntries();
    DependentListedOnce(SERVICE_DEPENDENCIES, POSTGRES, N8N);
    assert multiset([POSTGRES, N8N, N8N])[N8N] == 2 && multiset([POSTGRES, N8N])[N8N] == 1;
  }

  lemma Names()
    ensures NoRepeats([OLLAMA, POSTGRES, OPEN_WEBUI, LITELLM]) && POSTGRES != N8N
  {
    assert |OLLAMA.name| == 6 && |POSTGRES.name| == 8 && |OPEN_WEBUI.name| == 10 && |LITELLM.name| == 7;
    assert |N8N.name| == 3;
  }

  // ---------- a repeated source ----------

  /** o and p depend on nothing, l on p and o, w on l and o. */
  ghost predicate Diamond(table: Table, o: Service, p: Service, w: Service, l: Service) {
    && NoRepeats([o, p, w, l]) && (forall s :: s in [o, p, w, l] ==> Known(table, s))
    && Dependencies(table, o) == [] && Dependencies(table, p) == []
    && Dependencies(table, l) == [p, o] && Dependencies(table, w) == [l, o]
  }

  function Deg(o: Service, p: Service, w: Service, l: Service, dw: int, dl: int): Degrees {
    map[o := 0, p := 0, w := dw, l := dl]
  }

  function Adj(o: Service, p: Service, w: Service, l: Service, ao: seq<Service>, ap: seq<Service>,
               al: seq<Service>): Adjacency {
    map[o := ao, p := ap, w := [], l := al]
  }

  lemma Distinct(o: Service, p: Service, w: Service, l: Service)
    requires NoRepeats([o, p, w, l])
    ensures o != p && o != w && o != l && p != w && p != l && w != l
  {
    var s := [o, p, w, l];
    assert s[0] != s[1] && s[0] != s[2] && s[0] != s[3] && s[1] != s[2] && s[1] != s[3] && s[2] != s[3];
  }

  lemma VisitsWL(o: Service, p: Service, w: Service, l: Service, dw: int, dl: int, q: seq<Service>)
    requires NoRepeats([o, p, w, l])
    ensures Visit(Scan(Deg(o, p, w, l, dw, dl), q), w) ==
            Scan(Deg(o, p, w, l, dw - 1, dl), if dw == 1 then q + [w] else q)
    ensures Visit(Scan(Deg(o, p, w, l, dw, dl), q), l) ==
            Scan(Deg(o, p, w, l, dw, dl - 1), if dl == 1 then q + [l] else q)
  {
    Distinct(o, p, w, l);
    assert Deg(o, p, w, l, dw, dl)[w := dw - 1] == Deg(o, p, w, l, dw - 1, dl);
    assert Deg(o, p, w, l, dw, dl)[l := dl - 1] == Deg(o, p, w, l, dw, dl - 1);
  }

  lemma EntersW(o: Service, p: Service, w: Service, l: Service)
    requires NoRepeats([o, p, w, l])
    ensures var g := Graph(Deg(o, p, w, l, 0, 0), Adj(o, p, w, l, [], [], []));
            w in g.degree && g.degree.Keys == g.adj.Keys
            && EnterDependency(EnterDependency(g, w, l), w, o) ==
               Graph(Deg(o, p, w, l, 2, 0), Adj(o, p, w, l, [w], [], [w]))
  {
    Distinct(o, p, w, l);
    DegW(o, p, w, l);
    AdjW(o, p, w, l);
    hide NoRepeats;
  }

  lemma DegW(o: Service, p: Service, w: Service, l: Service)
    requires w != o && w != p && w != l
    ensures var d := Deg(o, p, w, l, 0, 0);
            d[w := 1] == Deg(o, p, w, l, 1, 0) && d[w := 1][w := 2] == Deg(o, p, w, l, 2, 0)
  {
    assert Deg(o, p, w, l, 1, 0)[w := 2] == Deg(o, p, w, l, 2, 0);
  }

  lemma AdjW(o: Service, p: Service, w: Service, l: Service)
    requires o != p && o != w && o != l && p != w && p != l && w != l
    ensures var a := Adj(o, p, w, l, [], [], []);
            a[l := a[l] + [w]] == Adj(o, p, w, l, [], [], [w])
            && Adj(o, p, w, l, [], [], [w])[o := a[o] + [w]] == Adj(o, p, w, l, [w], [], [w])
  {
    assert [] + [w] == [w];
  }

  lemma EntersL(o: Service, p: Service, w: Service, l: Service)
    requires NoRepeats([o, p, w, l])
    ensures var g := Graph(Deg(o, p, w, l, 2, 0), Adj(o, p, w, l, [w], [], [w]));
            l in g.degree && g.degree.Keys == g.adj.Keys
            && EnterDependency(EnterDependency(g, l, p), l, o) ==
               Graph(Deg(o, p, w, l, 2, 2), Adj(o, p, w, l, [w, l], [l], [w]))
  {
    Distinct(o, p, w, l);
    DegL(o, p, w, l);
    AdjL(o, p, w, l);
    hide NoRepeats;
  }

  lemma DegL(o: Service, p: Service, w: Service, l: Service)
    requires l != o && l != p && l != w
    ensures var d := Deg(o, p, w, l, 2, 0);
            d[l := 1] == Deg(o, p, w, l, 2, 1) && d[l := 1][l := 2] == Deg(o, p, w, l, 2, 2)
  {
    assert Deg(o, p, w, l, 2, 1)[l := 2] == Deg(o, p, w, l, 2, 2);
  }

  lemma AdjL(o: Service, p: Service, w: Service, l: Service)
    requires o != p && o != w && o != l && p != w && p != l && w != l
    ensures var a := Adj(o, p, w, l, [w], [], [w]);
            a[p := a[p] + [l]] == Adj(o, p, w, l, [w], [l], [w])
            && Adj(o, p, w, l, [w], [l], [w])[o := a[o] + [l]] == Adj(o, p, w, l, [w, l], [l], [w])
  {
    assert [] + [l] == [l] && [w] + [l] == [w, l];
  }

  lemma EntersSource(table: Table, g: Graph, s: Service)
    requires s in g.degree && g.degree.Keys == g.adj.Keys && Dependencies(table, s) == []
    ensures Enters(table, g, s, g)
  {
    OneDependency(g, s, s);
    hide EnterDependencies, Dependencies;
  }

  lemma EntersTwo(table: Table, g: Graph, s: Service, d: Service, e: Service)
    requires s in g.degree && g.degree.Keys == g.adj.Keys && Dependencies(table, s) == [d, e]
    ensures Enters(table, g, s, EnterDependency(EnterDependency(g, s, d), s, e))
  {
    TwoDependencies(g, s, d, e);
    hide EnterDependencies, Dependencies;
  }

  lemma DiamondEnters(table: Table, o: Service, p: Service, w: Service, l: Service)
    requires Diamond(table, o, p, w, l)
    ensures var g0 := Graph(Deg(o, p, w, l, 0, 0), Adj(o, p, w, l, [], [], []));
            var g1 := Graph(Deg(o, p, w, l, 2, 0), Adj(o, p, w, l, [w], [], [w]));
            var g2 := Graph(Deg(o, p, w, l, 2, 2), Adj(o, p, w, l, [w, l], [l], [w]));
            && Enters(table, g0, o, g0) && Enters(table, g0, p, g0)
            && Enters(table, g0, w, g1) && Enters(table, g1, l, g2)
  {
    var g0 := Graph(Deg(o, p, w, l, 0, 0), Adj(o, p, w, l, [], [], []));
    var g1 := Graph(Deg(o, p, w, l, 2, 0), Adj(o, p, w, l, [w], [], [w]));
    DiamondEmpty(o, p, w, l);
    EntersW(o, p, w, l);
    EntersL(o, p, w, l);
    hide EnterDependency, Deg, Adj, EmptyGraph, Enters;
    EntersSource(table, g0, o);
    EntersSource(table, g0, p);
    EntersTwo(table, g0, w, l, o);
    EntersTwo(table, g1, l, p, o);
  }

  lemma DiamondGraph(table: Table, o: Service, p: Service, w: Service, l: Service)
    requires Diamond(table, o, p, w, l)
    ensures GraphOf(table, [o, o, p, w, l]) == Graph(Deg(o, p, w, l, 2, 2), Adj(o, p, w, l, [w, l], [l], [w]))
  {
    hide EnterAll, EmptyGraph, Enters, Diamond, Deg, Adj;
    var g0 := Graph(Deg(o, p, w, l, 0, 0), Adj(o, p, w, l, [], [], []));
    var g1 := Graph(Deg(o, p, w, l, 2, 0), Adj(o, p, w, l, [w], [], [w]));
    var g2 := Graph(Deg(o, p, w, l, 2, 2), Adj(o, p, w, l, [w, l], [l], [w]));
    DiamondNames(table, o, p, w, l);
    DiamondEmpty(o, p, w, l);
    DiamondEnters(table, o, p, w, l);
    EnteringEnds(table, [o, o, p, w, l], [g0, g0, g0, g0, g1, g2]);
  }

  lemma DiamondNames(table: Table, o: Service, p: Service, w: Service, l: Service)
    requires Diamond(table, o, p, w, l)
    ensures NoRepeats([o, p, w, l]) && forall s :: s in [o, o, p, w, l] ==> Known(table, s)
  {
    hide Known, NoRepeats, Dependencies;
    assert forall s :: s in [o, p, w, l] ==> Known(table, s);
    assert o in [o, p, w, l] && p in [o, p, w, l] && w in [o, p, w, l] && l in [o, p, w, l];
  }

  lemma DiamondEmpty(o: Service, p: Service, w: Service, l: Service)
    requires NoRepeats([o, p, w, l])
    ensures EmptyGraph([o, o, p, w, l]) == Graph(Deg(o, p, w, l, 0, 0), Adj(o, p, w, l, [], [], []))
    ensures forall s :: s in [o, o, p, w, l] ==> s in Deg(o, p, w, l, 0, 0)
    ensures Deg(o, p, w, l, 0, 0).Keys == Adj(o, p, w, l, [], [], []).Keys
    ensures o in Deg(o, p, w, l, 0, 0) && p in Deg(o, p, w, l, 0, 0)
  {
    Distinct(o, p, w, l);
    var g := EmptyGraph([o, o, p, w, l]);
    assert g.degree == Deg(o, p, w, l, 0, 0) && g.adj == Adj(o, p, w, l, [], [], []);
  }

  lemma SelectTwo(s: seq<Service>, f: Service -> bool, x: Service, y: Service)
    ensures Select(s + [x, y], f) == Select(s, f) + (if f(x) then [x] else []) + (if f(y) then [y] else [])
  {
    SelectOne(s, f, x);
    SelectOne(s + [x], f, y);
    assert s + [x] + [y] == s + [x, y];
    hide *;
  }

  lemma SelectFive(f: Service -> bool, a: Service, b: Service, c: Service, d: Service, e: Service)
    requires f(a) && f(b) && f(c) && !f(d) && !f(e)
    ensures Select([a, b, c, d, e], f) == [a, b, c]
  {
    SelectAll([a, b, c], f);
    SelectTwo([a, b, c], f, d, e);
    assert [a, b, c] + [d, e] == [a, b, c, d, e];
    hide *;
  }

  lemma DiamondFree(o: Service, p: Service, w: Service, l: Service)
    requires NoRepeats([o, p, w, l])
    ensures Free([o, o, p, w, l], Deg(o, p, w, l, 2, 2)) == [o, o, p]
  {
    Distinct(o, p, w, l);
    var f := IsFree(Deg(o, p, w, l, 2, 2));
    assert f(o) && f(p) && !f(w) && !f(l);
    SelectFive(f, o, o, p, w, l);
    hide *;
  }

  lemma PopIs(adj: Adjacency, sc: Scan, node: Service, rest: seq<Service>, next: Scan)
    requires sc.queue == [node] + rest && next == VisitAll(Scan(sc.degree, rest), Listed(adj, node))
    ensures Pops(adj, sc, next)
  {
    hide VisitAll, Listed;
    assert sc.queue[1..] == rest;
  }

  /** The degrees and the queue while o, o, p, w, l are popped. */
  function DiamondScans(o: Service, p: Service, w: Service, l: Service): seq<Scan> {
    [
      Scan(Deg(o, p, w, l, 2, 2), [o, o, p]),
      Scan(Deg(o, p, w, l, 1, 1), [o, p]),
      Scan(Deg(o, p, w, l, 0, 0), [p, w, l]),
      Scan(Deg(o, p, w, l, 0, -1), [w, l]),
      Scan(Deg(o, p, w, l, 0, -1), [l]),
      Scan(Deg(o, p, w, l, -1, -1), [])
    ]
  }

  lemma PopO(o: Service, p: Service, w: Service, l: Service, d: int, rest: seq<Service>)
    requires NoRepeats([o, p, w, l])
    ensures Pops(Adj(o, p, w, l, [w, l], [l], [w]), Scan(Deg(o, p, w, l, d, d), [o] + rest),
                 Scan(Deg(o, p, w, l, d - 1, d - 1), if d == 1 then rest + [w, l] else rest))
  {
    DiamondListed(o, p, w, l);
    hide VisitAll, Listed, Deg, Adj, Pops, NoRepeats;
    PopsTwo(o, p, w, l, d, d, rest);
    PopIs(Adj(o, p, w, l, [w, l], [l], [w]), Scan(Deg(o, p, w, l, d, d), [o] + rest), o, rest,
          Scan(Deg(o, p, w, l, d - 1, d - 1), if d == 1 then rest + [w, l] else rest));
  }

  lemma FirstPops(o: Service, p: Service, w: Service, l: Service)
    requires NoRepeats([o, p, w, l])
    ensures var adj, scans := Adj(o, p, w, l, [w, l], [l], [w]), DiamondScans(o, p, w, l);
            Pops(adj, scans[0], scans[1]) && Pops(adj, scans[1], scans[2])
  {
    hide Deg, Adj, Pops;
    PopO(o, p, w, l, 2, [o, p]);
    PopO(o, p, w, l, 1, [p]);
    assert [p] + [w, l] == [p, w, l] && [o] + [o, p] == [o, o, p] && [o] + [p] == [o, p];
  }

  lemma LastPops(o: Service, p: Service, w: Service, l: Service)
    requires NoRepeats([o, p, w, l])
    ensures var adj, scans := Adj(o, p, w, l, [w, l], [l], [w]), DiamondScans(o, p, w, l);
            && Pops(adj, scans[2], scans[3]) && Pops(adj, scans[3], scans[4]) && Pops(adj, scans[4], scans[5])
  {
    var adj, scans := Adj(o, p, w, l, [w, l], [l], [w]), DiamondScans(o, p, w, l);
    DiamondListed(o, p, w, l);
    hide VisitAll, Listed, Deg, Adj, Pops;
    PopP(o, p, w, l);
    PopW(o, p, w, l);
    PopL(o, p, w, l);
    assert [p] + [w, l] == [p, w, l] && [w] + [l] == [w, l] && [l] + [] == [l];
    PopIs(adj, scans[2], p, [w, l], scans[3]);
    PopIs(adj, scans[3], w, [l], scans[4]);
    PopIs(adj, scans[4], l, [], scans[5]);
  }

  lemma DiamondScansAre(o: Service, p: Service, w: Service, l: Service)
    ensures var scans, services := DiamondScans(o, p, w, l), [o, o, p, w, l];
            && |scans| == 6 && scans[5].queue == []
            && forall k :: 0 <= k < 5 ==> scans[k].queue != [] && scans[k].queue[0] == services[k]
  {
    hide Deg;
  }

  /** Popping o twice takes four off the degrees where two were due. */
  lemma DiamondPops(o: Service, p: Service, w: Service, l: Service)
    requires NoRepeats([o, p, w, l])
    ensures var adj, scans := Adj(o, p, w, l, [w, l], [l], [w]), DiamondScans(o, p, w, l);
            Draining(adj, scans) && Heads(adj, scans) == [o, o, p, w, l]
  {
    hide Pops, Deg, Adj, DiamondScans, NoRepeats;
    FirstPops(o, p, w, l);
    LastPops(o, p, w, l);
    DiamondScansAre(o, p, w, l);
    var adj, scans := Adj(o, p, w, l, [w, l], [l], [w]), DiamondScans(o, p, w, l);
    assert forall k :: 0 <= k < 5 ==> Heads(adj, scans)[k] == scans[k].queue[0];
  }

  lemma DiamondListed(o: Service, p: Service, w: Service, l: Service)
    requires NoRepeats([o, p, w, l])
    ensures var adj := Adj(o, p, w, l, [w, l], [l], [w]);
            Listed(adj, o) == [w, l] && Listed(adj, p) == [l] && Listed(adj, w) == [] && Listed(adj, l) == [w]
  {
    Distinct(o, p, w, l);
  }

  lemma PopsTwo(o: Service, p: Service, w: Service, l: Service, dw: int, dl: int, q: seq<Service>)
    requires NoRepeats([o, p, w, l]) && dw == dl
    ensures VisitAll(Scan(Deg(o, p, w, l, dw, dl), q), [w, l]) ==
            Scan(Deg(o, p, w, l, dw - 1, dl - 1), if dw == 1 then q + [w, l] else q)
  {
    VisitTwo(Scan(Deg(o, p, w, l, dw, dl), q), w, l);
    VisitsWL(o, p, w, l, dw, dl, q);
    VisitsWL(o, p, w, l, dw - 1, dl, if dw == 1 then q + [w] else q);
    hide VisitAll, Visit, Deg;
    assert q + [w] + [l] == q + [w, l];
  }

  lemma PopP(o: Service, p: Service, w: Service, l: Service)
    requires NoRepeats([o, p, w, l])
    ensures VisitAll(Scan(Deg(o, p, w, l, 0, 0), [w, l]), [l]) == Scan(Deg(o, p, w, l, 0, -1), [w, l])
  {
    VisitTwo(Scan(Deg(o, p, w, l, 0, 0), [w, l]), l, l);
    VisitsWL(o, p, w, l, 0, 0, [w, l]);
    hide VisitAll, Visit, Deg;
  }

  lemma PopW(o: Service, p: Service, w: Service, l: Service)
    ensures VisitAll(Scan(Deg(o, p, w, l, 0, -1), [l]), []) == Scan(Deg(o, p, w, l, 0, -1), [l])
  {
    VisitTwo(Scan(Deg(o, p, w, l, 0, -1), [l]), l, l);
    hide VisitAll, Visit, Deg;
  }

  lemma PopL(o: Service, p: Service, w: Service, l: Service)
    requires NoRepeats([o, p, w, l])
    ensures VisitAll(Scan(Deg(o, p, w, l, 0, -1), []), [w]) == Scan(Deg(o, p, w, l, -1, -1), [])
  {
    VisitTwo(Scan(Deg(o, p, w, l, 0, -1), []), w, w);
    VisitsWL(o, p, w, l, 0, -1, []);
    hide VisitAll, Visit, Deg;
  }

  lemma DiamondPopped(table: Table, o: Service, p: Service, w: Service, l: Service)
    requires Diamond(table, o, p, w, l)
    ensures Popped(table, [o, o, p, w, l]) == [o, o, p, w, l]
  {
    hide KnownOf, UnknownOf, GraphOf, Drain, Free, Diamond, Heads, Draining, Deg, Adj, Known;
    var services := [o, o, p, w, l];
    DiamondNames(table, o, p, w, l);
    AllKnown(table, services);
    DiamondGraph(table, o, p, w, l);
    DiamondFree(o, p, w, l);
    DiamondPops(o, p, w, l);
    DrainingEnds(Adj(o, p, w, l, [w, l], [l], [w]), DiamondScans(o, p, w, l), []);
    assert [] + services == services;
  }

  /** With o requested twice, w comes out before l, on which it depends. */
  lemma DiamondOrder(table: Table, o: Service, p: Service, w: Service, l: Service)
    requires Diamond(table, o, p, w, l)
    ensures var services := [o, o, p, w, l];
            Order(table, services) == Popped(table, services) == KnownOf(table, services) == services
  {
    hide Known, Popped, Order, KnownOf;
    DiamondNames(table, o, p, w, l);
    DiamondPopped(table, o, p, w, l);
    NoneHeldBack(table, [o, o, p, w, l]);
  }

  lemma Misordered(table: Table, graph: set<Service>, o: Service, p: Service, w: Service, l: Service)
    requires NoRepeats([o, p, w, l]) && l in graph && DependsOn(table, w, l)
    ensures !DependenciesFirst(table, graph, [o, o, p, w, l])
  {
    Distinct(o, p, w, l);
    hide DependsOn;
    var services := [o, o, p, w, l];
    assert services[3] == w && services[..3] == [o, o, p];
    assert l !in services[..3];
  }

  /** Asking for ollama twice puts open-webui before litellm, on which it depends. */
  lemma RepeatedSourceMisorders()
    ensures var services := [OLLAMA, OLLAMA, POSTGRES, OPEN_WEBUI, LITELLM];
            && Order(SERVICE_DEPENDENCIES, services) == services
            && DependsOn(SERVICE_DEPENDENCIES, OPEN_WEBUI, LITELLM)
            && !DependenciesFirst(SERVICE_DEPENDENCIES, Requested(SERVICE_DEPENDENCIES, services),
                                  Popped(SERVICE_DEPENDENCIES, services))
  {
    Names();
    TableEntries();
    hide Order, Popped, KnownOf, Known, Dependencies;
    DiamondOrder(SERVICE_DEPENDENCIES, OLLAMA, POSTGRES, OPEN_WEBUI, LITELLM);
    Misordered(SERVICE_DEPENDENCIES, Requested(SERVICE_DEPENDENCIES, [OLLAMA, OLLAMA, POSTGRES, OPEN_WEBUI, LITELLM]),
               OLLAMA, POSTGRES, OPEN_WEBUI, LITELLM);
  }

  /** An entry of a table without repeated keys is what the table says of its service. */
  lemma {:induction false} Entry(table: Table, i: nat, s: Service)
    requires DistinctKeys(table) && i < |table| && table[i].0 == s
    ensures Known(table, s) && Dependencies(table, s) == table[i].1
  {
    if i < |table| - 1 {
      Entry(table[..|table| - 1], i, s);
    }
  }

  lemma TableDistinct()
    ensures DistinctKeys(SERVICE_DEPENDENCIES)
  {
    assert |LITELLM.name| == 7 && |LANGFUSE.name| == 8 && |Service("langfuse-worker").name| == 15;
    assert |OPEN_WEBUI.name| == 10 && |N8N.name| == 3 && |Service("qdrant").name| == 6 && |OLLAMA.name| == 6;
    assert |POSTGRES.name| == 8 && |CLICKHOUSE.name| == 10 && |REDIS.name| == 5 && |MINIO.name| == 5;
    assert |Service("ntfy").name| == 4;
    assert LANGFUSE.name[0] == 'l' && POSTGRES.name[0] == 'p' && OPEN_WEBUI.name[0] == 'o';
    assert CLICKHOUSE.name[0] == 'c' && Service("qdrant").name[0] == 'q' && OLLAMA.name[0] == 'o';
    assert REDIS.name[0] == 'r' && MINIO.name[0] == 'm';
  }

  lemma TableEntries()
    ensures Known(SERVICE_DEPENDENCIES, OLLAMA) && Known(SERVICE_DEPENDENCIES, POSTGRES)
    ensures Known(SERVICE_DEPENDENCIES, OPEN_WEBUI) && Known(SERVICE_DEPENDENCIES, LITELLM)
    ensures Known(SERVICE_DEPENDENCIES, N8N)
    ensures Dependencies(SERVICE_DEPENDENCIES, OLLAMA) == [] && Dependencies(SERVICE_DEPENDENCIES, POSTGRES) == []
    ensures Dependencies(SERVICE_DEPENDENCIES, OPEN_WEBUI) == [LITELLM, OLLAMA]
    ensures Dependencies(SERVICE_DEPENDENCIES, LITELLM) == [POSTGRES, OLLAMA]
    ensures Dependencies(SERVICE_DEPENDENCIES, N8N) == [POSTGRES]
  {
    var t := SERVICE_DEPENDENCIES;
    TableDistinct();
    Entry(t, 0, LITELLM);
    Entry(t, 3, OPEN_WEBUI);
    Entry(t, 4, N8N);
    Entry(t, 6, OLLAMA);
    Entry(t, 7, POSTGRES);
  }
}
