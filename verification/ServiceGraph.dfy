/** The service dependency table: remediation order (Kahn's topological sort, cycles at the end)
    and impact analysis (breadth-first over dependents). */
module ServiceGraph {
  import opened Sequences

  datatype Service = Service(name: string)

  /** `SERVICE_DEPENDENCIES`: each known service with the services it depends on, in table order. */
  type Table = seq<(Service, seq<Service>)>

  ghost predicate DistinctKeys(table: Table) {
    forall i, j :: 0 <= i < j < |table| ==> table[i].0 != table[j].0
  }

  predicate Known(table: Table, s: Service) {
    exists i :: 0 <= i < |table| && table[i].0 == s
  }

  /** Direct dependencies; none for a service that is not in the table. */
  function Dependencies(table: Table, s: Service): (deps: seq<Service>)
    ensures !Known(table, s) ==> deps == []
  {
    if table == [] then []
    else if table[|table| - 1].0 == s then table[|table| - 1].1
    else Dependencies(table[..|table| - 1], s)
  }

  /** `service in deps` for the entry of `s`. */
  predicate DependsOn(table: Table, s: Service, dep: Service) {
    dep in Dependencies(table, s)
  }

  /** Direct dependents, in table order. */
  function Dependents(table: Table, s: Service): seq<Service> {
    if table == [] then [] else
      var (name, deps) := table[|table| - 1];
      Dependents(table[..|table| - 1], s) + (if s in deps then [name] else [])
  }

  /** A service is listed as a dependent exactly when it depends on the given one, and once. */
  lemma {:induction false} DependentsExact(table: Table, s: Service)
    requires DistinctKeys(table)
    ensures NoRepeats(Dependents(table, s))
    ensures forall x :: x in Dependents(table, s) <==> DependsOn(table, x, s)
  {
    if table != [] {
      var init, name := table[..|table| - 1], table[|table| - 1].0;
      DependentsExact(init, s);
      assert !Known(init, name) && !DependsOn(init, name, s);
      assert name !in Dependents(init, s);
      assert forall x :: x != name ==> Dependencies(table, x) == Dependencies(init, x);
    }
  }

  /** Each service of the list stands in the table, and later ones stand later. */
  ghost predicate InTableOrder(table: Table, services: seq<Service>, at: seq<nat>) {
    && |at| == |services|
    && (forall i :: 0 <= i < |at| ==> at[i] < |table| && table[at[i]].0 == services[i])
    && (forall i, j :: 0 <= i < j < |at| ==> at[i] < at[j])
  }

  /** Direct dependents come in table order. */
  lemma {:induction false} DependentsInOrder(table: Table, s: Service) returns (at: seq<nat>)
    ensures InTableOrder(table, Dependents(table, s), at)
  {
    if table == [] {
      at := [];
    } else {
      var n := |table| - 1;
      at := DependentsInOrder(table[..n], s);
      at := if s in table[n].1 then at + [n] else at;
      assert Dependents(table, s) == Dependents(table[..n], s) + if s in table[n].1 then [table[n].0] else [];
    }
  }

  // ---------- walks ----------

  /** w[0] depends on w[1], which depends on w[2], and so on, through at least one dependency. */
  ghost predicate IsWalk(table: Table, w: seq<Service>) {
    |w| >= 2 && forall k :: 0 <= k < |w| - 1 ==> DependsOn(table, w[k], w[k + 1])
  }

  /** `from` depends on `to` through exactly n dependencies. */
  ghost predicate Reaches(table: Table, from: Service, to: Service, n: nat) {
    exists w :: IsWalk(table, w) && |w| == n + 1 && w[0] == from && w[n] == to
  }

  lemma ReachesOne(table: Table, from: Service, to: Service)
    ensures Reaches(table, from, to, 1) <==> DependsOn(table, from, to)
  {
    if DependsOn(table, from, to) {
      var w := [from, to];
      assert IsWalk(table, w) && |w| == 2;
    }
  }

  lemma ReachesStep(table: Table, from: Service, mid: Service, to: Service, n: nat)
    requires DependsOn(table, from, mid) && Reaches(table, mid, to, n)
    ensures Reaches(table, from, to, n + 1)
  {
    var w :| IsWalk(table, w) && |w| == n + 1 && w[0] == mid && w[n] == to;
    var w' := [from] + w;
    assert forall k :: 1 <= k < |w'| ==> w'[k] == w[k - 1];
    assert IsWalk(table, w') && |w'| == n + 2 && w'[0] == from && w'[n + 1] == to;
  }

  lemma ReachesUnfold(table: Table, from: Service, to: Service, n: nat) returns (mid: Service)
    requires n > 1 && Reaches(table, from, to, n)
    ensures DependsOn(table, from, mid) && Reaches(table, mid, to, n - 1)
  {
    var w :| IsWalk(table, w) && |w| == n + 1 && w[0] == from && w[n] == to;
    mid := w[1];
    var w' := w[1..];
    assert IsWalk(table, w') && |w'| == n && w'[0] == mid && w'[n - 1] == to;
  }

  // ---------- impact analysis ----------

  /** `x` was found, at distance at most n. */
  ghost predicate Found(all: seq<Service>, dist: seq<nat>, x: Service, n: nat)
    requires |dist| == |all|
  {
    exists j :: 0 <= j < |all| && all[j] == x && dist[j] <= n
  }

  lemma FoundGrows(all: seq<Service>, dist: seq<nat>, x: Service, n: nat, y: Service, d: nat)
    requires |dist| == |all|
    ensures Found(all, dist, x, n) ==> Found(all + [y], dist + [d], x, n)
    ensures d <= n ==> Found(all + [y], dist + [d], y, n)
  {
    if Found(all, dist, x, n) {
      var j :| 0 <= j < |all| && all[j] == x && dist[j] <= n;
      assert (all + [y])[j] == x;
    }
    assert (all + [y])[|all|] == y;
  }

  /** The state of the search: `all` lists what was found (direct first), `head` is how many were
      expanded, `dist[i]` bounds the distance of `all[i]` from the service. */
  ghost predicate Searched(table: Table, service: Service, all: seq<Service>, dist: seq<nat>, head: nat) {
    && |dist| == |all| && head <= |all| && NoRepeats(all)
    && (forall i :: 0 <= i < |all| ==> dist[i] >= 1 && Reaches(table, all[i], service, dist[i]))
    && (forall i, j :: 0 <= i <= j < |all| ==> dist[i] <= dist[j])
    && (head < |all| ==> forall i :: 0 <= i < |all| ==> dist[i] <= dist[head] + 1)
    && (forall x :: DependsOn(table, x, service) ==> Found(all, dist, x, 1))
    && (forall i, x :: 0 <= i < head && DependsOn(table, x, all[i]) ==> Found(all, dist, x, dist[i] + 1))
  }

  /** Every service within distance n was found, no farther than that. */
  lemma {:induction false} FoundWithin(table: Table, service: Service, all: seq<Service>, dist: seq<nat>, x: Service,
                                       n: nat)
    requires Searched(table, service, all, dist, |all|)
    requires n >= 1 && Reaches(table, x, service, n)
    ensures Found(all, dist, x, n)
    decreases n
  {
    if n == 1 {
      ReachesOne(table, x, service);
    } else {
      var mid := ReachesUnfold(table, x, service, n);
      FoundWithin(table, service, all, dist, mid, n - 1);
      var i :| 0 <= i < |all| && all[i] == mid && dist[i] <= n - 1;
      assert Found(all, dist, x, dist[i] + 1);
    }
  }

  /** The lists together are exactly the services with a dependency path to the given one, in
      non-decreasing order of shortest distance. */
  ghost predicate IsImpact(table: Table, service: Service, all: seq<Service>) {
    && NoRepeats(all)
    && (forall x :: x in all <==> exists n :: n >= 1 && Reaches(table, x, service, n))
    && (forall i, j, n :: 0 <= i <= j < |all| && n >= 1 && Reaches(table, all[j], service, n) ==>
          Within(table, all[i], service, n))
  }

  ghost predicate Within(table: Table, x: Service, service: Service, n: nat) {
    exists m :: 1 <= m <= n && Reaches(table, x, service, m)
  }

  lemma SearchComplete(table: Table, service: Service, all: seq<Service>, dist: seq<nat>)
    requires Searched(table, service, all, dist, |all|)
    ensures IsImpact(table, service, all)
  {
    forall x
      ensures x in all <==> exists n :: n >= 1 && Reaches(table, x, service, n)
    {
      FoundIffReaches(table, service, all, dist, x);
    }
    forall i, j, n | 0 <= i <= j < |all| && n >= 1 && Reaches(table, all[j], service, n)
      ensures Within(table, all[i], service, n)
    {
      NoCloser(table, service, all, dist, i, j, n);
    }
    hide Reaches, Within;
  }

  lemma FoundIffReaches(table: Table, service: Service, all: seq<Service>, dist: seq<nat>, x: Service)
    requires Searched(table, service, all, dist, |all|)
    ensures x in all <==> exists n :: n >= 1 && Reaches(table, x, service, n)
  {
    hide Reaches;
    if n :| n >= 1 && Reaches(table, x, service, n) {
      FoundWithin(table, service, all, dist, x, n);
    }
  }

  lemma NoCloser(table: Table, service: Service, all: seq<Service>, dist: seq<nat>, i: nat, j: nat, n: nat)
    requires Searched(table, service, all, dist, |all|) && i <= j < |all|
    requires n >= 1 && Reaches(table, all[j], service, n)
    ensures Within(table, all[i], service, n)
  {
    hide Reaches;
    FoundWithin(table, service, all, dist, all[j], n);
    var k :| 0 <= k < |all| && all[k] == all[j] && dist[k] <= n;
    assert k == j && dist[i] <= dist[j] && Reaches(table, all[i], service, dist[i]);
  }

  /** The direct dependents start the search. */
  lemma StartSearch(table: Table, service: Service)
    requires DistinctKeys(table)
    ensures var direct := Dependents(table, service);
            Searched(table, service, direct, seq(|direct|, _ => 1), 0)
  {
    var direct := Dependents(table, service);
    DependentsExact(table, service);
    forall i | 0 <= i < |direct|
      ensures Reaches(table, direct[i], service, 1)
    {
      ReachesOne(table, direct[i], service);
    }
    forall x | DependsOn(table, x, service)
      ensures Found(direct, seq(|direct|, _ => 1), x, 1)
    {
      assert x in direct;
    }
  }

  /** While the dependents of `all[head]` are being added: the first `done` of them are in. */
  ghost predicate Expanding(table: Table, service: Service, all: seq<Service>, dist: seq<nat>, head: nat, done: nat) {
    && Searched(table, service, all, dist, head) && head < |all|
    && done <= |Dependents(table, all[head])|
    && forall k :: 0 <= k < done ==> Found(all, dist, Dependents(table, all[head])[k], dist[head] + 1)
  }

  lemma AddDependent(table: Table, service: Service, all: seq<Service>, dist: seq<nat>, head: nat, done: nat)
    requires DistinctKeys(table) && Expanding(table, service, all, dist, head, done)
    requires done < |Dependents(table, all[head])|
    ensures var x := Dependents(table, all[head])[done];
            if x in all then Expanding(table, service, all, dist, head, done + 1)
            else Expanding(table, service, all + [x], dist + [dist[head] + 1], head, done + 1)
  {
    hide Found, Reaches, NoRepeats;
    var x, d := Dependents(table, all[head])[done], dist[head] + 1;
    if x in all {
      SeenIsFound(all, dist, x, d);
    } else {
      DependentsExact(table, all[head]);
      ReachesStep(table, x, all[head], service, dist[head]);
      AddFound(table, service, all, dist, head, x);
      hide Searched, DependsOn;
      forall k | 0 <= k < done + 1
        ensures Found(all + [x], dist + [d], Dependents(table, all[head])[k], d)
      {
        FoundGrows(all, dist, Dependents(table, all[head])[k], d, x, d);
      }
    }
  }

  lemma SeenIsFound(all: seq<Service>, dist: seq<nat>, x: Service, d: nat)
    requires |dist| == |all| && x in all && forall i :: 0 <= i < |all| ==> dist[i] <= d
    ensures Found(all, dist, x, d)
  {}

  lemma AddFound(table: Table, service: Service, all: seq<Service>, dist: seq<nat>, head: nat, x: Service)
    requires Searched(table, service, all, dist, head) && head < |all| && x !in all
    requires Reaches(table, x, service, dist[head] + 1)
    ensures Searched(table, service, all + [x], dist + [dist[head] + 1], head)
  {
    hide Found, Reaches, DependsOn, NoRepeats;
    var d := dist[head] + 1;
    forall y | DependsOn(table, y, service)
      ensures Found(all + [x], dist + [d], y, 1)
    {
      FoundGrows(all, dist, y, 1, x, d);
    }
    forall i, y | 0 <= i < head && DependsOn(table, y, all[i])
      ensures Found(all + [x], dist + [d], y, dist[i] + 1)
    {
      FoundGrows(all, dist, y, dist[i] + 1, x, d);
    }
    SnocNoRepeats(all, x);
    SnocSorted(dist, d);
  }

  lemma SnocSorted(dist: seq<nat>, d: nat)
    requires forall i, j :: 0 <= i <= j < |dist| ==> dist[i] <= dist[j]
    requires forall i :: 0 <= i < |dist| ==> dist[i] <= d
    ensures forall i, j :: 0 <= i <= j < |dist + [d]| ==> (dist + [d])[i] <= (dist + [d])[j]
  {}

  lemma Expanded(table: Table, service: Service, all: seq<Service>, dist: seq<nat>, head: nat)
    requires DistinctKeys(table)
    requires head < |all| && Expanding(table, service, all, dist, head, |Dependents(table, all[head])|)
    ensures Searched(table, service, all, dist, head + 1)
  {
    hide Found, Reaches;
    DependentsExact(table, all[head]);
    forall i, x | 0 <= i < head + 1 && DependsOn(table, x, all[i])
      ensures Found(all, dist, x, dist[i] + 1)
    {
      if i == head {
        var k :| 0 <= k < |Dependents(table, all[head])| && Dependents(table, all[head])[k] == x;
      }
    }
  }

  /** The search never has more services in hand than the table has entries. */
  lemma ExpandingBounds(table: Table, service: Service, all: seq<Service>, dist: seq<nat>, head: nat, done: nat)
    requires Expanding(table, service, all, dist, head, done)
    ensures |dist| == |all| && head < |all| <= |Names(table)| && done <= |Dependents(table, all[head])|
  {
    FoundAreNames(table, service, all, dist, head);
  }

  ghost function Names(table: Table): set<Service> {
    set e | e in table :: e.0
  }

  lemma FoundAreNames(table: Table, service: Service, all: seq<Service>, dist: seq<nat>, head: nat)
    requires Searched(table, service, all, dist, head)
    ensures |all| <= |Names(table)|
  {
    forall x | x in all
      ensures x in Names(table)
    {
      var i :| 0 <= i < |all| && all[i] == x;
      var w :| IsWalk(table, w) && |w| == dist[i] + 1 && w[0] == x;
      assert DependsOn(table, x, w[1]);
      var e :| 0 <= e < |table| && table[e].0 == x;
      assert table[e] in table;
    }
    NoRepeatsSize(all, Names(table));
  }

  /** Breadth-first search over dependents; terminates on cyclic tables too. */
  method ImpactAnalysis(table: Table, service: Service) returns (direct: seq<Service>, transitive: seq<Service>)
    requires DistinctKeys(table)
    ensures direct == Dependents(table, service)
    ensures IsImpact(table, service, direct + transitive)
  {
    hide Searched, Expanding, IsImpact, Found;
    direct := Dependents(table, service);
    StartSearch(table, service);
    var visited := set x | x in direct;
    var queue := direct;
    transitive := [];
    ghost var all, dist, head := direct, seq(|direct|, _ => 1), 0;
    while queue != []
      invariant all == direct + transitive && head <= |all| && queue == all[head..]
      invariant visited == set x | x in all
      invariant Searched(table, service, all, dist, head)
      decreases |Names(table)| - head
    {
      var svc := queue[0];
      queue := queue[1..];
      var dependents := Dependents(table, svc);
      StartExpanding(table, service, all, dist, head);
      for k := 0 to |dependents|
        invariant all == direct + transitive && visited == set x | x in all
        invariant head < |all| && all[head] == svc && queue == all[head + 1..]
        invariant Expanding(table, service, all, dist, head, k)
      {
        var dep := dependents[k];
        ExpandingBounds(table, service, all, dist, head, k);
        AddDependent(table, service, all, dist, head, k);
        if dep !in visited {
          visited := visited + {dep};
          transitive := transitive + [dep];
          queue := queue + [dep];
          all, dist := all + [dep], dist + [dist[head] + 1];
        }
      }
      ExpandingBounds(table, service, all, dist, head, |dependents|);
      Expanded(table, service, all, dist, head);
      head := head + 1;
    }
    SearchComplete(table, service, all, dist);
  }

  lemma StartExpanding(table: Table, service: Service, all: seq<Service>, dist: seq<nat>, head: nat)
    requires Searched(table, service, all, dist, head) && head < |all|
    ensures Expanding(table, service, all, dist, head, 0)
  {}
}
