/** Consent over runs of creations, purges and reloads: exactly which contracts are active, who is
    permitted what, and which data is alive. */
module ConsentRuns {
  import opened Consent
  import opened Options
  import opened Provenance

  datatype Action =
    | Create(person: string, scope: set<string>, contractId: Option<string>, direction: string, visibility: string,
             now: string)
    | Purge(person: string, stamps: string -> string)
    | Load(files: seq<Option<Contract>>)

  function CreatedId(a: Action): string
    requires a.Create?
  {
    NewId(a.person, a.contractId, a.now)
  }

  /** The contract a creation registers, which is also what it writes to the contract's file. */
  function Created(a: Action): Contract
    requires a.Create?
  {
    NewContract(CreatedId(a), a.person, a.scope, a.direction, a.visibility, a.now)
  }

  function Step(r: Registry, a: Action): Registry {
    match a
    case Create(_, _, _, _, _, _) => Put(r, Created(a))
    case Purge(person, stamps) => Purged(r, person, stamps)
    case Load(files) => Loaded(r, files)
  }

  function Run(r: Registry, actions: seq<Action>): Registry {
    if actions == [] then r else Step(Run(r, actions[..|actions| - 1]), actions[|actions| - 1])
  }

  lemma {:induction false} LoadKeepsWellFormed(r: Registry, files: seq<Option<Contract>>)
    requires WellFormed(r)
    ensures WellFormed(Loaded(r, files))
  {
    if files != [] {
      LoadKeepsWellFormed(r, files[..|files| - 1]);
    }
  }

  lemma {:induction false} RunKeepsWellFormed(r: Registry, actions: seq<Action>)
    requires WellFormed(r)
    ensures WellFormed(Run(r, actions))
  {
    if actions != [] {
      var last := actions[|actions| - 1];
      RunKeepsWellFormed(r, actions[..|actions| - 1]);
      if last.Load? {
        LoadKeepsWellFormed(Run(r, actions[..|actions| - 1]), last.files);
      }
    }
  }

  // ---------- where an active contract comes from ----------

  /** The last file with this id. */
  function LastFile(files: seq<Option<Contract>>, id: string): Option<Contract> {
    if files == [] then None else
      var last := files[|files| - 1];
      if last.Some? && last.value.id == id then last else LastFile(files[..|files| - 1], id)
  }

  /** What an action enters under an id. */
  function Entered(a: Action, id: string): Option<Contract> {
    match a
    case Create(_, _, _, _, _, _) => if CreatedId(a) == id then Some(Created(a)) else None
    case Purge(_, _) => None
    case Load(files) => LastFile(files, id)
  }

  /** An active contract is neither replaced nor revoked by the actions. */
  ghost predicate Lasts(c: Contract, id: string, actions: seq<Action>) {
    c.Active() && forall n :: 0 <= n < |actions| ==> Spares(actions[n], c, id)
  }

  predicate Spares(a: Action, c: Contract, id: string) {
    Entered(a, id).None? && (a.Purge? ==> !c.Names(a.person))
  }

  /** The contract was there at the start, or some action entered it, and nothing after that ended it. */
  ghost predicate Survives(r: Registry, actions: seq<Action>, id: string, c: Contract) {
    || (id in r.contracts && r.contracts[id] == c && Lasts(c, id, actions))
    || exists n :: 0 <= n < |actions| && EnteredAt(actions, n, id, c)
  }

  ghost predicate EnteredAt(actions: seq<Action>, n: nat, id: string, c: Contract)
    requires n < |actions|
  {
    Entered(actions[n], id) == Some(c) && Lasts(c, id, actions[n + 1..])
  }

  ghost predicate ActiveAs(r: Registry, id: string, c: Contract) {
    id in r.contracts && r.contracts[id] == c && c.Active()
  }

  lemma {:induction false} LoadedAt(r: Registry, files: seq<Option<Contract>>, id: string)
    ensures var file := LastFile(files, id);
            if file.Some? then id in Loaded(r, files).contracts && Loaded(r, files).contracts[id] == file.value
            else (id in Loaded(r, files).contracts <==> id in r.contracts)
                 && (id in r.contracts ==> Loaded(r, files).contracts[id] == r.contracts[id])
  {
    if files != [] {
      LoadedAt(r, files[..|files| - 1], id);
    }
  }

  /** What one action does to what is active under an id. */
  lemma StepAt(r: Registry, a: Action, id: string, c: Contract)
    ensures ActiveAs(Step(r, a), id, c) <==>
            (Entered(a, id) == Some(c) && c.Active()) || (ActiveAs(r, id, c) && Spares(a, c, id))
  {
    if a.Load? {
      LoadedAt(r, a.files, id);
    }
  }

  lemma LastsSnoc(c: Contract, id: string, actions: seq<Action>, a: Action)
    ensures Lasts(c, id, actions + [a]) <==> Lasts(c, id, actions) && Spares(a, c, id)
  {
    hide Spares;
    var all := actions + [a];
    assert all[|actions|] == a && forall n :: 0 <= n < |actions| ==> all[n] == actions[n];
  }

  lemma SurvivesSnoc(r: Registry, init: seq<Action>, a: Action, id: string, c: Contract)
    ensures Survives(r, init + [a], id, c) <==>
            (Entered(a, id) == Some(c) && c.Active()) || (Survives(r, init, id, c) && Spares(a, c, id))
  {
    hide Lasts, Spares, Entered;
    var actions := init + [a];
    LastsSnoc(c, id, init, a);
    forall n: nat | n < |init| ensures EnteredAt(actions, n, id, c) <==> EnteredAt(init, n, id, c) && Spares(a, c, id) {
      LastsSnoc(c, id, init[n + 1..], a);
      assert actions[n + 1..] == init[n + 1..] + [a];
    }
    assert EnteredAt(actions, |init|, id, c) <==> Entered(a, id) == Some(c) && c.Active() by {
      assert actions[|init| + 1..] == [];
      LastsNothing(c, id);
    }
    hide EnteredAt;
  }

  lemma LastsNothing(c: Contract, id: string)
    ensures Lasts(c, id, []) <==> c.Active()
  {}

  /** After any run a contract is active under an id exactly when it was so at the start or some action
      entered it, and since then no action entered the id again or purged one of its parties. */
  lemma {:induction false} ActiveIffSurvives(r: Registry, actions: seq<Action>, id: string, c: Contract)
    ensures ActiveAs(Run(r, actions), id, c) <==> Survives(r, actions, id, c)
  {
    if actions == [] {
      LastsNothing(c, id);
    } else {
      var init, last := actions[..|actions| - 1], actions[|actions| - 1];
      ActiveIffSurvives(r, init, id, c);
      StepAt(Run(r, init), last, id, c);
      SurvivesSnoc(r, init, last, id, c);
      assert actions == init + [last];
      hide Survives, ActiveAs, Step, Entered, Spares;
    }
  }

  /** The active ids of a run. */
  lemma ActiveIdsAfterRun(r: Registry, actions: seq<Action>, id: string)
    ensures id in ActiveIds(Run(r, actions)) <==> exists c :: Survives(r, actions, id, c)
  {
    hide Survives, Run;
    var after := Run(r, actions);
    if id in ActiveIds(after) {
      ActiveIffSurvives(r, actions, id, after.contracts[id]);
    }
    if c :| Survives(r, actions, id, c) {
      ActiveIffSurvives(r, actions, id, c);
    }
  }

  ghost predicate AllSurvive(r: Registry, actions: seq<Action>, ids: set<string>) {
    forall id :: id in ids ==> exists c :: Survives(r, actions, id, c)
  }

  /** After any run a datum is alive exactly when some witness has every contract survive. */
  lemma AliveAfterRun(r: Registry, actions: seq<Action>, e: Expr)
    ensures Evaluate(e, ActiveIds(Run(r, actions))) <==>
            exists w :: w in Witnesses(e) && AllSurvive(r, actions, w)
  {
    hide Survives, Run, Witnesses;
    var after := ActiveIds(Run(r, actions));
    EvaluateIffWitness(e, after);
    forall w ensures w <= after <==> AllSurvive(r, actions, w) {
      forall id ensures id in after <==> exists c :: Survives(r, actions, id, c) {
        ActiveIdsAfterRun(r, actions, id);
      }
    }
  }

  /** After any run a person is permitted a category exactly by a surviving contract that names them
      and covers it. */
  lemma PermitsAfterRun(r: Registry, actions: seq<Action>, person: string, category: string)
    ensures Permits(Run(r, actions), person, category) <==>
            exists id, c :: Survives(r, actions, id, c) && c.Names(person) && category in c.scope
  {
    hide Survives, Run;
    var after := Run(r, actions);
    if Permits(after, person, category) {
      var id :| Binds(after, id, person) && category in after.contracts[id].scope;
      ActiveIffSurvives(r, actions, id, after.contracts[id]);
      assert Survives(r, actions, id, after.contracts[id]);
    }
    if id, c :| Survives(r, actions, id, c) && c.Names(person) && category in c.scope {
      ActiveIffSurvives(r, actions, id, c);
      assert Binds(after, id, person);
    }
  }

  /** No action enters an active contract naming the person. */
  ghost predicate NoContractFor(actions: seq<Action>, person: string) {
    forall n, id :: 0 <= n < |actions| && Entered(actions[n], id).Some? && Entered(actions[n], id).value.Active() ==>
      !Entered(actions[n], id).value.Names(person)
  }

  /** After a purge the person has no permission at all until an active contract naming them is entered,
      whatever else is created, purged or loaded. */
  lemma PurgePersists(r: Registry, person: string, stamps: string -> string, actions: seq<Action>, category: string)
    requires NoContractFor(actions, person)
    ensures !Permits(Run(Purged(r, person, stamps), actions), person, category)
  {
    hide Entered, Run;
    PermitsAfterRun(Purged(r, person, stamps), actions, person, category);
  }

  // ---------- what brings data back ----------

  /** A creation brings data to life exactly when its id was all that some witness lacked. */
  lemma CreateAndData(r: Registry, a: Action, e: Expr)
    requires a.Create?
    ensures Evaluate(e, ActiveIds(Step(r, a))) <==>
            exists w :: w in Witnesses(e) && w <= ActiveIds(r) + {CreatedId(a)}
  {
    EvaluateIffWitness(e, ActiveIds(Step(r, a)));
    assert ActiveIds(Step(r, a)) == ActiveIds(r) + {CreatedId(a)};
  }

  /** No action enters anything under this id. */
  ghost predicate NoContractUnder(actions: seq<Action>, id: string) {
    forall n :: 0 <= n < |actions| ==> Entered(actions[n], id).None?
  }

  /** Data all of whose witnesses lost a contract stays dead while none of those ids is entered anew. */
  lemma DeadDataStaysDead(r: Registry, actions: seq<Action>, e: Expr)
    requires !Evaluate(e, ActiveIds(r))
    requires forall id :: id in Union(Witnesses(e)) && id !in ActiveIds(r) ==> NoContractUnder(actions, id)
    ensures !Evaluate(e, ActiveIds(Run(r, actions)))
  {
    hide Entered, Run, Witnesses;
    EvaluateIffWitness(e, ActiveIds(r));
    AliveAfterRun(r, actions, e);
    forall w | w in Witnesses(e) ensures !AllSurvive(r, actions, w) {
      var id :| id in w && id !in ActiveIds(r);
      assert id in Union(Witnesses(e)) && NoContractUnder(actions, id);
    }
  }

  /** Two default ids are the same exactly for the same person on the same day. */
  lemma DefaultIdsCollide(person: string, other: string, now: string, later: string)
    requires |now| >= 10 && |later| >= 10
    ensures NewId(person, None, now) == NewId(other, None, later) <==> person == other && now[..10] == later[..10]
  {
    var a, b := NewId(person, None, now), NewId(other, None, later);
    assert |a| == 9 + |person| + 1 + 10 && |b| == 9 + |other| + 1 + 10;
    assert a[9..9 + |person|] == person && a[|a| - 10..] == now[..10];
    assert b[9..9 + |other|] == other && b[|b| - 10..] == later[..10];
  }

  /** A contract created under the default id on the day of a purge takes the purged contract's id and
      revives the data labelled with it. */
  lemma SameDayContractRevives(r: Registry, person: string, now: string, later: string, stamps: string -> string,
                               scope: set<string>)
    requires |now| >= 10 && |later| >= 10 && now[..10] == later[..10]
    ensures var c := Create(person, scope, None, "one_way", "on_request", now);
            var id := CreatedId(c);
            var purged := Purged(Step(r, c), person, stamps);
            && !Evaluate(Leaf(id), ActiveIds(purged))
            && Evaluate(Leaf(id), ActiveIds(Step(purged, c.(now := later))))
  {
    var c := Create(person, scope, None, "one_way", "on_request", now);
    DefaultIdsCollide(person, person, now, later);
    assert CreatedId(c.(now := later)) == CreatedId(c);
  }

  /** A purge writes no file: reading the directory again, with the file the creation wrote, makes the
      purged contract active and the person's categories permitted again. */
  lemma ReloadRevives(r: Registry, a: Action, person: string, stamps: string -> string,
                      files: seq<Option<Contract>>, category: string)
    requires a.Create? && (person == a.person || person == OPERATOR)
    requires LastFile(files, CreatedId(a)) == Some(Created(a)) && category in a.scope
    ensures !Permits(Run(r, [a, Purge(person, stamps)]), person, category)
    ensures Permits(Run(r, [a, Purge(person, stamps), Load(files)]), person, category)
    ensures CreatedId(a) in ActiveIds(Run(r, [a, Purge(person, stamps), Load(files)]))
  {
    var purge, load := Purge(person, stamps), Load(files);
    assert [a, purge, load][..2] == [a, purge] && [a, purge][..1] == [a];
    LoadedAt(Run(r, [a, purge]), files, CreatedId(a));
    assert Binds(Run(r, [a, purge, load]), CreatedId(a), person);
    assert forall id :: !Binds(Run(r, [a, purge]), id, person);
  }

  // ---------- what a load reports ----------

  /** No two files hold contracts of one id. */
  ghost predicate DistinctFiles(files: seq<Option<Contract>>) {
    forall j, k :: 0 <= j < k < |files| && files[j].Some? && files[k].Some? ==> files[j].value.id != files[k].value.id
  }

  /** What a load into an empty registry reports is never less than the number of active contracts it
      leaves, and is that number if no two files share an id. */
  lemma {:induction false} LoadReports(files: seq<Option<Contract>>)
    ensures var after := Loaded(Registry([], map[]), files);
            && |ActiveIds(after)| <= CountActive(files)
            && (DistinctFiles(files) ==> |ActiveIds(after)| == CountActive(files))
  {
    if files == [] {
      assert ActiveIds(Registry([], map[])) == {};
    } else {
      var init, last := files[..|files| - 1], files[|files| - 1];
      LoadReports(init);
      if last.Some? {
        var before := Loaded(Registry([], map[]), init);
        LoadedAt(Registry([], map[]), init, last.value.id);
        if DistinctFiles(files) { FreshFile(init, last.value.id); }
        PutActive(before, last.value);
      }
    }
  }

  lemma {:induction false} FreshFile(files: seq<Option<Contract>>, id: string)
    requires forall k :: 0 <= k < |files| && files[k].Some? ==> files[k].value.id != id
    ensures LastFile(files, id).None?
  {
    if files != [] {
      FreshFile(files[..|files| - 1], id);
    }
  }

  lemma PutActive(r: Registry, c: Contract)
    ensures var before, after := ActiveIds(r), ActiveIds(Put(r, c));
            && after == (if c.Active() then before + {c.id} else before - {c.id})
            && |after| <= |before| + (if c.Active() then 1 else 0)
            && (c.id !in r.contracts ==> |after| == |before| + (if c.Active() then 1 else 0))
  {
    var before, after := ActiveIds(r), ActiveIds(Put(r, c));
    assert after == (if c.Active() then before + {c.id} else before - {c.id});
    assert c.id !in before ==> before - {c.id} == before;
  }
}
