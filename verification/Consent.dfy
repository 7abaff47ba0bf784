/** The consent registry: contracts checked, revoked and created, and what a revocation does to the
    data whose provenance names the revoked contracts. */
module Consent {
  import opened Options
  import opened Provenance

  datatype Contract = Contract(id: string, parties: (string, string), scope: set<string>, direction: string,
                               visibility: string, createdAt: string, revokedAt: Option<string>,
                               principalClass: string, guardian: Option<string>)
  {
    predicate Active() { revokedAt.None? }

    predicate Names(person: string) { parties.0 == person || parties.1 == person }
  }

  /** `keys` lists the dictionary in insertion order. */
  datatype Registry = Registry(keys: seq<string>, contracts: map<string, Contract>)

  ghost predicate WellFormed(r: Registry) {
    && (forall k :: k in r.keys <==> k in r.contracts)
    && (forall i, j :: 0 <= i < j < |r.keys| ==> r.keys[i] != r.keys[j])
    && (forall k :: k in r.contracts ==> r.contracts[k].id == k)
  }

  predicate Binds(r: Registry, id: string, person: string) {
    id in r.contracts && r.contracts[id].Active() && r.contracts[id].Names(person)
  }

  ghost predicate Permits(r: Registry, person: string, category: string) {
    exists id :: Binds(r, id, person) && category in r.contracts[id].scope
  }

  /** The ids that provenance is evaluated against. */
  function ActiveIds(r: Registry): set<string> {
    set id | id in r.contracts && r.contracts[id].Active()
  }

  /** The keys among the first `n` whose contracts bind the person, in order. */
  function BoundKeys(r: Registry, n: nat, person: string): (ids: seq<string>)
    requires n <= |r.keys|
    ensures forall id :: id in ids <==> id in r.keys[..n] && Binds(r, id, person)
  {
    if n == 0 then []
    else if Binds(r, r.keys[n - 1], person) then BoundKeys(r, n - 1, person) + [r.keys[n - 1]]
    else BoundKeys(r, n - 1, person)
  }

  lemma NextBoundKey(r: Registry, n: nat, person: string)
    requires n < |r.keys|
    ensures BoundKeys(r, n + 1, person) ==
            BoundKeys(r, n, person) + if Binds(r, r.keys[n], person) then [r.keys[n]] else []
  {}

  lemma NoBoundKey(r: Registry, person: string)
    ensures BoundKeys(r, 0, person) == []
  {}

  /** A table with the same keys whose every listed entry is revoked is the purged table. */
  lemma KeysWellFormed(r: Registry, contracts: map<string, Contract>, person: string, stamps: string -> string)
    requires WellFormed(r) && contracts.Keys == r.contracts.Keys
    ensures forall k :: 0 <= k < |r.keys| ==> r.keys[k] in contracts
    ensures forall j, k :: 0 <= j < |r.keys| && 0 <= k < |r.keys| && j != k ==> r.keys[j] != r.keys[k]
    ensures (forall k :: 0 <= k < |r.keys| ==>
               contracts[r.keys[k]] == Revoked(r.contracts[r.keys[k]], person, stamps(r.keys[k])))
            ==> Registry(r.keys, contracts) == Purged(r, person, stamps) && WellFormed(Registry(r.keys, contracts))
  {}

  function Revoked(c: Contract, person: string, stamp: string): Contract {
    if c.Active() && c.Names(person) then c.(revokedAt := Some(stamp)) else c
  }

  /** Every active contract that names the person is revoked; nothing else changes. */
  function Purged(r: Registry, person: string, stamps: string -> string): Registry {
    Registry(r.keys, map id | id in r.contracts :: Revoked(r.contracts[id], person, stamps(id)))
  }

  function NewId(person: string, contractId: Option<string>, now: string): string {
    if contractId.Some? && contractId.value != "" then contractId.value
    else "contract-" + person + "-" + (if |now| <= 10 then now else now[..10])
  }

  const OPERATOR := "operator"

  function NewContract(id: string, person: string, scope: set<string>, direction: string, visibility: string,
                       now: string): Contract {
    Contract(id, (OPERATOR, person), scope, direction, visibility, now, None, "", None)
  }

  /** Dictionary assignment: a new key goes last, a known one keeps its place. */
  function Put(r: Registry, c: Contract): Registry {
    Registry(if c.id in r.contracts then r.keys else r.keys + [c.id], r.contracts[c.id := c])
  }

  /** Entering what a directory of contract files holds, in order; None is a file that is empty or does
      not parse. */
  function Loaded(r: Registry, files: seq<Option<Contract>>): Registry {
    if files == [] then r else
      var init, last := Loaded(r, files[..|files| - 1]), files[|files| - 1];
      if last.Some? then Put(init, last.value) else init
  }

  function CountActive(files: seq<Option<Contract>>): nat {
    if files == [] then 0 else
      var last := files[|files| - 1];
      CountActive(files[..|files| - 1]) + if last.Some? && last.value.Active() then 1 else 0
  }

  class ConsentRegistry {
    var keys: seq<string>
    var contracts: map<string, Contract>

    ghost function Snapshot(): Registry
      reads this
    {
      Registry(keys, contracts)
    }

    constructor ()
      ensures Snapshot() == Registry([], map[]) && WellFormed(Snapshot())
    {
      keys, contracts := [], map[];
    }

    /** Dictionary assignment under the contract's id. */
    method Enter(c: Contract)
      requires WellFormed(Snapshot())
      modifies this
      ensures Snapshot() == Put(old(Snapshot()), c) && WellFormed(Snapshot())
    {
      if c.id !in contracts {
        keys := keys + [c.id];
      }
      contracts := contracts[c.id := c];
    }

    /** Reads the contract files; the count is of active ones, files that overwrite each other included. */
    method Load(files: seq<Option<Contract>>) returns (count: nat)
      requires WellFormed(Snapshot())
      modifies this
      ensures Snapshot() == Loaded(old(Snapshot()), files) && WellFormed(Snapshot())
      ensures count == CountActive(files)
    {
      hide Put, WellFormed;
      count := 0;
      for i := 0 to |files|
        invariant Snapshot() == Loaded(old(Snapshot()), files[..i]) && WellFormed(Snapshot())
        invariant count == CountActive(files[..i])
      {
        assert files[..i + 1][..i] == files[..i];
        if files[i].None? {
          continue;
        }
        Enter(files[i].value);
        if files[i].value.Active() {
          count := count + 1;
        }
      }
      assert files[..|files|] == files;
    }

    /** Is there an active contract that names the person and covers the category? */
    method ContractCheck(person: string, category: string) returns (allowed: bool)
      requires WellFormed(Snapshot())
      ensures allowed <==> Permits(Snapshot(), person, category)
    {
      for i := 0 to |keys|
        invariant forall k :: 0 <= k < i && Binds(Snapshot(), keys[k], person) ==>
                    category !in contracts[keys[k]].scope
      {
        var c := contracts[keys[i]];
        if !c.Active() {
          continue;
        }
        if c.Names(person) && category in c.scope {
          assert Binds(Snapshot(), keys[i], person);
          return true;
        }
      }
      allowed := false;
    }

    method SubjectDataCategories(person: string) returns (categories: set<string>)
      requires WellFormed(Snapshot())
      ensures forall c :: c in categories <==> Permits(Snapshot(), person, c)
    {
      categories := {};
      for i := 0 to |keys|
        invariant forall c :: c in categories <==>
                    exists k :: 0 <= k < i && Binds(Snapshot(), keys[k], person) && c in contracts[keys[k]].scope
      {
        var c := contracts[keys[i]];
        if c.Active() && c.Names(person) {
          assert Binds(Snapshot(), keys[i], person);
          categories := categories + c.scope;
        }
      }
    }

    /** Revokes every active contract that names the person; `stamps` are the clock readings. */
    method PurgeSubject(person: string, stamps: string -> string) returns (revoked: seq<string>)
      requires WellFormed(Snapshot())
      modifies this`contracts
      ensures WellFormed(Snapshot())
      ensures Snapshot() == Purged(old(Snapshot()), person, stamps)
      ensures revoked == BoundKeys(old(Snapshot()), |keys|, person)
    {
      hide BoundKeys, WellFormed;
      revoked := [];
      ghost var r := Snapshot();
      NoBoundKey(r, person);
      KeysWellFormed(r, contracts, person, stamps);
      for i := 0 to |keys|
        invariant contracts.Keys == r.contracts.Keys
        invariant forall k :: 0 <= k < i ==>
          contracts[keys[k]] == Revoked(r.contracts[keys[k]], person, stamps(keys[k]))
        invariant forall k :: i <= k < |keys| ==> contracts[keys[k]] == r.contracts[keys[k]]
        invariant revoked == BoundKeys(r, i, person)
      {
        var c := contracts[keys[i]];
        NextBoundKey(r, i, person);
        if c.Active() && c.Names(person) {
          contracts := contracts[keys[i] := c.(revokedAt := Some(stamps(keys[i])))];
          revoked := revoked + [keys[i]];
        }
      }
      KeysWellFormed(r, contracts, person, stamps);
    }

    method CreateContract(person: string, scope: set<string>, contractId: Option<string>, direction: string,
                          visibility: string, now: string)
      returns (c: Contract)
      requires WellFormed(Snapshot())
      modifies this
      ensures c == NewContract(NewId(person, contractId, now), person, scope, direction, visibility, now)
      ensures contractId.Some? && contractId.value != "" ==> c.id == contractId.value
      ensures contractId.None? || contractId.value == "" ==>
                c.id == "contract-" + person + "-" + (if |now| <= 10 then now else now[..10])
      ensures c.parties == ("operator", person) && c.scope == scope && c.Active()
      ensures c.direction == direction && c.visibility == visibility && c.createdAt == now
      ensures Snapshot() == Put(old(Snapshot()), c) && WellFormed(Snapshot())
      ensures c.id in contracts && contracts[c.id] == c
      ensures forall id :: id != c.id ==> (id in contracts <==> id in old(contracts))
                                          && (id in contracts ==> contracts[id] == old(contracts)[id])
      ensures keys == if c.id in old(contracts) then old(keys) else old(keys) + [c.id]
    {
      c := NewContract(NewId(person, contractId, now), person, scope, direction, visibility, now);
      Enter(c);
    }
  }

  // ---------- one purge ----------

  lemma HasMember(ids: seq<string>)
    ensures ids != [] ==> exists id :: id in ids
  {
    if ids != [] {
      assert ids[0] in ids;
    }
  }

  /** A purge leaves the person nothing, revokes exactly the returned contracts, and leaves every
      contract that does not name the person as it was. */
  lemma PurgeMeaning(r: Registry, person: string, stamps: string -> string)
    requires WellFormed(r)
    ensures var after, revoked := Purged(r, person, stamps), BoundKeys(r, |r.keys|, person);
            && (forall category :: !Permits(after, person, category))
            && ActiveIds(after) == ActiveIds(r) - SetOf(revoked)
            && (forall id :: id in revoked <==> Binds(r, id, person))
            && after.contracts.Keys == r.contracts.Keys
            && (forall id :: id in r.contracts && id !in revoked ==> after.contracts[id] == r.contracts[id])
            && (forall id :: id in revoked ==>
                  after.contracts[id] == r.contracts[id].(revokedAt := Some(stamps(id))))
            && BoundKeys(after, |after.keys|, person) == []
  {
    assert r.keys[..|r.keys|] == r.keys;
    var after := Purged(r, person, stamps);
    assert forall id :: !Binds(after, id, person);
    var ids := BoundKeys(after, |after.keys|, person);
    HasMember(ids);
  }

  /** Others lose exactly the contracts they share with the purged person. */
  lemma PurgeElsewhere(r: Registry, person: string, other: string, category: string, stamps: string -> string)
    ensures Permits(Purged(r, person, stamps), other, category) <==>
            exists id :: Binds(r, id, other) && !r.contracts[id].Names(person) && category in r.contracts[id].scope
  {
    var after := Purged(r, person, stamps);
    if Permits(after, other, category) {
      var id :| Binds(after, id, other) && category in after.contracts[id].scope;
      assert Binds(r, id, other) && !r.contracts[id].Names(person);
    }
    if id :| Binds(r, id, other) && !r.contracts[id].Names(person) && category in r.contracts[id].scope {
      assert Binds(after, id, other);
    }
  }

  /** Data alive after a purge: some sufficient set of contracts was active and avoids the revoked ones. */
  lemma AliveAfterPurge(r: Registry, person: string, stamps: string -> string, e: Expr)
    requires WellFormed(r)
    ensures Evaluate(e, ActiveIds(Purged(r, person, stamps))) <==>
            exists w :: w in Witnesses(e) && w <= ActiveIds(r) && forall id :: id in w ==> !Binds(r, id, person)
  {
    var after := ActiveIds(Purged(r, person, stamps));
    EvaluateIffWitness(e, after);
    assert forall id :: id in after <==> id in ActiveIds(r) && !Binds(r, id, person);
    if Evaluate(e, after) {
      var w :| w in Witnesses(e) && w <= after;
      assert w <= ActiveIds(r) && forall id :: id in w ==> !Binds(r, id, person);
    }
    if w :| w in Witnesses(e) && w <= ActiveIds(r) && forall id :: id in w ==> !Binds(r, id, person) {
      assert w <= after;
    }
  }

  /** A purge never brings data back, and flat data dies exactly when it names a revoked contract. */
  lemma PurgeAndData<T>(r: Registry, person: string, stamps: string -> string, d: Labeled<T>)
    requires WellFormed(r)
    ensures var before, after := ActiveIds(r), ActiveIds(Purged(r, person, stamps));
            && (EvaluateProvenance(d, after) ==> EvaluateProvenance(d, before))
            && (d.expr.None? ==>
                  (EvaluateProvenance(d, after) <==>
                   EvaluateProvenance(d, before) && SetOf(d.provenance) !! SetOf(BoundKeys(r, |r.keys|, person))))
  {
    var before, after := ActiveIds(r), ActiveIds(Purged(r, person, stamps));
    PurgeMeaning(r, person, stamps);
    if EvaluateProvenance(d, after) {
      Monotone(EffectiveExpr(d), after, before);
    }
    if d.expr.None? {
      FlatMeansAll(d.provenance);
      EvaluateIffWitness(Flat(d.provenance), before);
      EvaluateIffWitness(Flat(d.provenance), after);
    }
  }
}
