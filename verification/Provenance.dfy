/** Provenance expressions: which combinations of consent contracts keep a datum alive. The witness
    sets of an expression are its meaning; evaluation, the simplifying constructors and the flat
    form are all compared with them. */
module Provenance {
  import opened Options

  datatype Expr = Zero | One | Leaf(id: string) | Tensor(left: Expr, right: Expr) | Plus(left: Expr, right: Expr)

  predicate Evaluate(e: Expr, active: set<string>) {
    match e
    case Zero => false
    case One => true
    case Leaf(id) => id in active
    case Tensor(l, r) => Evaluate(l, active) && Evaluate(r, active)
    case Plus(l, r) => Evaluate(l, active) || Evaluate(r, active)
  }

  function ContractIds(e: Expr): set<string> {
    match e
    case Zero | One => {}
    case Leaf(id) => {id}
    case Tensor(l, r) => ContractIds(l) + ContractIds(r)
    case Plus(l, r) => ContractIds(l) + ContractIds(r)
  }

  function TensorOf(a: Expr, b: Expr): Expr {
    if a.One? then b
    else if b.One? then a
    else if a.Zero? || b.Zero? then Zero
    else Tensor(a, b)
  }

  function PlusOf(a: Expr, b: Expr): Expr {
    if a.Zero? then b
    else if b.Zero? then a
    else if a == b then a
    else Plus(a, b)
  }

  // ---------- the meaning ----------

  function Products(a: set<set<string>>, b: set<set<string>>): set<set<string>> {
    set v, w | v in a && w in b :: v + w
  }

  /** The sets of contracts that each suffice. */
  function Witnesses(e: Expr): set<set<string>> {
    match e
    case Zero => {}
    case One => {{}}
    case Leaf(id) => {{id}}
    case Tensor(l, r) => Products(Witnesses(l), Witnesses(r))
    case Plus(l, r) => Witnesses(l) + Witnesses(r)
  }

  predicate Satisfied(witnesses: set<set<string>>, active: set<string>) {
    exists w :: w in witnesses && w <= active
  }

  lemma ProductsSatisfied(a: set<set<string>>, b: set<set<string>>, active: set<string>)
    ensures Satisfied(Products(a, b), active) <==> Satisfied(a, active) && Satisfied(b, active)
  {
    if Satisfied(Products(a, b), active) {
      var p :| p in Products(a, b) && p <= active;
      var v, w :| v in a && w in b && p == v + w;
    }
    if Satisfied(a, active) && Satisfied(b, active) {
      var v :| v in a && v <= active;
      var w :| w in b && w <= active;
      assert v + w in Products(a, b);
    }
  }

  lemma {:induction false} EvaluateIffWitness(e: Expr, active: set<string>)
    ensures Evaluate(e, active) <==> Satisfied(Witnesses(e), active)
  {
    match e
    case Zero =>
    case One => assert {} in Witnesses(e);
    case Leaf(id) => assert {id} in Witnesses(e);
    case Tensor(l, r) =>
      EvaluateIffWitness(l, active);
      EvaluateIffWitness(r, active);
      ProductsSatisfied(Witnesses(l), Witnesses(r), active);
    case Plus(l, r) =>
      EvaluateIffWitness(l, active);
      EvaluateIffWitness(r, active);
  }

  lemma ProductsUnit(w: set<set<string>>, p: set<string>)
    ensures p in Products({{}}, w) <==> p in w
    ensures p in Products(w, {{}}) <==> p in w
  {
    var unit: set<set<string>> := {{}};
    assert forall x: set<string> :: {} + x == x && x + {} == x;
    if p in w {
      assert {} in unit && p == {} + p && p == p + {};
    }
  }

  lemma ProductsOfUnitOrZero(w: set<set<string>>)
    ensures Products({{}}, w) == w && Products(w, {{}}) == w
    ensures Products({}, w) == {} && Products(w, {}) == {}
  {
    assert Products({{}}, w) == w && Products(w, {{}}) == w by {
      forall p ensures (p in Products({{}}, w) <==> p in w) && (p in Products(w, {{}}) <==> p in w) {
        ProductsUnit(w, p);
      }
    }
  }

  /** The simplifications change no witness set. */
  lemma ConstructorsKeepWitnesses(a: Expr, b: Expr)
    ensures Witnesses(TensorOf(a, b)) == Products(Witnesses(a), Witnesses(b))
    ensures Witnesses(PlusOf(a, b)) == Witnesses(a) + Witnesses(b)
  {
    hide Products;
    ProductsOfUnitOrZero(Witnesses(a));
    ProductsOfUnitOrZero(Witnesses(b));
  }

  lemma Monotone(e: Expr, small: set<string>, large: set<string>)
    requires small <= large && Evaluate(e, small)
    ensures Evaluate(e, large)
  {}

  // ---------- what constructors can build ----------

  /** Exactly the expressions that the constructors return. */
  predicate Built(e: Expr) {
    match e
    case Tensor(l, r) => Built(l) && Built(r) && !l.Zero? && !l.One? && !r.Zero? && !r.One?
    case Plus(l, r) => Built(l) && Built(r) && !l.Zero? && !r.Zero? && l != r
    case _ => true
  }

  lemma ConstructorsBuild(a: Expr, b: Expr)
    requires Built(a) && Built(b)
    ensures Built(TensorOf(a, b)) && Built(PlusOf(a, b))
    ensures Built(Tensor(a, b)) <==> TensorOf(a, b) == Tensor(a, b)
    ensures Built(Plus(a, b)) <==> PlusOf(a, b) == Plus(a, b)
  {}

  /** Only Zero denies always; anything else has a witness. */
  lemma {:induction false} BuiltHasWitness(e: Expr)
    requires Built(e)
    ensures Witnesses(e) == {} <==> e == Zero
  {
    match e
    case Zero =>
    case One => assert {} in Witnesses(e);
    case Leaf(id) => assert {id} in Witnesses(e);
    case Tensor(l, r) =>
      BuiltHasWitness(l);
      BuiltHasWitness(r);
      var v :| v in Witnesses(l);
      var w :| w in Witnesses(r);
      assert v + w in Witnesses(e);
    case Plus(l, r) => BuiltHasWitness(l);
  }

  function Union(witnesses: set<set<string>>): set<string> {
    set w, id | w in witnesses && id in w :: id
  }

  lemma UnionOfProducts(a: set<set<string>>, b: set<set<string>>)
    requires a != {} && b != {}
    ensures Union(Products(a, b)) == Union(a) + Union(b)
  {}

  /** The flat form lists exactly the contracts that occur in some witness. */
  lemma {:induction false} IdsAreUnionOfWitnesses(e: Expr)
    requires Built(e)
    ensures ContractIds(e) == Union(Witnesses(e))
  {
    match e
    case Zero =>
    case One =>
    case Leaf(id) => assert {id} in Witnesses(e);
    case Tensor(l, r) =>
      IdsAreUnionOfWitnesses(l);
      IdsAreUnionOfWitnesses(r);
      BuiltHasWitness(l);
      BuiltHasWitness(r);
      UnionOfProducts(Witnesses(l), Witnesses(r));
    case Plus(l, r) =>
      IdsAreUnionOfWitnesses(l);
      IdsAreUnionOfWitnesses(r);
      assert Union(Witnesses(l) + Witnesses(r)) == Union(Witnesses(l)) + Union(Witnesses(r));
  }

  /** Why that asks for built expressions: this one, which no constructor returns, lists a contract it has
      no witness for. */
  lemma RawTensorListsTooMuch(id: string)
    ensures var e := Tensor(Zero, Leaf(id)); ContractIds(e) == {id} && Witnesses(e) == {} && !Built(e)
  {}

  // ---------- equivalence ----------

  ghost predicate Equivalent(a: Expr, b: Expr) {
    forall active :: Evaluate(a, active) <==> Evaluate(b, active)
  }

  predicate Minimal(w: set<string>, witnesses: set<set<string>>) {
    w in witnesses && forall v :: v in witnesses && v <= w ==> v == w
  }

  lemma {:induction false} MinimalBelow(w: set<string>, witnesses: set<set<string>>) returns (m: set<string>)
    requires w in witnesses
    ensures Minimal(m, witnesses) && m <= w
    decreases w
  {
    if Minimal(w, witnesses) {
      m := w;
    } else {
      var v :| v in witnesses && v <= w && v != w;
      m := MinimalBelow(v, witnesses);
    }
  }

  ghost predicate SameMinimal(a: set<set<string>>, b: set<set<string>>) {
    forall w :: Minimal(w, a) <==> Minimal(w, b)
  }

  ghost predicate SatisfiedAlike(a: set<set<string>>, b: set<set<string>>) {
    forall active :: Satisfied(a, active) <==> Satisfied(b, active)
  }

  lemma MinimalTransfers(a: set<set<string>>, b: set<set<string>>, w: set<string>)
    requires SatisfiedAlike(a, b) && Minimal(w, a)
    ensures Minimal(w, b)
  {
    assert Satisfied(a, w);
    var v :| v in b && v <= w;
    var m := MinimalBelow(v, b);
    assert Satisfied(b, m);
    var u :| u in a && u <= m;
    assert u <= w && u == w && m == w;
  }

  lemma SatisfiedTransfers(a: set<set<string>>, b: set<set<string>>, active: set<string>)
    requires SameMinimal(a, b) && Satisfied(a, active)
    ensures Satisfied(b, active)
  {
    var w :| w in a && w <= active;
    var m := MinimalBelow(w, a);
    assert Minimal(m, b) && m <= active;
  }

  /** Two expressions mean the same exactly when they have the same minimal witnesses. */
  lemma EquivalentIffSameMinimal(a: Expr, b: Expr)
    ensures Equivalent(a, b) <==> SameMinimal(Witnesses(a), Witnesses(b))
  {
    var va, vb := Witnesses(a), Witnesses(b);
    assert Equivalent(a, b) <==> SatisfiedAlike(va, vb) by {
      forall active ensures (Evaluate(a, active) <==> Satisfied(va, active))
                            && (Evaluate(b, active) <==> Satisfied(vb, active)) {
        EvaluateIffWitness(a, active);
        EvaluateIffWitness(b, active);
      }
    }
    if SatisfiedAlike(va, vb) {
      forall w ensures Minimal(w, va) <==> Minimal(w, vb) {
        if Minimal(w, va) { MinimalTransfers(va, vb, w); }
        if Minimal(w, vb) { MinimalTransfers(vb, va, w); }
      }
    }
    if SameMinimal(va, vb) {
      forall active ensures Satisfied(va, active) <==> Satisfied(vb, active) {
        if Satisfied(va, active) { SatisfiedTransfers(va, vb, active); }
        if Satisfied(vb, active) { SatisfiedTransfers(vb, va, active); }
      }
    }
  }

  // ---------- flat provenance ----------

  function SetOf(ids: seq<string>): set<string> {
    set id | id in ids
  }

  /** The conjunction of a listing of contracts, associated to the left. */
  function Flat(ids: seq<string>): Expr {
    if ids == [] then One else TensorOf(Flat(ids[..|ids| - 1]), Leaf(ids[|ids| - 1]))
  }

  lemma {:induction false} FlatMeansAll(ids: seq<string>)
    ensures Witnesses(Flat(ids)) == {SetOf(ids)} && Built(Flat(ids)) && !Flat(ids).Zero?
    ensures ContractIds(Flat(ids)) == SetOf(ids)
  {
    if ids == [] {
      assert SetOf(ids) == {};
    } else {
      hide Products, Witnesses;
      var init, last := ids[..|ids| - 1], Leaf(ids[|ids| - 1]);
      FlatMeansAll(init);
      ConstructorsKeepWitnesses(Flat(init), last);
      ConstructorsBuild(Flat(init), last);
      assert SetOf(ids) == SetOf(init) + {last.id};
      LeafWitness(last.id);
      ProductsSingle(SetOf(init), {last.id});
      IdsAreUnionOfWitnesses(Flat(ids));
      BuiltHasWitness(Flat(ids));
    }
  }

  lemma LeafWitness(id: string)
    ensures Witnesses(Leaf(id)) == {{id}}
  {}

  lemma ProductsSingle(v: set<string>, w: set<string>)
    ensures Products({v}, {w}) == {v + w}
  {}

  /** `ids` is the sorted listing that the loop walks; any listing gives the same meaning. */
  method FromContracts(ids: seq<string>) returns (e: Expr)
    ensures e == Flat(ids) && Built(e) && ContractIds(e) == SetOf(ids)
    ensures forall active :: Evaluate(e, active) <==> SetOf(ids) <= active
  {
    FlatMeansAll(ids);
    forall active ensures Evaluate(Flat(ids), active) <==> SetOf(ids) <= active {
      EvaluateIffWitness(Flat(ids), active);
    }
    if ids == [] {
      return One;
    }
    e := Leaf(ids[0]);
    assert ids[..1][..0] == [] && Flat(ids[..1]) == e;
    for k := 1 to |ids|
      invariant e == Flat(ids[..k])
    {
      assert ids[..k + 1][..k] == ids[..k];
      e := TensorOf(e, Leaf(ids[k]));
    }
    assert ids[..|ids|] == ids;
  }

  datatype Labeled<T> = Labeled(value: T, provenance: seq<string>, expr: Option<Expr>)

  function EffectiveExpr<T>(d: Labeled<T>): Expr {
    if d.expr.Some? then d.expr.value else Flat(d.provenance)
  }

  predicate EvaluateProvenance<T>(d: Labeled<T>, active: set<string>) {
    Evaluate(EffectiveExpr(d), active)
  }

  /** Combining two data: alive exactly while both are, and the joined expression stays built. */
  lemma JoinNeedsBoth<T, U>(a: Labeled<T>, b: Labeled<U>, active: set<string>)
    requires (a.expr.Some? ==> Built(a.expr.value)) && (b.expr.Some? ==> Built(b.expr.value))
    ensures var e := TensorOf(EffectiveExpr(a), EffectiveExpr(b));
            Built(e) && (Evaluate(e, active) <==> EvaluateProvenance(a, active) && EvaluateProvenance(b, active))
  {
    FlatMeansAll(a.provenance);
    FlatMeansAll(b.provenance);
    ConstructorsBuild(EffectiveExpr(a), EffectiveExpr(b));
  }

  /** Forgetting the expression and keeping its flat form only ever makes data die earlier, unless
      the expression is Zero: its flat form is empty, and data that was always denied comes alive. */
  lemma FlatteningIsConservative(e: Expr)
    requires Built(e)
    ensures (forall active :: ContractIds(e) <= active ==> Evaluate(e, active)) <==> e != Zero
  {
    BuiltHasWitness(e);
    IdsAreUnionOfWitnesses(e);
    if e != Zero {
      var w :| w in Witnesses(e);
      assert w <= Union(Witnesses(e));
      forall active | ContractIds(e) <= active ensures Evaluate(e, active) {
        EvaluateIffWitness(e, active);
      }
    } else {
      assert ContractIds(e) <= {} && !Evaluate(e, {});
    }
  }
}
