/** The equivalence engine (ht/proofs.py): the exhaustive quasi-inverse check
    over the finite base types and the construction of an Equivalence from a
    pair that passes it. */
module Proofs {
  import opened Types

  /** The shapes `is_quasi_inverse` has a branch for, in source order. The
      branch tests look at the class of a type only, never at a Bool's value. */
  predicate UnitToUnit(f: Fn) { f.dom.Unit? && f.cod.Unit? }
  predicate BoolToBool(f: Fn) { f.dom.Bool? && f.cod.Bool? }
  predicate UnitToBool(f: Fn, g: Fn) { f.dom.Unit? && f.cod.Bool? && g.dom.Bool? && g.cod.Unit? }

  predicate Supported(f: Fn, g: Fn) {
    UnitToUnit(f) || BoolToBool(f) || UnitToBool(f, g)
  }

  /** The round-trip law over the enumerated inhabitants: g undoes f on f's
      domain and f undoes g on f's codomain. */
  predicate RoundTrips(f: Fn, g: Fn) {
    && (forall x :: x in Inhabitants(f.dom) ==> Call(g, Call(f, x)) == x)
    && (forall y :: y in Inhabitants(f.cod) ==> Call(f, Call(g, y)) == y)
  }

  /** `x` is an inhabitant of the base type `A`. */
  predicate Inhabits(x: Ty, A: Ty) {
    (A.Unit? && x == Unit) || (A.Bool? && x.Bool?)
  }

  /** A function over base types sends each inhabitant of its domain into
      its codomain. */
  predicate WellTyped(f: Fn) {
    forall x :: x in Inhabitants(f.dom) ==> Inhabits(Call(f, x), f.cod)
  }

  /** `is_quasi_inverse(f, g)`: a three-way case split, each branch an
      exhaustive check over at most two inhabitants; any other shape is
      unsupported. */
  function IsQuasiInverse(f: Fn, g: Fn): (r: Result<bool>)
    ensures r == Err(Unsupported) <==> !Supported(f, g)
    ensures r.Err? ==> r.error == Unsupported || r.error == NotEnumerable
  {
    if UnitToUnit(f) then
      EqBase(Call(g, Call(f, Unit)), true);
      EqBase(Call(f, Call(g, Unit)), true);
      And(Eq(Call(g, Call(f, Unit)), Unit), Eq(Call(f, Call(g, Unit)), Unit))
    else if BoolToBool(f) then
      EqBase(Call(g, Call(f, Bool(true))), true);
      EqBase(Call(g, Call(f, Bool(false))), false);
      EqBase(Call(f, Call(g, Bool(true))), true);
      EqBase(Call(f, Call(g, Bool(false))), false);
      And(Eq(Call(g, Call(f, Bool(true))), Bool(true)),
      And(Eq(Call(g, Call(f, Bool(false))), Bool(false)),
      And(Eq(Call(f, Call(g, Bool(true))), Bool(true)),
          Eq(Call(f, Call(g, Bool(false))), Bool(false)))))
    else if UnitToBool(f, g) then
      EqBase(Call(g, Call(f, Unit)), true);
      And(Eq(Call(g, Call(f, Unit)), Unit),
          Eq(Call(f, Call(g, Bool(true))), Call(f, Call(g, Bool(false)))))
    else
      Err(Unsupported)
  }

  /** On Unit -> Unit and Bool -> Bool the check never fails and answers
      exactly whether the round trips hold. The branch is chosen from f
      alone: g's domain and codomain are not looked at. */
  lemma StrongBranchesDecideRoundTrips(f: Fn, g: Fn)
    requires UnitToUnit(f) || BoolToBool(f)
    ensures IsQuasiInverse(f, g) == Ok(RoundTrips(f, g))
  {
    if UnitToUnit(f) {
      EqBase(Call(g, Call(f, Unit)), true);
      EqBase(Call(f, Call(g, Unit)), true);
      assert Inhabitants(f.dom) == [Unit] && Inhabitants(f.cod) == [Unit];
    } else {
      var t, u := Bool(true), Bool(false);
      EqBase(Call(g, Call(f, t)), true);
      EqBase(Call(g, Call(f, u)), false);
      EqBase(Call(f, Call(g, t)), true);
      EqBase(Call(f, Call(g, u)), false);
      assert Inhabitants(f.dom) == [t, u] && Inhabitants(f.cod) == [t, u];
      assert RoundTrips(f, g) <==>
        Call(g, Call(f, t)) == t && Call(g, Call(f, u)) == u &&
        Call(f, Call(g, t)) == t && Call(f, Call(g, u)) == u;
    }
  }

  /** The Unit -> Bool branch is deliberately weak: every well-typed pair
      passes it, and none of them is a round trip, because g sends both
      Booleans to the one Unit value. */
  lemma UnitToBoolIsWeak(f: Fn, g: Fn)
    requires UnitToBool(f, g) && WellTyped(f) && WellTyped(g)
    ensures IsQuasiInverse(f, g) == Ok(true)
    ensures !RoundTrips(f, g)
  {
    assert Unit in Inhabitants(f.dom);
    assert Bool(true) in Inhabitants(g.dom) && Bool(false) in Inhabitants(g.dom);
    assert Call(g, Bool(true)) == Unit == Call(g, Bool(false));
    var fu := Call(f, Unit);
    assert Inhabits(fu, f.cod);
    EqBase(Call(g, fu), true);
    EqSelf(fu);
    assert Bool(true) in Inhabitants(f.cod) && Bool(false) in Inhabitants(f.cod);
    assert Call(f, Call(g, Bool(true))) == Call(f, Call(g, Bool(false)));
  }

  /** `prove_equivalence(A, B, f, g)`: refuse a pair the check rejects, pass
      the check's own failure through, and otherwise package A, B, f, g with
      the families eta(x) = Identity(A, x, g(f(x))) and
      epsilon(y) = Identity(B, f(g(y)), y). */
  function ProveEquivalence(A: Ty, B: Ty, f: Fn, g: Fn): (r: Result<Ty>)
    ensures r.Ok? <==> IsQuasiInverse(f, g) == Ok(true)
    ensures r == Err(NotQuasiInverse) <==> IsQuasiInverse(f, g) == Ok(false)
    ensures IsQuasiInverse(f, g).Err? ==> r == Err(IsQuasiInverse(f, g).error)
    ensures r.Ok? ==> r.value.Equivalence? && r.value.A == A && r.value.B == B
    ensures r.Ok? ==> r.value.q.f == f && r.value.q.g == g
    ensures r.Ok? ==> r.value.q.eta.f.Function? && r.value.q.eta.g.Function?
    ensures r.Ok? ==> r.value.q.epsilon.f.Function? && r.value.q.epsilon.g.Function?
    ensures r.Ok? ==> forall x :: WitnessAt(r.value.q.eta, x) == Identity(A, x, Call(g, Call(f, x)))
    ensures r.Ok? ==> forall y :: WitnessAt(r.value.q.epsilon, y) == Identity(B, Call(f, Call(g, y)), y)
  {
    var ok :- IsQuasiInverse(f, g);
    if !ok then Err(NotQuasiInverse)
    else Ok(Equivalence(A, B, QuasiInverse(f, g, Eta(A, f, g), Epsilon(B, f, g))))
  }

  /** Soundness on the strong branches: an Equivalence exists only if the
      round trips hold, and then both endpoints of every eta(x) and every
      epsilon(y) at an enumerated inhabitant are equal. */
  lemma EquivalenceSound(A: Ty, B: Ty, f: Fn, g: Fn)
    requires UnitToUnit(f) || BoolToBool(f)
    requires ProveEquivalence(A, B, f, g).Ok?
    ensures RoundTrips(f, g)
    ensures var q := ProveEquivalence(A, B, f, g).value.q;
      forall x :: x in Inhabitants(f.dom) ==>
        Eq(WitnessAt(q.eta, x).x, WitnessAt(q.eta, x).y) == Ok(true)
    ensures var q := ProveEquivalence(A, B, f, g).value.q;
      forall y :: y in Inhabitants(f.cod) ==>
        Eq(WitnessAt(q.epsilon, y).x, WitnessAt(q.epsilon, y).y) == Ok(true)
  {
    StrongBranchesDecideRoundTrips(f, g);
    forall x | x in Inhabitants(f.dom) || x in Inhabitants(f.cod)
      ensures Eq(x, x) == Ok(true)
    {
      EqSelf(x);
    }
  }

  // ------------------------------------------------- the driver's fixtures

  /** `bool_type` of the driver: the type Bool, built as Bool(True). */
  const BoolType: Ty := Bool(true)

  /** `Function(unit_type, bool_type, lambda _: True)`: it returns the
      Python bool True, not a Bool object. */
  const ToTrue: Fn := Function(Unit, BoolType, Tabulated(Table([], Native(true))))

  /** `Function(bool_type, unit_type, lambda _: Unit())`. */
  const ToUnit: Fn := Function(BoolType, Unit, Tabulated(Table([], Unit)))

  /** Python's `not x`: the Python bool opposite to the truth value of x. */
  function Not(x: Ty): Ty {
    Native(!Truthy(x))
  }

  /** `Function(bool_type, bool_type, lambda x: not x)`, by its graph on the
      two Bool objects and the two Python bools; every other object is true,
      so its negation is False. */
  const Negation: Fn :=
    Function(BoolType, BoolType,
             Tabulated(Table([(Bool(true), Not(Bool(true))), (Bool(false), Not(Bool(false))),
                              (Native(true), Not(Native(true))), (Native(false), Not(Native(false)))],
                             Native(false))))

  /** `Function(bool_type, bool_type, lambda x: x)`. */
  const IdBool: Fn := Function(BoolType, BoolType, IdMap)

  /** The constant-true function on Bool. */
  const ConstTrue: Fn := Function(BoolType, BoolType, Tabulated(Table([], Bool(true))))

  /** The Unit/Bool scenario: the equivalence is proved, its path runs from
      Unit to Bool, and composing f with g maps the Unit value to itself. */
  lemma UnitBoolScenario()
    ensures ProveEquivalence(Unit, BoolType, ToTrue, ToUnit).Ok?
    ensures var p := ToPath(ProveEquivalence(Unit, BoolType, ToTrue, ToUnit).value);
      Eq(p.x, Unit) == Ok(true) && Eq(p.y, BoolType) == Ok(true)
    ensures Compose(ToTrue, ToUnit).Ok? && Call(Compose(ToTrue, ToUnit).value, Unit) == Unit
    ensures ToPathAsWritten(ProveEquivalence(Unit, BoolType, ToTrue, ToUnit).value) == Err(MissingArgument)
  {
    assert Lookup(Table([], Native(true)), Unit) == Native(true);
    assert Lookup(Table([], Unit), Native(true)) == Unit;
    assert Lookup(Table([], Unit), Bool(true)) == Unit;
    assert Lookup(Table([], Unit), Bool(false)) == Unit;
  }

  /** The graph of `Negation` is `not` on every object. */
  lemma NegationIsNot(x: Ty)
    ensures Call(Negation, x) == Not(x)
    ensures Call(Negation, x).Native?
  {
    var t := Negation.impl.table;
    if x != Bool(true) && x != Bool(false) && x != Native(true) && x != Native(false) {
      assert forall i :: 0 <= i < |t.entries| ==> t.entries[i].0 != x;
    } else {
      assert t.entries[0].0 == Bool(true) && t.entries[1].0 == Bool(false);
      assert t.entries[2].0 == Native(true) && t.entries[3].0 == Native(false);
    }
  }

  /** `not x` returns Python bools, and no Python bool equals a Bool object,
      so negation fails the first round trip and is refused, as the driver
      expects. */
  lemma NegationRejected()
    ensures IsQuasiInverse(Negation, Negation) == Ok(false)
    ensures ProveEquivalence(BoolType, BoolType, Negation, Negation) == Err(NotQuasiInverse)
  {
    NegationIsNot(Bool(true));
    NegationIsNot(Call(Negation, Bool(true)));
    NativeEq(Bool(true), Call(Negation, Call(Negation, Bool(true))).b);
  }

  lemma IdentityAccepted()
    ensures ProveEquivalence(BoolType, BoolType, IdBool, IdBool).Ok?
  {
    StrongBranchesDecideRoundTrips(IdBool, IdBool);
  }

  /** The constant-true function is refused: its round trip moves false. */
  lemma ConstTrueRejected()
    ensures ProveEquivalence(BoolType, BoolType, ConstTrue, ConstTrue) == Err(NotQuasiInverse)
  {
    assert Lookup(Table([], Bool(true)), Bool(false)) == Bool(true);
    StrongBranchesDecideRoundTrips(ConstTrue, ConstTrue);
    assert Bool(false) in Inhabitants(ConstTrue.dom);
  }

  /** The driver's pair taken the other way round, Bool -> Unit first, has
      no branch. */
  lemma ReversedPairUnsupported()
    ensures IsQuasiInverse(ToUnit, ToTrue) == Err(Unsupported)
    ensures ProveEquivalence(BoolType, Unit, ToUnit, ToTrue) == Err(Unsupported)
  {
  }
}
