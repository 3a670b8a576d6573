# A verified model of the `ht` type-theory kernel

`ht` is a toy kernel for a fragment of dependent type theory. It has a small closed set of type
formers: Unit, Bool, Function, Pi, Identity, Equivalence and Universe. Each has its own structural
equality. The kernel provides reflexivity paths, the identity function and function composition,
and an equivalence engine. The engine decides, by checking every case over the finite base types,
whether two functions are quasi-inverses. For a pair that passes, it packages an Equivalence that
can be turned into a (postulated) path between the two types. A small registry maps names to types.

The model has three modules, one per source file:

- `types.dfy`, module `Types` (ht/types.py). `Ty` is one datatype for types and terms.
  - `Unit` and `Bool(v)` are both types and their own inhabitants, as in the source.
  - `Native(b)` is a Python bool, a value the callers' closures may return.
  - `Universe`, declared in ht/space.py, is also a variant, because it is a Type like the others.
  - Python's `==` is `Eq(a, b)`. It dispatches on the left operand. For a Python bool on the left,
    whose `__eq__` declines anything but a bool, the result is what the reflected `__eq__` gives.
  - Comparing Pi types enumerates the domain, which can fail. So `Eq` returns a `Result<bool>`, and
    `And` passes a failure through Python's short-circuit `and` as a raised exception would.
  - Closures are first-order values:
    - `IdMap` is the closure built by `id_function`.
    - `Then` is the closure built by `compose_functions`.
    - `Tabulated` is any caller's closure, given by its graph.
  - Pi families are graphs of the same kind.
  - The `eta`/`epsilon` closures of `prove_equivalence` are the `Homotopy` values `Eta`/`Epsilon`.
- `proofs.dfy`, module `Proofs` (ht/proofs.py).
  - `IsQuasiInverse` is the three-way case split, with `Unsupported` for any other shape.
  - `ProveEquivalence` rejects with `NotQuasiInverse`, or builds the Equivalence.
  - It also holds the driver's functions as fixtures, with lemmas giving their outcomes.
- `space.dfy`, module `Spaces` (ht/space.py). `Space` is a class whose `types` map `AddType`
  updates in place. Universe equality is the lemma `UniverseEq`.

What is proved, beyond each operation's contract:
- `Eq` is symmetric and transitive.
- A type equals itself exactly when every Pi type the comparison reaches has an enumerable domain.
  Otherwise the comparison fails; it never answers "unequal".
- Composition is associative: pointwise, and up to Function equality when the outer domain and
  codomain are comparable.
- On Unit→Unit and Bool→Bool the check decides the round-trip law exactly.
- The Unit→Bool check accepts every well-typed pair, yet none of those pairs is a round trip.

The driver's functions return Python `True`/`False` (`lambda _: True`, `lambda x: not x`). These
are the variant `Native(b)`. A Python bool equals only a Python bool with the same value, and never
a `Bool` object, from either side. So negation on Bool fails its round trip and is refused, as the
driver expects (`Proofs.NegationRejected`). The Unit/Bool pair still passes, because its Unit→Bool
branch only compares f's outputs with each other.

Where the documented design of the kernel and its code differ, the model follows the code:
- `add_type` overwrites an existing binding. The registry is not insert-only.
- Failed composition is `NotComposable`.
- `J` is not implemented (see below).

## Model

| member | source | states |
|---|---|---|
| `Types.Lookup` | ht/types.py:92-93 | applying a closure given by its graph, or a Pi family: the output of the first entry whose input is the argument, and the default when no entry has that input |
| `Types.Call` | ht/types.py:77-78 | applying a Function applies its closure: the identity returns the argument, a composite applies its first closure and then its second, a graph looks the argument up |
| `Types.Refl` | ht/types.py:27-28 | the path lies in A and both its endpoints are a |
| `Types.NativeEq` | ht/types.py:64-65 | a Python bool equals exactly the Python bool with the same value, and never a Bool object, from either side |
| `Types.Truthy` | ht/types.py:67-68 | exactly the false Bool object and the Python bool False are false; every other object is true |
| `Types.EqBase` | ht/types.py:49-65 | every Unit equals every Unit; a Bool equals exactly the Bool with the same truth value, from either side; Bool(true) differs from Bool(false); neither comparison can fail |
| `Types.FunctionEq` | ht/types.py:81-84 | two Functions are equal iff their domains and codomains are; replacing either side's mapping changes nothing; a Function never equals a non-Function, from either side |
| `Types.PiEq` | ht/types.py:95-100 | Pi types are equal iff their domains are equal and enumerable and the families agree on every inhabitant; equal non-enumerable domains make the comparison fail; a Pi never equals a non-Pi |
| `Types.IdentityEq` | ht/types.py:121-124 | Identity types are equal iff their types and both endpoints are pairwise equal |
| `Types.EquivalenceEq` | ht/types.py:150-158 | Equivalences are equal iff A, B, f and g are pairwise equal; the eta/epsilon families never matter |
| `Types.EqSymmetric` | ht/types.py:49-158 | the result of a comparison, failure included, does not depend on the order of the operands |
| `Types.EqTransitive` | ht/types.py:49-158 | equality is transitive |
| `Types.EqSelf` | ht/types.py:95-100 | a type equals itself iff every Pi reached has an enumerable domain; otherwise comparing it with itself fails |
| `Types.Eq` | ht/types.py:49-158 | `==` on every class of the kernel; its only failure is the enumeration of a Pi domain. The rules for each class are stated by `EqBase`, `NativeEq`, `FunctionEq`, `PiEq`, `IdentityEq`, `EquivalenceEq` and `Spaces.UniverseEq` |
| `Types.WitnessAt` | ht/proofs.py:46-50 | eta(x) is the identity type in A from x to g(f(x)); epsilon(y) is the identity type in B from f(g(y)) to y |
| `Types.ToPath` | ht/types.py:147-148 | the univalence path is a postulate whose endpoints are the equivalence's A and B |
| `Types.IdFunction` | ht/types.py:166-167 | the identity has domain and codomain A and returns every argument unchanged |
| `Types.Compose` | ht/types.py:170-173 | composition succeeds iff f's codomain equals g's domain; an unequal pair gives NotComposable and a failed comparison gives its failure; the result goes from f's domain to g's codomain and maps x to g(f(x)) |
| `Types.ComposeAssociative` | ht/types.py:170-173 | both bracketings of a composable triple exist and agree on every argument; they are equal Functions iff the outer domain and codomain equal themselves |
| `Types.CallAsWritten` | ht/types.py:77-78 | applying a function whose codomain is Unit or Bool raises "not callable" |
| `Types.CallAsWrittenFails` | ht/types.py:77-78 | the identity on a base type cannot be applied as written; with its closure applied it returns its argument |
| `Types.EqAsWritten` | ht/types.py:49-158 | `==` with Pi equality as written: its only failure is the iteration failure, and a Pi type equals nothing |
| `Types.PiEqAsWritten` | ht/types.py:95-100 | as written, a Pi type equals nothing: a non-Pi is unequal, and once the domains compare equal (as written) the comparison raises |
| `Types.PiEqAsWrittenNested` | ht/types.py:95-100 | as written, Pi types over Pi domains raise while comparing the domains, where the corrected equality answers false |
| `Types.PiEqAsWrittenFails` | ht/types.py:99 | as written, a Pi type over Bool fails to equal itself; with the domain enumerated it equals itself |
| `Types.ToPathAsWritten` | ht/types.py:147-148 | as written, every call fails with MissingArgument |
| `Types.ToPathAsWrittenFails` | ht/types.py:147-148 | as written, to_path fails with a missing argument on every Equivalence |
| `Proofs.IsQuasiInverse` | ht/proofs.py:17-39 | the check gives Unsupported iff the pair matches none of the three shapes; its only other failure is the enumeration failure |
| `Proofs.StrongBranchesDecideRoundTrips` | ht/proofs.py:19-28 | on Unit→Unit and Bool→Bool, chosen from f alone, the check cannot fail and answers true iff g∘f and f∘g fix every enumerated inhabitant |
| `Proofs.UnitToBoolIsWeak` | ht/proofs.py:30-36 | every well-typed Unit→Bool / Bool→Unit pair passes, and none of them satisfies the round-trip law |
| `Proofs.ProveEquivalence` | ht/proofs.py:42-53 | succeeds iff the check says true; fails with NotQuasiInverse iff it says false; passes the check's failure through; on success stores A, B, f and g unchanged, with eta(x) = Identity(A, x, g(f(x))) and epsilon(y) = Identity(B, f(g(y)), y) |
| `Proofs.EquivalenceSound` | ht/proofs.py:42-53 | on the Unit→Unit and Bool→Bool shapes, a proved equivalence satisfies the round-trip law, and the endpoints of eta(x) and epsilon(y) are equal at each enumerated inhabitant |
| `Proofs.UnitBoolScenario` | ht/proofs.py:64-76 | the Unit/Bool equivalence is proved, its path has source Unit and target Bool, and g∘f maps the Unit value to itself; as written, to_path fails on it |
| `Proofs.NegationIsNot` | ht/proofs.py:81 | the negation fixture maps every object to the Python bool opposite to its truth value, as `not x` does |
| `Proofs.NegationRejected` | ht/proofs.py:81-88 | negation returns Python bools, which no Bool object equals, so the check answers false and the equivalence is refused with NotQuasiInverse |
| `Proofs.IdentityAccepted` | ht/proofs.py:90-97 | the identity on Bool yields an equivalence |
| `Proofs.ConstTrueRejected` | ht/proofs.py:22-28 | the constant-true function is refused with NotQuasiInverse |
| `Proofs.ReversedPairUnsupported` | ht/proofs.py:30-39 | the driver's pair taken Bool→Unit first has no branch and is Unsupported |
| `Spaces.Space.constructor` | ht/space.py:6-7 | a fresh Space binds no name |
| `Spaces.Space.AddType` | ht/space.py:9-10 | after adding, the name looks up to the new type, overwriting any old binding; every other name keeps its binding |
| `Spaces.Space.GetType` | ht/space.py:12-13 | a lookup is absent exactly for names never bound, and otherwise gives the bound type; it changes nothing |
| `Spaces.UniverseEq` | ht/space.py:20-21 | two Universes are equal iff their levels are; a Universe never equals a non-Universe, from either side |
| `Spaces.RegisterBaseTypes` | ht/proofs.py:57-62 | registering Unit and Bool under their names makes each look up to its type, and leaves every other name unbound |

## Left out

- `J`, `sym`, `trans` (ht/types.py:30-43): `J` always raises "not implemented", and `sym` and `trans` only call it. There is no behaviour to model, and no computation rule is assumed.
- `ap` (ht/types.py:162-163): it reads `source`/`target` fields that `Path` does not have, and it calls `Path` with two arguments. It cannot run, so there is nothing to model.
- `DependentFunction`, `lambda_abstraction`, `apply` (ht/types.py:103-112, 175-179): thin wrappers around Python calls.
- Path equality: `Path` has no `__eq__`, so paths compare by object identity. Object identity is not modelled.
- The `object()` sentinels (ht/types.py:47, 58-59) become the values `Unit`, `Bool(true)` and `Bool(false)`. Identity comparison of sentinels is Boolean equality.
- `Pi.__call__` has no member of its own: applying a family is `Lookup` on it, which Pi equality does.
- Closures are first-order values: the identity, a composite, or a finite graph with a default output. The model can express every closure the kernel builds and every function of the driver. A caller's closure is represented by its graph on finitely many inputs and one default output for all others.
- The order in which a Bool domain is enumerated (true, then false) is a choice of the model. The source never enumerates at all.
- Python bools are modelled only as closure outputs and comparison operands. Their equality with Python ints, and any other Python object, is not modelled.
- The typing scaffolding (ht/types.py:1-10, 53-54) is left out. As written, ht/types.py:5 uses `Type` before line 17 defines it, so importing the module raises NameError. The model and the Findings rows describe the kernel as if the module loaded.
- `example_proof` (ht/proofs.py:56-99) prints its results. Its functions are fixtures in `Proofs`, and its outcomes are lemmas.
- tests/test_j.py calls `J` with its arguments in the wrong order, and that `J` always raises. There is nothing to model.

## Findings

| source | as written | input that shows it | evidently intended | confidence | as-written member | corrected member |
|---|---|---|---|---|---|---|
| ht/types.py:77-78 | `Function.__call__` returns `self.codomain(x)`, calling the codomain type | `id_function(Bool(True))(Bool(True))` raises TypeError ("'Bool' object is not callable"); so does every application in `is_quasi_inverse` | apply the closure, `self.impl(x)`, as `compose_functions` expects | high; not executed | `Types.CallAsWritten`, `Types.CallAsWrittenFails` | `Types.Call`, proved in `Types.IdFunction` and `Types.Compose` |
| ht/types.py:99 | Pi equality iterates over the domain object, which no Type supports | `Pi(Bool(True), c) == Pi(Bool(True), c)` raises TypeError | enumerate the inhabitants of Unit and Bool (the line is marked TODO) | high; not executed | `Types.PiEqAsWritten`, `Types.PiEqAsWrittenFails` | `Types.Eq`, proved in `Types.PiEq` and `Types.EqSelf` |
| ht/types.py:148 | `to_path` calls `Path(self.A, self.B)`, missing the third argument | `to_path()` on the Unit/Bool equivalence raises TypeError | a path whose endpoints are A and B | high; not executed | `Types.ToPathAsWritten`, `Types.ToPathAsWrittenFails` | `Types.ToPath`, proved in `Proofs.UnitBoolScenario` |
