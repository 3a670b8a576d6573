/** The term and type model of the kernel (ht/types.py): one datatype for the
    closed set of type formers, which double as terms, the per-variant
    equality of the source's `__eq__` methods, reflexivity paths, and the
    function algebra (identity and composition).

    Python's `==` is modelled by `Eq(a, b)`, which dispatches on the left
    operand; for a Python bool on the left, whose `__eq__` declines anything
    but a bool, the result is what the reflected `__eq__` gives. Comparing two Pi types enumerates the domain,
    which can fail, so `Eq` returns a `Result<bool>` and the failure travels
    through `and` exactly as a raised exception would. */
module Types {

  /** One error kind per raise site of the kernel. */
  datatype Error =
    | NotEnumerable    // Pi equality over a domain whose inhabitants cannot be listed
    | NotComposable    // compose_functions: f.codomain != g.domain
    | Unsupported      // is_quasi_inverse: no branch covers the two functions
    | NotQuasiInverse  // prove_equivalence: the check said no
    | NotCallable      // as written only: a Type object without __call__ is called
    | MissingArgument  // as written only: Path built from two arguments

  datatype Result<+T> = Ok(value: T) | Err(error: Error) {
    predicate IsFailure() { Err? }
    function PropagateFailure<U>(): Result<U> requires Err? { Err(error) }
    function Extract(): T requires Ok? { value }
  }

  /** Types and terms. `Unit` and `Bool(v)` are both types and their own
      inhabitants (the source's `Unit()`, `Bool(True)`, `Bool(False)`); the
      source's `object()` sentinels become the value `v`. `Native(b)` is a
      Python `True`/`False`, which the callers' closures may return and which
      no `Bool` object equals. `Universe` is the class of ht/space.py, a Type
      like the others. */
  datatype Ty =
    | Unit
    | Bool(v: bool)
    | Native(b: bool)
    | Function(dom: Ty, cod: Ty, impl: Mapping)
    | Pi(dom: Ty, fam: Table)
    | Identity(A: Ty, x: Ty, y: Ty)
    | Equivalence(A: Ty, B: Ty, q: QuasiInverse)
    | Universe(level: int)

  /** The closure a Function holds: the identity closure of `id_function`,
      the composite closure of `compose_functions`, or a caller's closure
      given by its graph. */
  datatype Mapping =
    | IdMap
    | Then(first: Mapping, second: Mapping)
    | Tabulated(table: Table)

  /** A closure given by its graph: the first entry whose input is `x`
      gives the output; every other input yields `otherwise`. */
  datatype Table = Table(entries: seq<(Ty, Ty)>, otherwise: Ty)

  /** The QuasiInverse record: f, g and the two witness families. */
  datatype QuasiInverse = QuasiInverse(f: Ty, g: Ty, eta: Homotopy, epsilon: Homotopy)

  /** The two witness families `prove_equivalence` builds, kept as the
      variables their closures capture. */
  datatype Homotopy =
    | Eta(A: Ty, f: Ty, g: Ty)      // x |-> Identity(A, x, g(f(x)))
    | Epsilon(B: Ty, f: Ty, g: Ty)  // y |-> Identity(B, f(g(y)), y)

  /** A Path: `Path(A, x, y)` as `refl` builds it, or the postulated path
      between two types that `to_path` stands for (univalence). */
  datatype Path =
    | Path(A: Ty, x: Ty, y: Ty)
    | Postulated(x: Ty, y: Ty)

  type Fn = t: Ty | t.Function? witness Function(Unit, Unit, IdMap)

  // ---------------------------------------------------------------- closures

  /** Applying a closure given by its graph, and `Pi.__call__` applying a
      family: the output of the first entry whose input is `x`, and
      `otherwise` when no entry has input `x`. */
  function Lookup(t: Table, x: Ty): (r: Ty)
    ensures r == t.otherwise || exists i :: 0 <= i < |t.entries| && r == t.entries[i].1
    ensures (exists i :: 0 <= i < |t.entries| && t.entries[i].0 == x) ==>
              exists j :: 0 <= j < |t.entries| && t.entries[j].0 == x && r == t.entries[j].1 &&
                forall k :: 0 <= k < j ==> t.entries[k].0 != x
    ensures (forall i :: 0 <= i < |t.entries| ==> t.entries[i].0 != x) ==> r == t.otherwise
    decreases |t.entries|
  {
    if t.entries == [] then t.otherwise
    else if t.entries[0].0 == x then t.entries[0].1
    else
      var rest := Table(t.entries[1..], t.otherwise);
      var r := Lookup(rest, x);
      assert forall i :: 1 <= i < |t.entries| ==> t.entries[i] == rest.entries[i - 1];
      assert (exists i :: 0 <= i < |t.entries| && t.entries[i].0 == x) ==>
               exists i :: 0 <= i < |rest.entries| && rest.entries[i].0 == x;
      r
  }

  function Run(m: Mapping, x: Ty): Ty
    decreases m
  {
    match m
    case IdMap => x
    case Then(first, second) => Run(second, Run(first, x))
    case Tabulated(t) => Lookup(t, x)
  }

  /** Applying a Function applies its closure, whatever its domain and
      codomain: the identity closure returns its argument, a composite applies
      its first closure and then its second, and a closure given by its graph
      looks the argument up. The source's `__call__` (ht/types.py:77-78)
      calls the codomain instead; see CallAsWritten. */
  function Call(f: Fn, x: Ty): (r: Ty)
    ensures f.impl.IdMap? ==> r == x
    ensures f.impl.Then? ==> r == Run(f.impl.second, Run(f.impl.first, x))
    ensures f.impl.Tabulated? ==> r == Lookup(f.impl.table, x)
  {
    Run(f.impl, x)
  }

  /** The value of a witness family at `x` (ht/proofs.py:46-50). */
  function WitnessAt(h: Homotopy, x: Ty): (r: Ty)
    requires h.f.Function? && h.g.Function?
    ensures r.Identity?
    ensures h.Eta? ==> r.A == h.A && r.x == x && r.y == Call(h.g, Call(h.f, x))
    ensures h.Epsilon? ==> r.A == h.B && r.x == Call(h.f, Call(h.g, x)) && r.y == x
  {
    match h
    case Eta(A, f, g) => Identity(A, x, Call(g, Call(f, x)))
    case Epsilon(B, f, g) => Identity(B, Call(f, Call(g, x)), x)
  }

  // ---------------------------------------------------------------- equality

  /** Python's `l and r` where evaluating `l` may raise: an error in `l`
      propagates, a false `l` is the result, and only a true `l` looks at `r`. */
  function And(l: Result<bool>, r: Result<bool>): Result<bool> {
    match l
    case Err(e) => Err(e)
    case Ok(b) => if b then r else Ok(false)
  }

  /** Types whose inhabitants Pi equality can list. */
  predicate Enumerable(A: Ty) {
    A.Unit? || A.Bool?
  }

  /** The inhabitants of an enumerable type, in the order they are compared. */
  function Inhabitants(A: Ty): (xs: seq<Ty>)
    ensures |xs| > 0 <==> Enumerable(A)
    ensures forall x :: x in xs ==> x.Unit? || x.Bool?
  {
    match A
    case Unit => [Unit]
    case Bool(_) => [Bool(true), Bool(false)]
    case _ => []
  }

  /** `a == b`, by the `__eq__` of `a`'s class. Its only failure is the
      enumeration of a Pi domain; the rules for each class are stated by
      EqBase, NativeEq, FunctionEq, PiEq, IdentityEq, EquivalenceEq and
      UniverseEq. */
  function Eq(a: Ty, b: Ty): (r: Result<bool>)
    ensures r.Err? ==> r == Err(NotEnumerable)
    decreases a
  {
    match a
    case Unit => Ok(b.Unit?)
    case Bool(v) => Ok(b.Bool? && b.v == v)
    case Native(n) => Ok(b.Native? && b.b == n)
    case Function(dom, cod, _) =>
      if !b.Function? then Ok(false)
      else And(Eq(dom, b.dom), Eq(cod, b.cod))
    case Pi(dom, fam) =>
      if !b.Pi? then Ok(false)
      else And(Eq(dom, b.dom),
               // the inhabitants of Inhabitants(dom), written out; PiEq states the link
               match dom
               case Unit => Eq(Lookup(fam, Unit), Lookup(b.fam, Unit))
               case Bool(_) =>
                 And(Eq(Lookup(fam, Bool(true)), Lookup(b.fam, Bool(true))),
                     Eq(Lookup(fam, Bool(false)), Lookup(b.fam, Bool(false))))
               case _ => Err(NotEnumerable))
    case Identity(A, x, y) =>
      if !b.Identity? then Ok(false)
      else And(Eq(A, b.A), And(Eq(x, b.x), Eq(y, b.y)))
    case Equivalence(A, B, q) =>
      if !b.Equivalence? then Ok(false)
      else And(Eq(A, b.A), And(Eq(B, b.B), And(Eq(q.f, b.q.f), Eq(q.g, b.q.g))))
    case Universe(level) => Ok(b.Universe? && b.level == level)
  }

  /** The types that equal themselves: every Pi reached by the comparison
      has an enumerable domain. */
  predicate Comparable(t: Ty)
    decreases t
  {
    match t
    case Unit => true
    case Bool(_) => true
    case Native(_) => true
    case Universe(_) => true
    case Function(d, c, _) => Comparable(d) && Comparable(c)
    case Pi(d, fam) =>
      Comparable(d) &&
      (match d
       case Unit => Comparable(Lookup(fam, Unit))
       case Bool(_) => Comparable(Lookup(fam, Bool(true))) && Comparable(Lookup(fam, Bool(false)))
       case _ => false)
    case Identity(A, x, y) => Comparable(A) && Comparable(x) && Comparable(y)
    case Equivalence(A, B, q) => Comparable(A) && Comparable(B) && Comparable(q.f) && Comparable(q.g)
  }

  lemma AndHolds(l: Result<bool>, r: Result<bool>)
    ensures And(l, r) == Ok(true) <==> l == Ok(true) && r == Ok(true)
  {
  }

  /** Equal values are built by the same constructor. */
  lemma EqHoldsSameConstructor(a: Ty, b: Ty)
    requires Eq(a, b) == Ok(true)
    ensures a.Unit? == b.Unit? && a.Bool? == b.Bool? && a.Native? == b.Native? && a.Function? == b.Function?
    ensures a.Pi? == b.Pi? && a.Identity? == b.Identity? && a.Equivalence? == b.Equivalence?
    ensures Inhabitants(a) == Inhabitants(b)
  {
  }

  /** Every variant's rule checks the other operand's class, so equality,
      and failure, do not depend on which operand is on the left. */
  lemma {:induction false} EqSymmetric(a: Ty, b: Ty)
    ensures Eq(a, b) == Eq(b, a)
    decreases a
  {
    match a
    case Unit =>
    case Bool(_) =>
    case Native(_) =>
    case Universe(_) =>
    case Function(d, c, _) =>
      if b.Function? {
        EqSymmetric(d, b.dom);
        EqSymmetric(c, b.cod);
      }
    case Pi(d, fam) =>
      if b.Pi? {
        EqSymmetric(d, b.dom);
        if Eq(d, b.dom) == Ok(true) {
          EqHoldsSameConstructor(d, b.dom);
          EqSymmetric(Lookup(fam, Unit), Lookup(b.fam, Unit));
          EqSymmetric(Lookup(fam, Bool(true)), Lookup(b.fam, Bool(true)));
          EqSymmetric(Lookup(fam, Bool(false)), Lookup(b.fam, Bool(false)));
        }
      }
    case Identity(A, x, y) =>
      if b.Identity? {
        EqSymmetric(A, b.A);
        EqSymmetric(x, b.x);
        EqSymmetric(y, b.y);
      }
    case Equivalence(A, B, q) =>
      if b.Equivalence? {
        EqSymmetric(A, b.A);
        EqSymmetric(B, b.B);
        EqSymmetric(q.f, b.q.f);
        EqSymmetric(q.g, b.q.g);
      }
  }

  lemma {:induction false} EqTransitive(a: Ty, b: Ty, c: Ty)
    requires Eq(a, b) == Ok(true) && Eq(b, c) == Ok(true)
    ensures Eq(a, c) == Ok(true)
    decreases a
  {
    EqHoldsSameConstructor(a, b);
    EqHoldsSameConstructor(b, c);
    match a
    case Unit =>
    case Bool(_) =>
    case Native(_) =>
    case Universe(_) =>
    case Function(d, cd, _) =>
      EqTransitive(d, b.dom, c.dom);
      EqTransitive(cd, b.cod, c.cod);
    case Pi(d, fam) =>
      EqTransitive(d, b.dom, c.dom);
      EqHoldsSameConstructor(d, b.dom);
      match d {
        case Unit =>
          EqTransitive(Lookup(fam, Unit), Lookup(b.fam, Unit), Lookup(c.fam, Unit));
        case Bool(_) =>
          EqTransitive(Lookup(fam, Bool(true)), Lookup(b.fam, Bool(true)), Lookup(c.fam, Bool(true)));
          EqTransitive(Lookup(fam, Bool(false)), Lookup(b.fam, Bool(false)), Lookup(c.fam, Bool(false)));
        case _ =>
      }
    case Identity(A, x, y) =>
      EqTransitive(A, b.A, c.A);
      EqTransitive(x, b.x, c.x);
      EqTransitive(y, b.y, c.y);
    case Equivalence(A, B, q) =>
      EqTransitive(A, b.A, c.A);
      EqTransitive(B, b.B, c.B);
      EqTransitive(q.f, b.q.f, c.q.f);
      EqTransitive(q.g, b.q.g, c.q.g);
  }

  /** A type equals itself exactly when it is Comparable; otherwise comparing
      it with itself fails to enumerate. It is never simply unequal. */
  lemma {:induction false} EqSelf(t: Ty)
    ensures Eq(t, t) == if Comparable(t) then Ok(true) else Err(NotEnumerable)
    decreases t
  {
    match t
    case Unit =>
    case Bool(_) =>
    case Native(_) =>
    case Universe(_) =>
    case Function(d, c, _) =>
      EqSelf(d);
      EqSelf(c);
    case Pi(d, fam) =>
      EqSelf(d);
      EqSelf(Lookup(fam, Unit));
      EqSelf(Lookup(fam, Bool(true)));
      EqSelf(Lookup(fam, Bool(false)));
    case Identity(A, x, y) =>
      EqSelf(A);
      EqSelf(x);
      EqSelf(y);
    case Equivalence(A, B, q) =>
      EqSelf(A);
      EqSelf(B);
      EqSelf(q.f);
      EqSelf(q.g);
  }

  /** Unit and Bool, from either side: every Unit equals every Unit, and a
      Bool equals exactly the Bool with the same truth value. No comparison
      with them fails. */
  lemma EqBase(a: Ty, v: bool)
    ensures Eq(Unit, a) == Ok(a == Unit) && Eq(a, Unit) == Ok(a == Unit)
    ensures Eq(Bool(v), a) == Ok(a == Bool(v)) && Eq(a, Bool(v)) == Ok(a == Bool(v))
    ensures Eq(Bool(true), Bool(false)) == Ok(false)
  {
    EqSymmetric(a, Unit);
    EqSymmetric(a, Bool(v));
  }

  /** A Python bool and a Bool object never equal each other, from either
      side: `bool.__eq__` declines a Bool and `Bool.__eq__` refuses a non-Bool.
      Two Python bools are equal exactly when their values are. */
  lemma NativeEq(a: Ty, n: bool)
    ensures Eq(Native(n), a) == Ok(a == Native(n)) && Eq(a, Native(n)) == Ok(a == Native(n))
    ensures forall v :: Eq(Native(n), Bool(v)) == Ok(false) && Eq(Bool(v), Native(n)) == Ok(false)
  {
    EqSymmetric(a, Native(n));
  }

  /** Truth value (`Bool.__bool__`, ht/types.py:67-68): a Bool object is
      true exactly when it holds the true sentinel, a Python bool is its own
      value, and every other object, having no `__bool__`, is true. */
  predicate Truthy(x: Ty)
    ensures Truthy(x) <==> x != Bool(false) && x != Native(false)
  {
    match x
    case Bool(v) => v
    case Native(n) => n
    case _ => true
  }

  /** Function equality compares domains and codomains only: the mapping is
      ignored, and a Function never equals a non-Function. */
  lemma FunctionEq(f: Fn, h: Ty, m: Mapping)
    ensures Eq(f, h) == Ok(true) <==>
              h.Function? && Eq(f.dom, h.dom) == Ok(true) && Eq(f.cod, h.cod) == Ok(true)
    ensures !h.Function? ==> Eq(f, h) == Ok(false) && Eq(h, f) == Ok(false)
    ensures Eq(f, h) == Eq(Function(f.dom, f.cod, m), h)
    ensures Eq(h, f) == Eq(h, Function(f.dom, f.cod, m))
  {
    var g := Function(f.dom, f.cod, m);
    EqSymmetric(f, h);
    EqSymmetric(g, h);
    if h.Function? {
      AndHolds(Eq(f.dom, h.dom), Eq(f.cod, h.cod));
    }
  }

  /** Pi equality: equal domains, an enumerable domain, and the two families
      agree on every inhabitant of it; with equal domains that cannot be
      enumerated the comparison fails instead of answering. */
  lemma PiEq(p: Ty, q: Ty)
    requires p.Pi?
    ensures Eq(p, q) == Ok(true) <==>
              q.Pi? && Eq(p.dom, q.dom) == Ok(true) && Enumerable(p.dom) &&
              forall x :: x in Inhabitants(p.dom) ==> Eq(Lookup(p.fam, x), Lookup(q.fam, x)) == Ok(true)
    ensures q.Pi? && Eq(p.dom, q.dom) == Ok(true) && !Enumerable(p.dom) ==> Eq(p, q) == Err(NotEnumerable)
    ensures !q.Pi? ==> Eq(p, q) == Ok(false)
  {
    if q.Pi? && Eq(p.dom, q.dom) == Ok(true) {
      match p.dom {
        case Unit =>
          assert Eq(p, q) == Eq(Lookup(p.fam, Unit), Lookup(q.fam, Unit));
          assert Inhabitants(p.dom) == [Unit];
        case Bool(_) =>
          var onTrue := Eq(Lookup(p.fam, Bool(true)), Lookup(q.fam, Bool(true)));
          var onFalse := Eq(Lookup(p.fam, Bool(false)), Lookup(q.fam, Bool(false)));
          assert Eq(p, q) == And(onTrue, onFalse);
          AndHolds(onTrue, onFalse);
          assert Inhabitants(p.dom) == [Bool(true), Bool(false)];
          if forall x :: x in Inhabitants(p.dom) ==> Eq(Lookup(p.fam, x), Lookup(q.fam, x)) == Ok(true) {
            assert Bool(true) in Inhabitants(p.dom);
            assert Bool(false) in Inhabitants(p.dom);
            assert onTrue == Ok(true) && onFalse == Ok(true);
          }
          if Eq(p, q) == Ok(true) {
            forall x | x in Inhabitants(p.dom)
              ensures Eq(Lookup(p.fam, x), Lookup(q.fam, x)) == Ok(true)
            {
              assert x == Bool(true) || x == Bool(false);
            }
          }
        case _ =>
      }
    }
  }

  /** Identity equality: the types and both endpoints are pairwise equal. */
  lemma IdentityEq(i: Ty, b: Ty)
    requires i.Identity?
    ensures Eq(i, b) == Ok(true) <==>
              b.Identity? && Eq(i.A, b.A) == Ok(true) && Eq(i.x, b.x) == Ok(true) && Eq(i.y, b.y) == Ok(true)
    ensures !b.Identity? ==> Eq(i, b) == Ok(false)
  {
    if b.Identity? {
      AndHolds(Eq(i.x, b.x), Eq(i.y, b.y));
      AndHolds(Eq(i.A, b.A), And(Eq(i.x, b.x), Eq(i.y, b.y)));
    }
  }

  /** Equivalence equality: A, B, f and g pairwise equal (f and g by Function
      equality); the witness families eta and epsilon are ignored. */
  lemma EquivalenceEq(e: Ty, b: Ty, eta: Homotopy, epsilon: Homotopy)
    requires e.Equivalence?
    ensures Eq(e, b) == Ok(true) <==>
              b.Equivalence? && Eq(e.A, b.A) == Ok(true) && Eq(e.B, b.B) == Ok(true) &&
              Eq(e.q.f, b.q.f) == Ok(true) && Eq(e.q.g, b.q.g) == Ok(true)
    ensures Eq(e, b) == Eq(Equivalence(e.A, e.B, QuasiInverse(e.q.f, e.q.g, eta, epsilon)), b)
    ensures !b.Equivalence? ==> Eq(e, b) == Ok(false)
  {
    if b.Equivalence? {
      AndHolds(Eq(e.q.f, b.q.f), Eq(e.q.g, b.q.g));
      AndHolds(Eq(e.B, b.B), And(Eq(e.q.f, b.q.f), Eq(e.q.g, b.q.g)));
      AndHolds(Eq(e.A, b.A), And(Eq(e.B, b.B), And(Eq(e.q.f, b.q.f), Eq(e.q.g, b.q.g))));
    }
  }

  // ---------------------------------------------------------------- paths

  /** `refl(A, a)`: the path in A from a to itself. */
  function Refl(A: Ty, a: Ty): (p: Path)
    ensures p.Path? && p.A == A
    ensures p.x == a && p.y == a
  {
    Path(A, a, a)
  }

  /** `Equivalence.to_path`: the postulated path whose endpoints are the two
      types of the equivalence. Nothing checks it; it is univalence, assumed. */
  function ToPath(e: Ty): (p: Path)
    requires e.Equivalence?
    ensures p.Postulated? && p.x == e.A && p.y == e.B
  {
    Postulated(e.A, e.B)
  }

  // ---------------------------------------------------------------- functions

  /** `id_function(A)`. */
  function IdFunction(A: Ty): (r: Fn)
    ensures r.dom == A && r.cod == A
    ensures forall x :: Call(r, x) == x
  {
    Function(A, A, IdMap)
  }

  /** `compose_functions(f, g)`: x |-> g(f(x)) from f's domain to g's
      codomain, refused when f's codomain differs from g's domain. */
  function Compose(f: Fn, g: Fn): (r: Result<Fn>)
    ensures r.Ok? <==> Eq(f.cod, g.dom) == Ok(true)
    ensures Eq(f.cod, g.dom) == Ok(false) ==> r == Err(NotComposable)
    ensures Eq(f.cod, g.dom).Err? ==> r == Err(NotEnumerable)
    ensures r.Ok? ==> r.value.dom == f.dom && r.value.cod == g.cod
    ensures r.Ok? ==> forall x :: Call(r.value, x) == Call(g, Call(f, x))
  {
    var composable :- Eq(f.cod, g.dom);
    if !composable then Err(NotComposable)
    else Ok(Function(f.dom, g.cod, Then(f.impl, g.impl)))
  }

  /** Composition is associative: both bracketings exist, map every x to the
      same value, and are equal Functions exactly when the outer domain and
      codomain can be compared with themselves. */
  lemma ComposeAssociative(f: Fn, g: Fn, h: Fn)
    requires Eq(f.cod, g.dom) == Ok(true) && Eq(g.cod, h.dom) == Ok(true)
    ensures Compose(f, g).Ok? && Compose(g, h).Ok?
    ensures Compose(Compose(f, g).value, h).Ok? && Compose(f, Compose(g, h).value).Ok?
    ensures forall x :: Call(Compose(Compose(f, g).value, h).value, x)
                     == Call(Compose(f, Compose(g, h).value).value, x)
    ensures (Eq(Compose(Compose(f, g).value, h).value, Compose(f, Compose(g, h).value).value) == Ok(true))
              == (Comparable(f.dom) && Comparable(h.cod))
  {
    var l := Compose(Compose(f, g).value, h).value;
    var r := Compose(f, Compose(g, h).value).value;
    EqSelf(f.dom);
    EqSelf(h.cod);
    AndHolds(Eq(f.dom, f.dom), Eq(h.cod, h.cod));
    assert Eq(l, r) == And(Eq(f.dom, f.dom), Eq(h.cod, h.cod));
  }

  // ------------------------------------------------- the source as written

  /** `Function.__call__` as written (ht/types.py:77-78): it calls the
      codomain. Only Function and Pi objects are callable; calling any other
      type raises TypeError. */
  function CallAsWritten(f: Fn, x: Ty): (r: Result<Ty>)
    ensures Enumerable(f.cod) ==> r == Err(NotCallable)
    decreases f
  {
    match f.cod
    case Function(_, _, _) => CallAsWritten(f.cod, x)
    case Pi(_, fam) => Ok(Lookup(fam, x))
    case _ => Err(NotCallable)
  }

  /** As written, even the identity on Bool cannot be applied; with the
      closure applied, it returns its argument. */
  lemma CallAsWrittenFails(A: Ty, x: Ty)
    requires Enumerable(A)
    ensures CallAsWritten(IdFunction(A), x) == Err(NotCallable)
    ensures Call(IdFunction(A), x) == x
  {
  }

  /** `==` as written: the rules of Eq, except that every Pi comparison is
      PiEqAsWritten, so a Pi reached anywhere inside a type raises once its
      domains compare equal. */
  function EqAsWritten(a: Ty, b: Ty): (r: Result<bool>)
    ensures r.Err? ==> r == Err(NotEnumerable)
    ensures a.Pi? ==> r != Ok(true)
    decreases a, 1
  {
    match a
    case Unit => Ok(b.Unit?)
    case Bool(v) => Ok(b.Bool? && b.v == v)
    case Native(n) => Ok(b.Native? && b.b == n)
    case Function(dom, cod, _) =>
      if !b.Function? then Ok(false)
      else And(EqAsWritten(dom, b.dom), EqAsWritten(cod, b.cod))
    case Pi(_, _) => PiEqAsWritten(a, b)
    case Identity(A, x, y) =>
      if !b.Identity? then Ok(false)
      else And(EqAsWritten(A, b.A), And(EqAsWritten(x, b.x), EqAsWritten(y, b.y)))
    case Equivalence(A, B, q) =>
      if !b.Equivalence? then Ok(false)
      else And(EqAsWritten(A, b.A), And(EqAsWritten(B, b.B),
               And(EqAsWritten(q.f, b.q.f), EqAsWritten(q.g, b.q.g))))
    case Universe(level) => Ok(b.Universe? && b.level == level)
  }

  /** `Pi.__eq__` as written (ht/types.py:95-100): the domains are compared
      as written, and once they are equal the domain object is iterated,
      which no Type supports. */
  function PiEqAsWritten(a: Ty, b: Ty): (r: Result<bool>)
    requires a.Pi?
    ensures r != Ok(true)
    ensures !b.Pi? ==> r == Ok(false)
    ensures b.Pi? && EqAsWritten(a.dom, b.dom) == Ok(true) ==> r == Err(NotEnumerable)
    decreases a, 0
  {
    if !b.Pi? then Ok(false) else And(EqAsWritten(a.dom, b.dom), Err(NotEnumerable))
  }

  /** As written, Pi types whose domains are themselves Pi types over Unit
      raise while comparing the domains; corrected, the inner families
      differ and the answer is false. */
  lemma PiEqAsWrittenNested()
    ensures var inner1, inner2 := Pi(Unit, Table([], Unit)), Pi(Unit, Table([], Bool(true)));
      PiEqAsWritten(Pi(inner1, Table([], Unit)), Pi(inner2, Table([], Unit))) == Err(NotEnumerable) &&
      Eq(Pi(inner1, Table([], Unit)), Pi(inner2, Table([], Unit))) == Ok(false)
  {
    assert Lookup(Table([], Unit), Unit) == Unit;
    assert Lookup(Table([], Bool(true)), Unit) == Bool(true);
  }

  /** As written, a Pi type over Bool does not even equal itself; with the
      domain enumerated it does. */
  lemma PiEqAsWrittenFails(fam: Table)
    requires Comparable(Lookup(fam, Bool(true))) && Comparable(Lookup(fam, Bool(false)))
    ensures PiEqAsWritten(Pi(Bool(true), fam), Pi(Bool(true), fam)) == Err(NotEnumerable)
    ensures Eq(Pi(Bool(true), fam), Pi(Bool(true), fam)) == Ok(true)
  {
    EqSelf(Pi(Bool(true), fam));
  }

  /** `Equivalence.to_path` as written (ht/types.py:147-148): `Path` is
      given two of its three arguments and raises TypeError. */
  function ToPathAsWritten(e: Ty): (r: Result<Path>)
    requires e.Equivalence?
    ensures r == Err(MissingArgument)
  {
    Err(MissingArgument)
  }

  lemma ToPathAsWrittenFails(e: Ty)
    requires e.Equivalence?
    ensures ToPathAsWritten(e) == Err(MissingArgument)
    ensures ToPath(e).x == e.A && ToPath(e).y == e.B
  {
  }
}
