/** The named-type registry and universe levels (ht/space.py). */
module Spaces {
  import opened Types

  datatype Option<T> = None | Some(value: T)

  /** A table from names to types, updated in place by AddType. */
  class Space {
    var types: map<string, Ty>

    /** A fresh Space binds no name. */
    constructor ()
      ensures forall name :: GetType(name) == None
    {
      types := map[];
    }

    /** `add_type(name, t)`: binds `name` to `t`, replacing any earlier
        binding, and leaves every other name as it was. */
    method AddType(name: string, t: Ty)
      modifies this
      ensures types == old(types)[name := t]
      ensures GetType(name) == Some(t)
      ensures forall other :: other != name ==> GetType(other) == old(GetType(other))
    {
      types := types[name := t];
    }

    /** `get_type(name)`: the type bound to `name`, absent for a name never
        bound. Being a function, it changes nothing. */
    function GetType(name: string): (r: Option<Ty>)
      reads this
      ensures r == None <==> name !in types
      ensures r.Some? ==> r.value == types[name]
    {
      if name in types then Some(types[name]) else None
    }
  }

  /** `Universe.__eq__`: two universes are equal exactly when their levels
      are; a Universe never equals anything else, whichever side it is on. */
  lemma UniverseEq(level: int, b: Ty)
    ensures Eq(Universe(level), b) == Ok(b.Universe? && b.level == level)
    ensures Eq(b, Universe(level)) == Ok(b.Universe? && b.level == level)
  {
    EqSymmetric(b, Universe(level));
  }

  /** The driver's use of the registry: the two base types are bound under
      their names, and a lookup gives each one back. */
  method RegisterBaseTypes() returns (s: Space)
    ensures fresh(s)
    ensures s.GetType("Unit") == Some(Unit) && s.GetType("Bool") == Some(Bool(true))
    ensures forall name :: name != "Unit" && name != "Bool" ==> s.GetType(name) == None
  {
    s := new Space();
    s.AddType("Unit", Unit);
    s.AddType("Bool", Bool(true));
  }
}
