/** Values and nested variable scopes. */
module Scopes {
  import opened Wrappers

  /** The four kinds of value; `Numeric` stands for a `long double` read as an exact rational. */
  datatype Object =
    | Numeric(number: real)
    | Boolean(truth: bool)
    | String(text: string)
    | Symbol(name: string)

  /** The bindings of a scope and of all its ancestors, innermost first. */
  type Chain = seq<map<string, Object>>

  /** Name resolution through a chain: the innermost binding wins. */
  function Lookup(chain: Chain, name: string): Option<Object> {
    if |chain| == 0 then None
    else if name in chain[0] then Some(chain[0][name])
    else Lookup(chain[1..], name)
  }

  /** Assignment through a chain: the innermost scope binding `name` is updated;
      if none does, the outermost scope gets a new binding. */
  function AssignChain(chain: Chain, name: string, value: Object): Chain
    requires |chain| > 0
  {
    if name in chain[0] || |chain| == 1 then [chain[0][name := value]] + chain[1..]
    else [chain[0]] + AssignChain(chain[1..], name, value)
  }

  /** The index of the scope an assignment to `name` lands in. */
  function Owner(chain: Chain, name: string): (k: nat)
    requires |chain| > 0
    ensures k < |chain|
    ensures forall j :: 0 <= j < k ==> name !in chain[j]
    ensures name in chain[k] || k == |chain| - 1
  {
    if name in chain[0] || |chain| == 1 then 0 else 1 + Owner(chain[1..], name)
  }

  /** Assignment changes exactly one scope, the owner, and only at `name`. */
  lemma {:induction false} AssignChangesOnlyOwner(chain: Chain, name: string, value: Object)
    requires |chain| > 0
    ensures AssignChain(chain, name, value) == chain[Owner(chain, name) := chain[Owner(chain, name)][name := value]]
  {
    if name in chain[0] || |chain| == 1 {
    } else {
      AssignChangesOnlyOwner(chain[1..], name, value);
    }
  }

  /** Lookup finds nothing exactly when no scope binds the name. */
  lemma {:induction false} LookupNoneIffUnbound(chain: Chain, name: string)
    ensures Lookup(chain, name).None? <==> forall j :: 0 <= j < |chain| ==> name !in chain[j]
  {
    if |chain| > 0 && name !in chain[0] {
      LookupNoneIffUnbound(chain[1..], name);
      assert forall j :: 1 <= j < |chain| ==> chain[j] == chain[1..][j - 1];
    }
  }

  /** Lookup returns the binding of the innermost scope that binds the name. */
  lemma {:induction false} LookupFindsInnermost(chain: Chain, name: string, k: nat)
    requires k < |chain| && name in chain[k]
    requires forall j :: 0 <= j < k ==> name !in chain[j]
    ensures Lookup(chain, name) == Some(chain[k][name])
  {
    if k > 0 {
      LookupFindsInnermost(chain[1..], name, k - 1);
    }
  }

  /** After an assignment the name reads back the assigned value. */
  lemma {:induction false} LookupAfterAssign(chain: Chain, name: string, value: Object)
    requires |chain| > 0
    ensures Lookup(AssignChain(chain, name, value), name) == Some(value)
  {
    if name in chain[0] || |chain| == 1 {
    } else {
      LookupAfterAssign(chain[1..], name, value);
      assert AssignChain(chain, name, value)[1..] == AssignChain(chain[1..], name, value);
    }
  }

  /** An assignment does not disturb any other name. */
  lemma {:induction false} LookupOtherAfterAssign(chain: Chain, name: string, value: Object, other: string)
    requires |chain| > 0 && other != name
    ensures Lookup(AssignChain(chain, name, value), other) == Lookup(chain, other)
  {
    if name in chain[0] || |chain| == 1 {
      assert AssignChain(chain, name, value)[1..] == chain[1..];
    } else {
      LookupOtherAfterAssign(chain[1..], name, value, other);
      assert AssignChain(chain, name, value)[1..] == AssignChain(chain[1..], name, value);
    }
  }

  /** Assigning the same value twice is the same as assigning it once. */
  lemma {:induction false} AssignIdempotent(chain: Chain, name: string, value: Object)
    requires |chain| > 0
    ensures AssignChain(AssignChain(chain, name, value), name, value) == AssignChain(chain, name, value)
  {
    if name in chain[0] || |chain| == 1 {
      var once := AssignChain(chain, name, value);
      assert once[0][name := value] == once[0];
      assert once[1..] == chain[1..];
    } else {
      AssignIdempotent(chain[1..], name, value);
      assert AssignChain(chain, name, value)[1..] == AssignChain(chain[1..], name, value);
    }
  }

  /** A name bound nowhere is created in the outermost (global) scope. */
  lemma NewNameGoesToOutermost(chain: Chain, name: string, value: Object)
    requires |chain| > 0
    requires forall j :: 0 <= j < |chain| ==> name !in chain[j]
    ensures Owner(chain, name) == |chain| - 1
  {
  }

  /** Scope: a table of bindings and an optional parent. The parent link never
      changes; `Repr` is the scope together with all its ancestors. */
  class Scope {
    var values: map<string, Object>
    const parent: Scope?
    ghost const Repr: set<Scope>

    ghost predicate Valid()
      decreases Repr
    {
      this in Repr &&
      (parent == null ==> Repr == {this}) &&
      (parent != null ==>
        parent in Repr && parent.Repr < Repr && this !in parent.Repr &&
        Repr == {this} + parent.Repr && parent.Valid())
    }

    /** The bindings seen from this scope, innermost first. */
    ghost function Chain(): (c: Chain)
      requires Valid()
      reads Repr
      decreases Repr
      ensures |c| > 0 && c[0] == values
    {
      [values] + (if parent == null then [] else parent.Chain())
    }

    /** Scope::Scope: an empty scope under `parent`. */
    constructor (parent: Scope?)
      requires parent != null ==> parent.Valid()
      ensures Valid() && this.parent == parent
      ensures Chain() == [map[]] + (if parent == null then [] else parent.Chain())
    {
      values := map[];
      this.parent := parent;
      Repr := {this} + (if parent == null then {} else parent.Repr);
    }

    /** Scope::Get: the value of the innermost binding of `name`, if any. */
    function Get(name: string): (r: Option<Object>)
      requires Valid()
      reads Repr
      decreases Repr
      ensures r == Lookup(Chain(), name)
    {
      if name !in values then
        if parent != null then parent.Get(name) else None
      else Some(values[name])
    }

    /** Scope::Assign: update the innermost binding of `name`, or create it in
        the outermost scope when no scope binds it. */
    method Assign(name: string, value: Object)
      requires Valid()
      modifies Repr
      decreases Repr
      ensures Chain() == AssignChain(old(Chain()), name, value)
    {
      if name !in values && parent != null {
        parent.Assign(name, value);
      } else {
        values := values[name := value];
      }
    }
  }
}
