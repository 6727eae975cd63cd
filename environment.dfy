/**
 * Variable bindings (src/environment.py).
 *
 * The original `Environment` holds one flat dictionary from names to values
 * and takes no enclosing environment, so there is no outward lookup. The
 * dictionary is the field `values`, updated in place by `Define` and
 * `Assign`. The functions `Lookup` and `Assigned` state the same operations
 * on a map value; the interpreter's specification is written with them.
 */
module Environments {
  import opened Wrappers
  import opened Tokens
  import opened Faults

  /** `get` on a dictionary: the bound value, or "Undefined variable" at the name's token. */
  function Lookup(values: map<string, Value>, name: Token): (r: Result<Value, RuntimeError>)
    ensures r.Success? <==> name.lexeme in values
    ensures r.Success? ==> r.value == values[name.lexeme]
    ensures r.Failure? ==> r.error == Undefined(name)
  {
    if name.lexeme in values then Success(values[name.lexeme]) else Failure(Undefined(name))
  }

  /** `assign` on a dictionary: the dictionary with the bound name rebound, or the same error as `get`. */
  function Assigned(values: map<string, Value>, name: Token, value: Value): (r: Result<map<string, Value>, RuntimeError>)
    ensures r.Success? <==> name.lexeme in values
    ensures r.Failure? ==> r.error == Undefined(name)
  {
    if name.lexeme in values then Success(values[name.lexeme := value]) else Failure(Undefined(name))
  }

  /** After `define(n, v)`, `get` of a token spelled `n` returns `v`, whatever was bound before. */
  lemma GetAfterDefine(values: map<string, Value>, n: string, v: Value, name: Token)
    requires name.lexeme == n
    ensures Lookup(values[n := v], name) == Success(v)
  {
  }

  /** `define` changes no other name's binding. */
  lemma DefineKeepsOthers(values: map<string, Value>, n: string, v: Value, name: Token)
    requires name.lexeme != n
    ensures Lookup(values[n := v], name) == Lookup(values, name)
  {
  }

  /**
   * `assign` to a bound name replaces its value, keeps the set of names, and
   * changes no other binding; afterwards `get` returns the new value.
   */
  lemma AssignBound(values: map<string, Value>, name: Token, v: Value)
    requires name.lexeme in values
    ensures Assigned(values, name, v).Success?
    ensures Assigned(values, name, v).value.Keys == values.Keys
    ensures Lookup(Assigned(values, name, v).value, name) == Success(v)
    ensures forall other: Token :: other.lexeme != name.lexeme ==>
              Lookup(Assigned(values, name, v).value, other) == Lookup(values, other)
  {
  }

  /** `assign` to an unbound name fails exactly as `get` does and binds nothing. */
  lemma AssignUnbound(values: map<string, Value>, name: Token, v: Value)
    requires name.lexeme !in values
    ensures Assigned(values, name, v) == Failure(Undefined(name))
    ensures Lookup(values, name) == Failure(Undefined(name))
  {
  }

  /** `Environment`: the mutable dictionary of bindings. */
  class Environment {
    var values: map<string, Value>

    /** `__init__`: no bindings. */
    constructor ()
      ensures values == map[]
    {
      values := map[];
    }

    /** `define`: binds the name, silently replacing an existing binding. */
    method Define(name: string, value: Value)
      modifies this
      ensures values == old(values)[name := value]
    {
      values := values[name := value];
    }

    /** `assign`: rebinds a bound name; an unbound one raises and nothing changes. */
    method Assign(name: Token, value: Value) returns (r: Result<(), RuntimeError>)
      modifies this
      ensures r.Success? <==> name.lexeme in old(values)
      ensures r.Success? ==> values == old(values)[name.lexeme := value]
      ensures r.Failure? ==> values == old(values) && r.error == Undefined(name)
      ensures Assigned(old(values), name, value) == if r.Success? then Success(values) else Failure(r.error)
    {
      if name.lexeme in values {
        values := values[name.lexeme := value];
        return Success(());
      }
      return Failure(Undefined(name));
    }

    /** `get`: the bound value, or the "Undefined variable" error; it changes nothing. */
    method Get(name: Token) returns (r: Result<Value, RuntimeError>)
      ensures r == Lookup(values, name)
      ensures r.Success? <==> name.lexeme in values
    {
      if name.lexeme in values {
        return Success(values[name.lexeme]);
      }
      return Failure(Undefined(name));
    }
  }
}
