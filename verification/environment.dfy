/**
 * The operations of the Ruby `Environment` on a chain of scopes. Each one
 * returns the updated chain instead of changing a hash in place.
 */
module Environment {
  import opened Basics
  import opened Tokens
  import opened Values

  /** The message of an `EnvironmentError` about `name`. */
  function Undefined(name: string): string
  {
    "Undefined variable " + name + "."
  }

  /** `Environment.new(enclosing)`: an empty hash in front of the enclosing chain, if any. */
  function NewEnv(enclosing: Env): (e: Env)
    ensures ValidEnv(e) && |e| == |enclosing| + 1
    ensures e[0] == map[] && e[1..] == enclosing
  {
    [map[]] + enclosing
  }

  /** `define(name, value)`: writes the current scope only, replacing any earlier entry. */
  function Define(e: Env, name: string, v: Value): (r: Env)
    requires ValidEnv(e)
    ensures ValidEnv(r) && |r| == |e|
    ensures r[0] == e[0][name := v] && r[1..] == e[1..]
  {
    e[0 := e[0][name := v]]
  }

  /** `i` is the innermost scope of `e` that holds `name`. */
  predicate Nearest(e: Env, name: string, i: nat)
  {
    && i < |e|
    && name in e[i]
    && forall j :: 0 <= j < i ==> name !in e[j]
  }

  /** No scope of `e` holds `name`. */
  predicate Unbound(e: Env, name: string)
  {
    forall i :: 0 <= i < |e| ==> name !in e[i]
  }

  /** The position of the innermost scope holding `name`, if there is one. */
  function Lookup(e: Env, name: string): (r: Option<nat>)
    ensures r.Some? ==> Nearest(e, name, r.value)
    ensures r.None? ==> Unbound(e, name)
  {
    if |e| == 0 then None
    else if name in e[0] then Some(0)
    else
      var r := Lookup(e[1..], name);
      if r.Some? then Some(r.value + 1) else None
  }

  /**
   * `get(token)`: the value in the nearest scope that holds the name; when
   * there is no enclosing environment left, "Undefined variable <name>."
   */
  function Get(e: Env, t: Token): (r: Result<Value>)
    requires ValidEnv(e)
    ensures r.Ok? <==> Lookup(e, t.lexeme).Some?
    ensures r.Ok? ==> r.value == e[Lookup(e, t.lexeme).value][t.lexeme]
    ensures r.Err? ==> r.error == RuntimeError(t, Undefined(t.lexeme))
  {
    if t.lexeme in e[0] then Ok(e[0][t.lexeme])
    else if |e| == 1 then Err(RuntimeError(t, Undefined(t.lexeme)))
    else Get(e[1..], t)
  }

  /**
   * `assign(token, value)`: replaces the value in the nearest scope that
   * holds the name and nowhere else; it never creates a binding.
   */
  function Assign(e: Env, t: Token, v: Value): (r: Result<Env>)
    requires ValidEnv(e)
    ensures r.Ok? <==> Lookup(e, t.lexeme).Some?
    ensures r.Ok? ==> var i := Lookup(e, t.lexeme).value; r.value == e[i := e[i][t.lexeme := v]]
    ensures r.Err? ==> r.error == RuntimeError(t, Undefined(t.lexeme))
  {
    if t.lexeme in e[0] then Ok(e[0 := e[0][t.lexeme := v]])
    else if |e| == 1 then Err(RuntimeError(t, Undefined(t.lexeme)))
    else
      var rest := Assign(e[1..], t, v);
      if rest.Err? then rest else Ok([e[0]] + rest.value)
  }

  /**
   * The scope `ancestor(distance)` reads. The Ruby loop only follows a link
   * that exists, so a distance beyond the chain stops at the outermost
   * scope; only an environment without any enclosing one fails, on the
   * `nil` link, for every distance above 0.
   */
  function Ancestor(e: Env, distance: nat): (r: Option<nat>)
    requires ValidEnv(e)
    ensures r.Some? <==> distance == 0 || |e| > 1
    ensures r.Some? && distance < |e| ==> r.value == distance
    ensures r.Some? && distance >= |e| ==> r.value == |e| - 1
  {
    if distance == 0 then Some(0)
    else if |e| == 1 then None
    else if distance < |e| then Some(distance)
    else Some(|e| - 1)
  }

  /**
   * The `(1...distance).each` loop of `ancestor`, step by step: from scope
   * `i`, `steps` times move out one scope if there is one.
   */
  function AncestorLoop(e: Env, i: nat, steps: nat): (r: nat)
    requires i < |e|
    ensures r < |e|
    decreases steps
  {
    if steps == 0 then i
    else if i + 1 < |e| then AncestorLoop(e, i + 1, steps - 1)
    else AncestorLoop(e, i, steps - 1)
  }

  /** `Ancestor` is what the loop computes, starting from the enclosing scope. */
  lemma {:induction false} AncestorIsLoop(e: Env, distance: nat)
    requires ValidEnv(e) && distance > 0 && |e| > 1
    ensures Ancestor(e, distance) == Some(AncestorLoop(e, 1, distance - 1))
  {
    LoopClamps(e, 1, distance - 1);
  }

  lemma {:induction false} LoopClamps(e: Env, i: nat, steps: nat)
    requires i < |e|
    ensures AncestorLoop(e, i, steps) == if i + steps < |e| then i + steps else |e| - 1
    decreases steps
  {
    if steps > 0 {
      if i + 1 < |e| {
        LoopClamps(e, i + 1, steps - 1);
      } else {
        LoopClamps(e, i, steps - 1);
      }
    }
  }

  /** `get_at(distance, token)`: the ancestor scope's entry, `nil` when it has none; no walk along the chain. */
  function GetAt(e: Env, distance: nat, t: Token): (r: Option<Value>)
    requires ValidEnv(e)
    ensures r.Some? <==> Ancestor(e, distance).Some?
    ensures r.Some? ==> var i := Ancestor(e, distance).value;
      r.value == if t.lexeme in e[i] then e[i][t.lexeme] else NilValue
  {
    match Ancestor(e, distance)
    case None => None
    case Some(i) => Some(if t.lexeme in e[i] then e[i][t.lexeme] else NilValue)
  }

  /** `assign_at(distance, token, value)`: writes the ancestor scope, creating the entry if needed. */
  function AssignAt(e: Env, distance: nat, t: Token, v: Value): (r: Option<Env>)
    requires ValidEnv(e)
    ensures r.Some? <==> Ancestor(e, distance).Some?
    ensures r.Some? ==> var i := Ancestor(e, distance).value; r.value == e[i := e[i][t.lexeme := v]]
  {
    match Ancestor(e, distance)
    case None => None
    case Some(i) => Some(e[i := e[i][t.lexeme := v]])
  }

  /** Every scope of `a` holds exactly the names of the same scope of `b`. */
  predicate SameNames(a: Env, b: Env)
  {
    |a| == |b| && forall i :: 0 <= i < |a| ==> a[i].Keys == b[i].Keys
  }

  // ---------------------------------------------------------------------------
  // Properties

  /** A name just defined reads back, from the current scope. */
  lemma GetAfterDefine(e: Env, t: Token, v: Value)
    requires ValidEnv(e)
    ensures Get(Define(e, t.lexeme, v), t) == Ok(v)
  {
  }

  /** Defining one name leaves every other name's value alone. */
  lemma DefineKeepsOthers(e: Env, name: string, v: Value, t: Token)
    requires ValidEnv(e) && t.lexeme != name
    ensures Get(Define(e, name, v), t) == Get(e, t)
  {
    var d := Define(e, name, v);
    assert forall j :: 0 <= j < |e| ==> (t.lexeme in d[j] <==> t.lexeme in e[j]);
    LookupSameNames(d, e, t.lexeme);
  }

  /** Lookup depends on the names alone. */
  lemma {:induction false} LookupSameNames(a: Env, b: Env, name: string)
    requires |a| == |b| && forall j :: 0 <= j < |a| ==> (name in a[j] <==> name in b[j])
    ensures Lookup(a, name) == Lookup(b, name)
  {
    if |a| > 0 && name !in a[0] {
      LookupSameNames(a[1..], b[1..], name);
    }
  }

  /** An assignment that succeeds reads back. */
  lemma GetAfterAssign(e: Env, t: Token, v: Value)
    requires ValidEnv(e) && Assign(e, t, v).Ok?
    ensures Get(Assign(e, t, v).value, t) == Ok(v)
  {
    var i := Lookup(e, t.lexeme).value;
    var a := Assign(e, t, v).value;
    LookupSameNames(a, e, t.lexeme);
  }

  /** Assignment never adds or removes a name anywhere in the chain. */
  lemma AssignKeepsNames(e: Env, t: Token, v: Value)
    requires ValidEnv(e) && Assign(e, t, v).Ok?
    ensures SameNames(Assign(e, t, v).value, e)
  {
    var i := Lookup(e, t.lexeme).value;
    assert e[i][t.lexeme := v].Keys == e[i].Keys;
  }

  /** A fresh scope in front hides nothing: reads go through to the enclosing chain. */
  lemma GetThroughNewScope(e: Env, t: Token)
    requires ValidEnv(e)
    ensures Get(NewEnv(e), t) == Get(e, t)
  {
    assert NewEnv(e)[1..] == e;
  }

  /** A value written with `assign_at` reads back with `get_at` at the same distance. */
  lemma GetAtAfterAssignAt(e: Env, distance: nat, t: Token, v: Value)
    requires ValidEnv(e) && AssignAt(e, distance, t, v).Some?
    ensures GetAt(AssignAt(e, distance, t, v).value, distance, t) == Some(v)
  {
  }

  /** `get_at` at distance 0 of an environment that does not hold the name is `nil`, even when an outer scope holds it. */
  lemma GetAtDoesNotWalk(e: Env, t: Token)
    requires ValidEnv(e) && t.lexeme !in e[0]
    ensures GetAt(e, 0, t) == Some(NilValue)
  {
  }
}
