/**
 * The static `Resolver` pass: a stack of scopes, innermost last as in the
 * Ruby array, whose entries are declared (`false`) or defined (`true`).
 * Each reference to a name defined in some scope gets the number of scopes
 * between it and that scope; the pass stops at the first scope error.
 *
 * The distances are returned in visiting order instead of being handed to
 * the interpreter, whose `resolve` hook is not part of this model.
 */
module Resolver {
  import opened Basics
  import opened Tokens
  import opened Ast

  const AlreadyDeclaredMessage := "Already a variable with this name in this scope."
  const OwnInitializerMessage := "Can't read local variable in its own initializer."
  const TopLevelReturnMessage := "Can't return from top-level code."

  /** `current_function_type`: `:none` or `:function`. */
  datatype FunctionType = NoFunction | InFunction

  /** One scope: each name is declared (`false`) or defined (`true`). */
  type Scope = map<string, bool>

  /** A reference and its scope distance, as `resolve_local` finds it. */
  datatype Resolution = Resolution(name: Token, distance: nat)

  /** The state of a `Resolver`, with the distances found so far. */
  datatype State = State(scopes: seq<Scope>, current: FunctionType, resolutions: seq<Resolution>)

  /** A raised `ResolverError`. */
  datatype ScopeError = ScopeError(token: Token, message: string)

  /** Why a pass ends without a `ResolverError`: a `nil` statement, or a call of a method that does not exist. */
  datatype Abort = NilStatement | NoSuchMethod(name: string)

  /** The outcome of resolving a node: the new state, a scope error, or an abort. */
  datatype Pass = Resolved(state: State) | Failed(error: ScopeError) | Aborted(abort: Abort)

  /** A fresh `Resolver`: no scopes, outside any function, nothing resolved. */
  const Initial := State([], NoFunction, [])

  /** `begin_scope`: push an empty scope. */
  function BeginScope(st: State): (r: State)
    ensures r.scopes == st.scopes + [map[]]
    ensures r.current == st.current && r.resolutions == st.resolutions
  {
    st.(scopes := st.scopes + [map[]])
  }

  /** `end_scope`: pop the innermost scope. */
  function EndScope(st: State): (r: State)
    requires |st.scopes| > 0
    ensures r.scopes + [st.scopes[|st.scopes| - 1]] == st.scopes
    ensures r.current == st.current && r.resolutions == st.resolutions
  {
    st.(scopes := st.scopes[..|st.scopes| - 1])
  }

  /** `name` is defined (mapped to `true`) in scope `i`. */
  predicate DefinedIn(scopes: seq<Scope>, i: nat, name: string)
    requires i < |scopes|
  {
    name in scopes[i] && scopes[i][name]
  }

  /** `name` is mapped to `false` in the innermost scope: declared, its initializer not yet resolved. */
  predicate DeclaredInnermost(scopes: seq<Scope>, name: string)
  {
    |scopes| > 0 && name in scopes[|scopes| - 1] && !scopes[|scopes| - 1][name]
  }

  /** `name` is defined in the innermost scope. */
  predicate DefinedInnermost(scopes: seq<Scope>, name: string)
  {
    |scopes| > 0 && DefinedIn(scopes, |scopes| - 1, name)
  }

  /** Writes one entry of the innermost scope; nothing when there is no scope. */
  function Mark(st: State, name: string, defined: bool): (r: State)
    ensures |r.scopes| == |st.scopes| && r.current == st.current && r.resolutions == st.resolutions
    ensures |st.scopes| == 0 ==> r == st
    ensures |st.scopes| > 0 ==>
      r.scopes == st.scopes[|st.scopes| - 1 := st.scopes[|st.scopes| - 1][name := defined]]
  {
    if |st.scopes| == 0 then st
    else st.(scopes := st.scopes[|st.scopes| - 1 := st.scopes[|st.scopes| - 1][name := defined]])
  }

  /**
   * `declare(name)` as the source means it: a name already defined in the
   * innermost scope is a `ResolverError`; otherwise it becomes declared.
   */
  function Declare(st: State, name: Token): (r: Pass)
    ensures r.Failed? <==> DefinedInnermost(st.scopes, name.lexeme)
    ensures r.Failed? ==> r.error == ScopeError(name, AlreadyDeclaredMessage)
    ensures r.Resolved? ==> r.state == Mark(st, name.lexeme, false)
    ensures !r.Aborted?
  {
    if DefinedInnermost(st.scopes, name.lexeme) then Failed(ScopeError(name, AlreadyDeclaredMessage))
    else Resolved(Mark(st, name.lexeme, false))
  }

  /**
   * `declare(name)` as written: line 141 calls a method `ResolverError`
   * instead of `ResolverError.new`, so Ruby raises NoMethodError there.
   */
  function DeclareAsWritten(st: State, name: Token): (r: Pass)
    ensures r.Aborted? <==> DefinedInnermost(st.scopes, name.lexeme)
    ensures r.Aborted? ==> r.abort == NoSuchMethod("ResolverError")
    ensures r.Resolved? ==> r.state == Mark(st, name.lexeme, false)
    ensures !r.Failed?
  {
    if DefinedInnermost(st.scopes, name.lexeme) then Aborted(NoSuchMethod("ResolverError"))
    else Resolved(Mark(st, name.lexeme, false))
  }

  /** `define(name)`: the name becomes defined in the innermost scope, if there is one. */
  function Define(st: State, name: Token): (r: State)
    ensures |st.scopes| > 0 ==> DefinedInnermost(r.scopes, name.lexeme)
    ensures |r.scopes| == |st.scopes| && r.current == st.current && r.resolutions == st.resolutions
  {
    Mark(st, name.lexeme, true)
  }

  /**
   * The distance `resolve_local` finds: scopes are searched innermost
   * outward, only defined entries count, and the distance is the number of
   * scopes passed over.
   */
  function Distance(scopes: seq<Scope>, name: string): (d: Option<nat>)
    ensures d.Some? ==>
      && d.value < |scopes|
      && DefinedIn(scopes, |scopes| - 1 - d.value, name)
      && forall k :: |scopes| - 1 - d.value < k < |scopes| ==> !DefinedIn(scopes, k, name)
    ensures d.None? ==> forall k :: 0 <= k < |scopes| ==> !DefinedIn(scopes, k, name)
  {
    if |scopes| == 0 then None
    else if DefinedIn(scopes, |scopes| - 1, name) then Some(0)
    else
      var outer := scopes[..|scopes| - 1];
      assert forall k | 0 <= k < |outer| :: DefinedIn(outer, k, name) == DefinedIn(scopes, k, name);
      var d := Distance(outer, name);
      if d.None? then None else Some(d.value + 1)
  }

  /** `resolve_local(expr, name)`: record the distance on a hit, nothing on a miss. */
  function ResolveLocal(st: State, name: Token): (r: State)
    ensures r.scopes == st.scopes && r.current == st.current
    ensures Distance(st.scopes, name.lexeme).None? ==> r.resolutions == st.resolutions
    ensures Distance(st.scopes, name.lexeme).Some? ==>
      r.resolutions == st.resolutions + [Resolution(name, Distance(st.scopes, name.lexeme).value)]
  {
    match Distance(st.scopes, name.lexeme)
    case None => st
    case Some(d) => st.(resolutions := st.resolutions + [Resolution(name, d)])
  }

  /** An expression pass left the scopes and function type alone and only added resolutions. */
  predicate OnlyResolved(st: State, r: Pass)
  {
    r.Resolved? ==>
      && r.state.scopes == st.scopes
      && r.state.current == st.current
      && st.resolutions <= r.state.resolutions
  }

  /**
   * `visit(expr)`: resolves the sub-expressions in source order; a variable
   * read while it is only declared in the innermost scope is an error.
   */
  function ResolveExpr(e: Expr, st: State): (r: Pass)
    ensures !r.Aborted?
    ensures OnlyResolved(st, r)
    decreases e, 1
  {
    match e
    case Assign(name, value) =>
      var v := ResolveExpr(value, st);
      if !v.Resolved? then v else Resolved(ResolveLocal(v.state, name))
    case Binary(_, _, _) => ResolveOperands(e, st)
    case Call(callee, _, _) =>
      var c := ResolveExpr(callee, st);
      if !c.Resolved? then c else ResolveArguments(e, 0, c.state)
    case Grouping(g) => ResolveExpr(g, st)
    case Literal(_) => Resolved(st)
    case Logical(_, _, _) => ResolveOperands(e, st)
    case Unary(_, rt) => ResolveExpr(rt, st)
    case Variable(name) =>
      if DeclaredInnermost(st.scopes, name.lexeme) then Failed(ScopeError(name, OwnInitializerMessage))
      else Resolved(ResolveLocal(st, name))
  }

  /** The two operands of a binary or logical expression, left first. */
  function ResolveOperands(e: Expr, st: State): (r: Pass)
    requires e.Binary? || e.Logical?
    ensures !r.Aborted?
    ensures OnlyResolved(st, r)
    decreases e, 0
  {
    var a := ResolveExpr(e.leftExpr, st);
    if !a.Resolved? then a else ResolveExpr(e.rightExpr, a.state)
  }

  /** The arguments of call `e` from the `i`th on, in order. */
  function ResolveArguments(e: Expr, i: nat, st: State): (r: Pass)
    requires e.Call? && i <= |e.arguments|
    ensures !r.Aborted?
    ensures OnlyResolved(st, r)
    decreases e, 0, |e.arguments| - i
  {
    if i == |e.arguments| then Resolved(st)
    else
      var a := ResolveExpr(e.arguments[i], st);
      if !a.Resolved? then a else ResolveArguments(e, i + 1, a.state)
  }

  /** A statement pass left the scope depth and function type as they were. */
  predicate Restored(st: State, r: Pass)
  {
    r.Resolved? ==> |r.state.scopes| == |st.scopes| && r.state.current == st.current
  }

  /**
   * `visit(stmt)`. Blocks and functions push scopes and pop them again; a
   * `return` outside any function is an error; the first error ends the pass.
   */
  function ResolveStmt(s: Stmt, st: State): (r: Pass)
    ensures Restored(st, r)
    decreases s, 2
  {
    match s
    case Block(ss) =>
      var inner := ResolveList(ss, 0, BeginScope(st));
      if !inner.Resolved? then inner else Resolved(EndScope(inner.state))
    case Expression(e) => ResolveExpr(e, st)
    case Function(name, _, _) =>
      var d := Declare(st, name);
      if !d.Resolved? then d else ResolveFunction(s, Define(d.state, name))
    case If(c, t, el) =>
      var a := ResolveExpr(c, st);
      if !a.Resolved? then a
      else
        var b := ResolveStmt(t, a.state);
        if !b.Resolved? || el.None? then b else ResolveStmt(el.value, b.state)
    case Print(e) => ResolveExpr(e, st)
    case Return(keyword, value) =>
      if st.current == NoFunction then Failed(ScopeError(keyword, TopLevelReturnMessage))
      else if value.None? then Resolved(st)
      else ResolveExpr(value.value, st)
    case Var(name, init) =>
      var d := Declare(st, name);
      if !d.Resolved? then d
      else if init.None? then Resolved(Define(d.state, name))
      else
        var i := ResolveExpr(init.value, d.state);
        if !i.Resolved? then i else Resolved(Define(i.state, name))
    case While(c, body) =>
      var a := ResolveExpr(c, st);
      if !a.Resolved? then a else ResolveStmt(body, a.state)
  }

  /**
   * `resolve_function(function, :function)`: a scope of parameters, each
   * declared and defined in order, around the body, which as a block
   * pushes a second scope; the enclosing function type comes back after.
   */
  function ResolveFunction(s: Stmt, st: State): (r: Pass)
    requires s.Function?
    ensures Restored(st, r)
    decreases s, 1
  {
    var params := ResolveParams(s.params, 0, BeginScope(st.(current := InFunction)));
    if !params.Resolved? then params
    else
      var body := ResolveStmt(s.body, params.state);
      if !body.Resolved? then body
      else Resolved(EndScope(body.state).(current := st.current))
  }

  /** Declares and defines the parameters from the `i`th on. */
  function ResolveParams(params: seq<Token>, i: nat, st: State): (r: Pass)
    requires i <= |params|
    ensures !r.Aborted?
    ensures r.Resolved? ==> |r.state.scopes| == |st.scopes| && r.state.current == st.current
    ensures r.Resolved? ==> r.state.resolutions == st.resolutions
    decreases |params| - i
  {
    if i == |params| then Resolved(st)
    else
      var d := Declare(st, params[i]);
      if !d.Resolved? then d else ResolveParams(params, i + 1, Define(d.state, params[i]))
  }

  /** `statements.each { |stmt| visit(stmt) }` from entry `i` on; a `nil` entry aborts. */
  function ResolveList(ss: seq<Option<Stmt>>, i: nat, st: State): (r: Pass)
    requires i <= |ss|
    ensures Restored(st, r)
    decreases Block(ss), 0, |ss| - i
  {
    if i == |ss| then Resolved(st)
    else if ss[i].None? then Aborted(NilStatement)
    else
      var first := ResolveStmt(ss[i].value, st);
      if !first.Resolved? then first else ResolveList(ss, i + 1, first.state)
  }

  /** `Resolver.new(...).resolve(statements)`. */
  function Resolve(ss: seq<Option<Stmt>>): (r: Pass)
    ensures r.Resolved? ==> r.state.scopes == [] && r.state.current == NoFunction
  {
    ResolveList(ss, 0, Initial)
  }
}
