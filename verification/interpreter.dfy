/**
 * The tree-walking `Interpreter`: expressions evaluate to values in an
 * environment chain, statements run in order, and every `interpret` call
 * reports the first runtime error of its list and drops the rest.
 *
 * Only the visitors the Ruby class defines are modelled. A node without a
 * visitor (`Call`, `Function`, `While`, `Return`) or a `nil` entry makes
 * Ruby raise an exception `interpret` does not rescue; that is a `Crashed`
 * run here and ends every enclosing list.
 */
module Interpreter {
  import opened Basics
  import opened Tokens
  import opened Ast
  import opened Values
  import opened Environment
  import opened Callables
  import opened Operations

  /** Evaluating an expression: its value, a raised error, or a crash; the first two with the environment left behind. */
  datatype Eval = Val(value: Value, env: Env) | Throw(error: RuntimeError, env: Env) | Stop(halt: Halt)

  /** What a run produces on its way: a `puts` of `print`, or a reported runtime error. */
  datatype Event = Printed(value: Value) | Reported(error: RuntimeError)

  /** Running a statement or a list: normal completion, a raised error, or a crash; each with the events produced. */
  datatype Completion =
    | Ran(env: Env, out: seq<Event>)
    | Threw(error: RuntimeError, env: Env, out: seq<Event>)
    | Crashed(halt: Halt, out: seq<Event>)

  /** `a` is `b` with at most some names added to the current scope: what a `define` can do. */
  predicate Extends(a: Env, b: Env)
  {
    && |a| == |b| > 0
    && b[0].Keys <= a[0].Keys
    && forall i :: 1 <= i < |a| ==> a[i].Keys == b[i].Keys
  }

  /** An operator's outcome, in the environment its operands left. */
  function FromApplied(r: Applied, env: Env): (e: Eval)
    ensures r.Gives? ==> e == Val(r.value, env)
    ensures r.Raises? ==> e == Throw(r.error, env)
    ensures r.Undefined? ==> e == Stop(r.halt)
  {
    match r
    case Gives(v) => Val(v, env)
    case Raises(err) => Throw(err, env)
    case Undefined(h) => Stop(h)
  }

  /** A statement that only evaluates, ending as its expression ends. */
  function Lift(r: Eval, out: seq<Event>): (c: Completion)
    ensures r.Val? ==> c == Ran(r.env, out)
    ensures r.Throw? ==> c == Threw(r.error, r.env, out)
    ensures r.Stop? ==> c == Crashed(r.halt, out)
  {
    match r
    case Val(_, env) => Ran(env, out)
    case Throw(err, env) => Threw(err, env, out)
    case Stop(h) => Crashed(h, out)
  }

  /**
   * `evaluate(expr)`. Evaluation can rebind names (through `Assign`) but
   * never adds or removes one, in any scope.
   */
  function Evaluate(e: Expr, env: Env): (r: Eval)
    requires ValidEnv(env)
    ensures !r.Stop? ==> SameNames(r.env, env)
    decreases e
  {
    match e
    case Assign(name, value) =>
      var v := Evaluate(value, env);
      if !v.Val? then v else AssignResult(name, v.value, v.env)
    case Binary(l, op, rt) =>
      var a := Evaluate(l, env);
      if !a.Val? then a
      else
        var b := Evaluate(rt, a.env);
        if !b.Val? then b else FromApplied(ApplyBinary(op, a.value, b.value), b.env)
    case Call(_, _, _) => Stop(MissingVisitor("visit_expr_call"))
    case Grouping(inner) => Evaluate(inner, env)
    case Literal(l) => Val(FromLiteral(l), env)
    case Logical(l, op, rt) =>
      var a := Evaluate(l, env);
      if !a.Val? then a
      else if Truthy(a.value) == (op.kind == Or) then a
      else Evaluate(rt, a.env)
    case Unary(op, rt) =>
      var v := Evaluate(rt, env);
      if !v.Val? then v else FromApplied(ApplyUnary(op, v.value), v.env)
    case Variable(name) =>
      match Get(env, name)
      case Ok(v) => Val(v, env)
      case Err(err) => Throw(err, env)
  }

  /** `visit_expr_assign` once its value is known: the value itself, or the `assign` error. */
  function AssignResult(name: Token, v: Value, env: Env): (r: Eval)
    requires ValidEnv(env)
    ensures !r.Stop? && SameNames(r.env, env)
    ensures r.Val? <==> Lookup(env, name.lexeme).Some?
    ensures r.Val? ==> r.value == v && Get(r.env, name) == Ok(v)
  {
    match Environment.Assign(env, name, v)
    case Ok(env') =>
      AssignKeepsNames(env, name, v);
      GetAfterAssign(env, name, v);
      Val(v, env')
    case Err(err) => Throw(err, env)
  }

  /**
   * `evaluate(stmt)` for a statement. Only a `define` of a `var` adds a
   * name, and only to the current scope; a block never leaves one behind
   * and never raises, since its own `interpret` reports the error.
   */
  function Execute(s: Stmt, env: Env): (r: Completion)
    requires ValidEnv(env)
    ensures !r.Crashed? ==> Extends(r.env, env)
    ensures s.Block? ==> !r.Threw?
    ensures s.Block? && r.Ran? ==> SameNames(r.env, env)
    decreases s, 1
  {
    match s
    case Block(ss) =>
      var r := InterpretFrom(ss, NewEnv(env), 0);
      if r.Crashed? then r else Ran(r.env[1..], r.out)
    case Expression(e) => Lift(Evaluate(e, env), [])
    case Function(_, _, _) => Crashed(MissingVisitor("visit_stmt_function"), [])
    case If(c, t, el) =>
      var v := Evaluate(c, env);
      if !v.Val? then Lift(v, [])
      else if Truthy(v.value) then Execute(t, v.env)
      else if el.Some? then Execute(el.value, v.env)
      else Ran(v.env, [])
    case Print(e) =>
      var v := Evaluate(e, env);
      if !v.Val? then Lift(v, []) else Ran(v.env, [Printed(v.value)])
    case Return(_, _) => Crashed(MissingVisitor("visit_stmt_return"), [])
    case Var(name, init) =>
      if init.None? then Ran(Define(env, name.lexeme, NilValue), [])
      else
        var v := Evaluate(init.value, env);
        if !v.Val? then Lift(v, []) else Ran(Define(v.env, name.lexeme, v.value), [])
    case While(_, _) => Crashed(MissingVisitor("visit_stmt_while"), [])
  }

  /**
   * `interpret(statements)` from entry `i` on: each statement in turn; the
   * first raised error is reported and ends the list without raising further.
   */
  function InterpretFrom(ss: seq<Option<Stmt>>, env: Env, i: nat): (r: Completion)
    requires ValidEnv(env) && i <= |ss|
    ensures !r.Threw?
    ensures r.Ran? ==> Extends(r.env, env)
    decreases Block(ss), 0, |ss| - i
  {
    if i == |ss| then Ran(env, [])
    else if ss[i].None? then Crashed(NilNode, [])
    else
      var first := Execute(ss[i].value, env);
      match first
      case Threw(err, env', out) => Ran(env', out + [Reported(err)])
      case Crashed(_, _) => first
      case Ran(env', out) =>
        var rest := InterpretFrom(ss, env', i + 1);
        if rest.Crashed? then Crashed(rest.halt, out + rest.out) else Ran(rest.env, out + rest.out)
  }

  /** `interpret(statements)` on a whole list. */
  function Interpret(ss: seq<Option<Stmt>>, env: Env): (r: Completion)
    requires ValidEnv(env)
    ensures !r.Threw?
    ensures r.Ran? ==> Extends(r.env, env)
  {
    InterpretFrom(ss, env, 0)
  }

  /**
   * `Function#call` of a declared function: the body runs as the list
   * `[body]` via `interpret_block`, in the environment `CallEnv` builds
   * under the closure. No visitor leads here, since calls have none.
   */
  function Invoke(f: Callable, args: seq<Value>): (r: Completion)
    requires f.Declared? && f.declaration.Function?
    ensures !r.Threw?
    ensures r.Ran? ==> |r.env| == |f.closure| + 1 && r.env[0].Keys >= CallEnv(f, args)[0].Keys
  {
    Interpret([Some(f.declaration.body)], CallEnv(f, args))
  }
}
