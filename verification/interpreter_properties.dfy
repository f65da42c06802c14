/**
 * What the interpreter promises across its cases: short-circuiting, the
 * branch `if` takes, what `var` and assignment bind, that operands are
 * evaluated before they are checked, that a list ends at its first error,
 * and that a program using only the implemented nodes runs to the end.
 */
module InterpreterProperties {
  import opened Basics
  import opened Tokens
  import opened Ast
  import opened Values
  import opened Environment
  import opened Operations
  import opened Interpreter

  /** `or` with a truthy left operand, and `and` with a falsy one, return it without looking at the right. */
  lemma ShortCircuit(l: Expr, op: Token, r1: Expr, r2: Expr, env: Env, a: Value, e1: Env)
    requires ValidEnv(env) && Evaluate(l, env) == Val(a, e1)
    requires Truthy(a) == (op.kind == Or)
    ensures Evaluate(Logical(l, op, r1), env) == Val(a, e1)
    ensures Evaluate(Logical(l, op, r1), env) == Evaluate(Logical(l, op, r2), env)
  {
  }

  /** Otherwise a logical expression is its right operand, evaluated after the left. */
  lemma LogicalOtherwiseRight(l: Expr, op: Token, rt: Expr, env: Env, a: Value, e1: Env)
    requires ValidEnv(env) && Evaluate(l, env) == Val(a, e1)
    requires Truthy(a) != (op.kind == Or)
    ensures ValidEnv(e1) && Evaluate(Logical(l, op, rt), env) == Evaluate(rt, e1)
  {
  }

  /** `if` runs only the branch its condition picks: the other one makes no difference. */
  lemma IfRunsChosenBranch(c: Expr, t: Stmt, t2: Stmt, el: Option<Stmt>, el2: Option<Stmt>, env: Env, v: Value, e1: Env)
    requires ValidEnv(env) && Evaluate(c, env) == Val(v, e1)
    ensures ValidEnv(e1)
    ensures Truthy(v) ==>
      Execute(Stmt.If(c, t, el), env) == Execute(Stmt.If(c, t, el2), env) == Execute(t, e1)
    ensures !Truthy(v) ==>
      Execute(Stmt.If(c, t, el), env) == Execute(Stmt.If(c, t2, el), env)
  {
  }

  /** `var x;` binds `nil` in the current scope and leaves the enclosing scopes alone. */
  lemma VarWithoutInitializerBindsNil(name: Token, env: Env)
    requires ValidEnv(env)
    ensures var r := Execute(Stmt.Var(name, None), env);
      r.Ran? && r.out == [] && Get(r.env, name) == Ok(NilValue) && r.env[1..] == env[1..]
  {
    GetAfterDefine(env, name, NilValue);
  }

  /** An assignment evaluates to the assigned value, which the name then reads back. */
  lemma AssignmentYieldsValue(name: Token, value: Expr, env: Env, v: Value, e1: Env)
    requires ValidEnv(env) && Evaluate(value, env) == Val(v, e1)
    requires Lookup(e1, name.lexeme).Some?
    ensures var r := Evaluate(Assign(name, value), env);
      r.Val? && r.value == v && Get(r.env, name) == Ok(v)
  {
  }

  /** Assigning a name no scope holds raises "Undefined variable", after the value was evaluated. */
  lemma AssignmentToUndefined(name: Token, value: Expr, env: Env, v: Value, e1: Env)
    requires ValidEnv(env) && Evaluate(value, env) == Val(v, e1)
    requires Lookup(e1, name.lexeme).None?
    ensures Evaluate(Assign(name, value), env) == Throw(RuntimeError(name, Environment.Undefined(name.lexeme)), e1)
  {
  }

  /** Both operands are evaluated before the type check, so an error on the right wins over a type error. */
  lemma OperandsBeforeCheck(l: Expr, op: Token, rt: Expr, env: Env, a: Value, e1: Env, err: RuntimeError, e2: Env)
    requires ValidEnv(env) && Evaluate(l, env) == Val(a, e1)
    requires ValidEnv(e1) && Evaluate(rt, e1) == Throw(err, e2)
    ensures Evaluate(Binary(l, op, rt), env) == Throw(err, e2)
  {
  }

  /** A number operator on anything but two numbers raises "Operands must be numbers." at the operator. */
  lemma NumberOperandsChecked(l: Expr, op: Token, rt: Expr, env: Env, a: Value, e1: Env, b: Value, e2: Env)
    requires ValidEnv(env) && NumberOperator(op.kind) && Evaluate(l, env) == Val(a, e1)
    requires ValidEnv(e1) && Evaluate(rt, e1) == Val(b, e2)
    requires !a.NumValue? || !b.NumValue?
    ensures Evaluate(Binary(l, op, rt), env) == Throw(RuntimeError(op, NumbersMessage), e2)
  {
  }

  /** The run of list `ss` from entry `i` ends before the end of the list: an entry raised, crashed or was `nil`. */
  ghost predicate EndsEarly(ss: seq<Option<Stmt>>, env: Env, i: nat)
    requires ValidEnv(env) && i <= |ss|
    decreases |ss| - i
  {
    && i < |ss|
    && (ss[i].None? ||
        var r := Execute(ss[i].value, env);
        !r.Ran? || EndsEarly(ss, r.env, i + 1))
  }

  /** Statements after the first error are never run: appending any statements to such a list changes nothing. */
  lemma {:induction false} NothingRunsAfterError(ss: seq<Option<Stmt>>, rest: seq<Option<Stmt>>, env: Env, i: nat)
    requires ValidEnv(env) && i <= |ss| && EndsEarly(ss, env, i)
    ensures InterpretFrom(ss + rest, env, i) == InterpretFrom(ss, env, i)
    decreases |ss| - i
  {
    assert (ss + rest)[i] == ss[i];
    if ss[i].Some? {
      var r := Execute(ss[i].value, env);
      if r.Ran? {
        NothingRunsAfterError(ss, rest, r.env, i + 1);
      }
    }
  }

  /** A raised error is reported as the last event of the list that ran the statement. */
  lemma ErrorIsReportedLast(ss: seq<Option<Stmt>>, env: Env, i: nat)
    requires ValidEnv(env) && i < |ss| && ss[i].Some? && Execute(ss[i].value, env).Threw?
    ensures var t := Execute(ss[i].value, env);
      InterpretFrom(ss, env, i) == Ran(t.env, t.out + [Reported(t.error)])
  {
  }

  /**
   * `{ x; } print 1;` with `x` undefined: the block's own `interpret`
   * reports the error and the outer list goes on to print.
   */
  lemma BlockErrorContained(x: Token)
    ensures
      var ss := [Some(Block([Some(Expression(Variable(x)))])), Some(Stmt.Print(Literal(NumLit(1.0))))];
      Interpret(ss, [map[]]) ==
        Ran([map[]], [Reported(RuntimeError(x, Environment.Undefined(x.lexeme))), Printed(NumValue(1.0))])
  {
    var ss := [Some(Block([Some(Expression(Variable(x)))])), Some(Stmt.Print(Literal(NumLit(1.0))))];
    var inner := [Some(Expression(Variable(x)))];
    var global: Env := [map[]];
    var local := NewEnv(global);
    var err := RuntimeError(x, Environment.Undefined(x.lexeme));
    assert Get(local, x) == Err(err);
    assert Execute(inner[0].value, local) == Threw(err, local, []);
    assert InterpretFrom(inner, local, 0) == Ran(local, [Reported(err)]);
    assert local[1..] == global;
    assert Execute(ss[0].value, global) == Ran(global, [Reported(err)]);
    assert InterpretFrom(ss, global, 2) == Ran(global, []);
    assert InterpretFrom(ss, global, 1) == Ran(global, [Printed(NumValue(1.0))]);
  }

  /**
   * `var a = 1; { var a = 2; print a; } print a;` prints 2, then 1: the
   * inner declaration shadows the outer one and goes away with its block.
   */
  lemma BlockShadows(a: Token)
    ensures
      var one, two := Literal(NumLit(1.0)), Literal(NumLit(2.0));
      var inner := [Some(Stmt.Var(a, Some(two))), Some(Stmt.Print(Variable(a)))];
      var ss := [Some(Stmt.Var(a, Some(one))), Some(Block(inner)), Some(Stmt.Print(Variable(a)))];
      Interpret(ss, [map[]]).out == [Printed(NumValue(2.0)), Printed(NumValue(1.0))]
  {
    var one, two := Literal(NumLit(1.0)), Literal(NumLit(2.0));
    var inner := [Some(Stmt.Var(a, Some(two))), Some(Stmt.Print(Variable(a)))];
    var ss := [Some(Stmt.Var(a, Some(one))), Some(Block(inner)), Some(Stmt.Print(Variable(a)))];
    var outer: Env := [map[a.lexeme := NumValue(1.0)]];
    var scoped: Env := [map[a.lexeme := NumValue(2.0)]] + outer;
    assert Execute(ss[0].value, [map[]]) == Ran(outer, []);
    assert Execute(inner[0].value, NewEnv(outer)) == Ran(scoped, []);
    assert Get(scoped, a) == Ok(NumValue(2.0));
    assert Execute(inner[1].value, scoped) == Ran(scoped, [Printed(NumValue(2.0))]);
    assert InterpretFrom(inner, scoped, 1) == Ran(scoped, [Printed(NumValue(2.0))]);
    assert InterpretFrom(inner, NewEnv(outer), 0) == Ran(scoped, [Printed(NumValue(2.0))]);
    assert scoped[1..] == outer;
    assert Execute(ss[1].value, outer) == Ran(outer, [Printed(NumValue(2.0))]);
    assert Get(outer, a) == Ok(NumValue(1.0));
    assert InterpretFrom(ss, outer, 2) == Ran(outer, [Printed(NumValue(1.0))]);
    assert InterpretFrom(ss, outer, 1) == Ran(outer, [Printed(NumValue(2.0)), Printed(NumValue(1.0))]);
  }

  /**
   * `var a = 1; { a = 2; } print a;` prints 2: the block drops its own
   * scope, but an assignment it made to an enclosing name stays.
   */
  lemma BlockAssignsOuter(a: Token)
    ensures
      var ss := [Some(Stmt.Var(a, Some(Literal(NumLit(1.0))))),
                 Some(Block([Some(Expression(Assign(a, Literal(NumLit(2.0)))))])),
                 Some(Stmt.Print(Variable(a)))];
      Interpret(ss, [map[]]).out == [Printed(NumValue(2.0))]
  {
    var ss := [Some(Stmt.Var(a, Some(Literal(NumLit(1.0))))),
               Some(Block([Some(Expression(Assign(a, Literal(NumLit(2.0)))))])),
               Some(Stmt.Print(Variable(a)))];
    var inner := [Some(Expression(Assign(a, Literal(NumLit(2.0)))))];
    var outer: Env := [map[a.lexeme := NumValue(1.0)]];
    var after: Env := [map[a.lexeme := NumValue(2.0)]];
    var updated: Env := [map[]] + after;
    assert Execute(ss[0].value, [map[]]) == Ran(outer, []);
    assert Lookup(NewEnv(outer), a.lexeme) == Some(1);
    assert outer[0][a.lexeme := NumValue(2.0)] == after[0];
    assert NewEnv(outer)[1 := after[0]] == updated;
    assert Environment.Assign(NewEnv(outer), a, NumValue(2.0)) == Ok(updated);
    assert AssignResult(a, NumValue(2.0), NewEnv(outer)) == Val(NumValue(2.0), updated);
    assert Evaluate(Assign(a, Literal(NumLit(2.0))), NewEnv(outer)) == Val(NumValue(2.0), updated);
    assert Execute(inner[0].value, NewEnv(outer)) == Ran(updated, []);
    assert InterpretFrom(inner, NewEnv(outer), 0) == Ran(updated, []);
    assert updated[1..] == after;
    assert Execute(ss[1].value, outer) == Ran(after, []);
    assert Get(after, a) == Ok(NumValue(2.0));
    assert InterpretFrom(ss, after, 2) == Ran(after, [Printed(NumValue(2.0))]);
    assert InterpretFrom(ss, outer, 1) == Ran(after, [Printed(NumValue(2.0))]);
  }

  /** Expressions with a visitor: everything but calls. */
  predicate SupportedExpr(e: Expr)
  {
    match e
    case Assign(_, v) => SupportedExpr(v)
    case Binary(l, _, r) => SupportedExpr(l) && SupportedExpr(r)
    case Call(_, _, _) => false
    case Grouping(g) => SupportedExpr(g)
    case Literal(_) => true
    case Logical(l, _, r) => SupportedExpr(l) && SupportedExpr(r)
    case Unary(_, r) => SupportedExpr(r)
    case Variable(_) => true
  }

  /** Statements with a visitor, without `nil` entries, over supported expressions. */
  predicate SupportedStmt(s: Stmt)
  {
    match s
    case Block(ss) => forall i :: 0 <= i < |ss| ==> ss[i].Some? && SupportedStmt(ss[i].value)
    case Expression(e) => SupportedExpr(e)
    case If(c, t, el) => SupportedExpr(c) && SupportedStmt(t) && (el.Some? ==> SupportedStmt(el.value))
    case Print(e) => SupportedExpr(e)
    case Var(_, init) => init.Some? ==> SupportedExpr(init.value)
    case _ => false
  }

  /** A supported expression stops only on a division by zero, which the exact numbers cannot represent. */
  lemma {:induction false} SupportedEvaluates(e: Expr, env: Env)
    requires ValidEnv(env) && SupportedExpr(e)
    ensures Evaluate(e, env).Stop? ==> Evaluate(e, env).halt == DivisionByZero
    decreases e
  {
    match e
    case Assign(_, v) =>
      SupportedEvaluates(v, env);
    case Binary(l, _, rt) =>
      SupportedEvaluates(l, env);
      var a := Evaluate(l, env);
      if a.Val? {
        SupportedEvaluates(rt, a.env);
      }
    case Grouping(g) =>
      SupportedEvaluates(g, env);
    case Literal(_) =>
    case Logical(l, _, rt) =>
      SupportedEvaluates(l, env);
      var a := Evaluate(l, env);
      if a.Val? {
        SupportedEvaluates(rt, a.env);
      }
    case Unary(_, rt) =>
      SupportedEvaluates(rt, env);
    case Variable(_) =>
  }

  /** A supported statement crashes only on a division by zero. */
  lemma {:induction false} SupportedExecutes(s: Stmt, env: Env)
    requires ValidEnv(env) && SupportedStmt(s)
    ensures Execute(s, env).Crashed? ==> Execute(s, env).halt == DivisionByZero
    decreases s, 1
  {
    match s
    case Block(ss) =>
      SupportedListRuns(ss, NewEnv(env), 0);
    case Expression(e) =>
      SupportedEvaluates(e, env);
    case If(c, t, el) =>
      SupportedEvaluates(c, env);
      var v := Evaluate(c, env);
      if v.Val? {
        if Truthy(v.value) {
          SupportedExecutes(t, v.env);
        } else if el.Some? {
          SupportedExecutes(el.value, v.env);
        }
      }
    case Print(e) =>
      SupportedEvaluates(e, env);
    case Var(_, init) =>
      if init.Some? {
        SupportedEvaluates(init.value, env);
      }
  }

  /** A list of supported statements crashes only on a division by zero. */
  lemma {:induction false} SupportedListRuns(ss: seq<Option<Stmt>>, env: Env, i: nat)
    requires ValidEnv(env) && i <= |ss|
    requires forall j :: 0 <= j < |ss| ==> ss[j].Some? && SupportedStmt(ss[j].value)
    ensures InterpretFrom(ss, env, i).Crashed? ==> InterpretFrom(ss, env, i).halt == DivisionByZero
    decreases Block(ss), 0, |ss| - i
  {
    if i < |ss| {
      SupportedExecutes(ss[i].value, env);
      var first := Execute(ss[i].value, env);
      if first.Ran? {
        SupportedListRuns(ss, first.env, i + 1);
      }
    }
  }
}
