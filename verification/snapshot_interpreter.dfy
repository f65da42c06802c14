/**
 * The expression-only interpreter of the earlier snapshot. It evaluates
 * the four snapshot nodes with the same operator semantics as the full
 * interpreter, but without any environment.
 */
module SnapshotInterpreter {
  import opened Tokens
  import opened Ast
  import opened Values
  import opened Operations
  import opened Interpreter

  /**
   * `evaluate(expr)` of the snapshot: `visitBinaryExpr` evaluates left, then
   * right, then applies the operator; `visitUnaryExpr` evaluates its operand
   * first. No snapshot expression can produce a function value.
   */
  function EvaluateSnapshot(e: Expr): (r: Applied)
    requires InSnapshot(e)
    ensures r.Gives? ==> !r.value.FnValue?
    ensures r.Undefined? ==> r.halt == DivisionByZero
    decreases e
  {
    match e
    case Binary(l, op, rt) =>
      var a := EvaluateSnapshot(l);
      if !a.Gives? then a
      else
        var b := EvaluateSnapshot(rt);
        if !b.Gives? then b else ApplyBinary(op, a.value, b.value)
    case Grouping(g) => EvaluateSnapshot(g)
    case Literal(l) => Gives(FromLiteral(l))
    case Unary(op, rt) =>
      var v := EvaluateSnapshot(rt);
      if !v.Gives? then v else ApplyUnary(op, v.value)
  }

  /**
   * On every snapshot expression the full interpreter computes the same
   * value, raises the same error, or stops the same way, in any
   * environment, and leaves that environment as it was.
   */
  lemma {:induction false} SnapshotAgrees(e: Expr, env: Env)
    requires InSnapshot(e) && ValidEnv(env)
    ensures Evaluate(e, env) == FromApplied(EvaluateSnapshot(e), env)
    decreases e
  {
    match e
    case Binary(l, op, rt) =>
      SnapshotAgrees(l, env);
      if EvaluateSnapshot(l).Gives? {
        SnapshotAgrees(rt, env);
      }
    case Grouping(g) =>
      SnapshotAgrees(g, env);
    case Literal(_) =>
    case Unary(_, rt) =>
      SnapshotAgrees(rt, env);
  }

  /** `!!x` is the truthiness of `x`, for every snapshot operand that evaluates. */
  lemma DoubleNegation(bang: Token, x: Expr)
    requires bang.kind == Bang && InSnapshot(x) && EvaluateSnapshot(x).Gives?
    ensures EvaluateSnapshot(Unary(bang, Unary(bang, x))) == Gives(BoolValue(Truthy(EvaluateSnapshot(x).value)))
  {
  }
}
