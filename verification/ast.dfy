/**
 * The syntax tree. Each Ruby node class with its readers becomes one
 * constructor with the same fields; a datatype value is immutable, as
 * the reader-only classes are.
 */
module Ast {
  import opened Basics
  import opened Tokens

  /**
   * The eight expression nodes. `Assign` names its target by token;
   * `Binary` and `Unary` keep their `operatorToken`, `Logical` its `operator`;
   * `Call` keeps the closing parenthesis and the ordered arguments.
   */
  datatype Expr =
    | Assign(name: Token, value: Expr)
    | Binary(leftExpr: Expr, operatorToken: Token, rightExpr: Expr)
    | Call(callee: Expr, paren: Token, arguments: seq<Expr>)
    | Grouping(expr: Expr)
    | Literal(literal: LitValue)
    | Logical(leftExpr: Expr, operator: Token, rightExpr: Expr)
    | Unary(operatorToken: Token, rightExpr: Expr)
    | Variable(name: Token)

  /**
   * The statement nodes. `Return` is not among the Ruby classes, but the
   * parser builds it, so it is added here with the fields the parser passes.
   * A block's entries are optional because a declaration that failed to
   * parse leaves `nil` in its place; `else` and a variable's initializer
   * may be absent. `for` has no node of its own: it becomes `While`.
   */
  datatype Stmt =
    | Block(statements: seq<Option<Stmt>>)
    | Expression(expr: Expr)
    | Function(name: Token, params: seq<Token>, body: Stmt)
    | If(condition: Expr, thenBranch: Stmt, elseBranch: Option<Stmt>)
    | Print(expr: Expr)
    | Return(keyword: Token, value: Option<Expr>)
    | Var(name: Token, initializer: Option<Expr>)
    | While(condition: Expr, body: Stmt)

  /** The expression shapes the expression-only snapshot defines: Binary, Grouping, Literal and Unary. */
  predicate InSnapshot(e: Expr)
  {
    match e
    case Binary(l, _, r) => InSnapshot(l) && InSnapshot(r)
    case Grouping(g) => InSnapshot(g)
    case Literal(_) => true
    case Unary(_, r) => InSnapshot(r)
    case _ => false
  }

  /** No `nil` left by a failed declaration anywhere in the statement, nested blocks included. */
  predicate NoHoles(s: Stmt)
  {
    match s
    case Block(ss) => forall i :: 0 <= i < |ss| ==> ss[i].Some? && NoHoles(ss[i].value)
    case Function(_, _, body) => NoHoles(body)
    case If(_, t, e) => NoHoles(t) && (e.Some? ==> NoHoles(e.value))
    case While(_, body) => NoHoles(body)
    case _ => true
  }

  /** A statement list without `nil` entries, at any depth. */
  predicate HoleFree(ss: seq<Option<Stmt>>)
  {
    forall i :: 0 <= i < |ss| ==> ss[i].Some? && NoHoles(ss[i].value)
  }

  /** The positions of the `nil` entries of a statement list, at its own level. */
  ghost function NilPositions(ss: seq<Option<Stmt>>): set<int>
  {
    set i | 0 <= i < |ss| && ss[i].None?
  }

  /** The number of `nil` entries a statement list holds at its own level. */
  function Holes(ss: seq<Option<Stmt>>): (n: nat)
    ensures n == |NilPositions(ss)| && n <= |ss|
  {
    if |ss| == 0 then
      assert NilPositions(ss) == {};
      0
    else
      var last := |ss| - 1;
      var rest := Holes(ss[..last]);
      assert NilPositions(ss) == NilPositions(ss[..last]) + (if ss[last].None? then {last} else {});
      rest + (if ss[last].None? then 1 else 0)
  }
}
