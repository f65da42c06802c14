/**
 * The recursive-descent parser, as pure functions over a token sequence
 * and a position. Every parsing function returns an `Outcome`: the node and
 * the position after it, a raised ParseError at the position where it was
 * raised, or `Hangs` when error recovery entered its non-advancing loop.
 * Reported errors are threaded through as a growing list of issues, in the
 * order they would be reported.
 *
 * The expression functions serve both the full parser and the earlier
 * expression-only snapshot, which differ only in a few rules (see `Dialect`).
 */
module Parser {
  import opened Basics
  import opened Tokens
  import opened Ast

  /** A reported parse error: the offending token and the message. */
  datatype Issue = Issue(token: Token, message: string)

  datatype Outcome<+T> =
    | Done(value: T, pos: nat, issues: seq<Issue>)
    | Raised(pos: nat, issues: seq<Issue>)
    | Hangs(issues: seq<Issue>)

  /**
   * `Full` is the statement parser; `Snapshot` is the expression-only one,
   * whose expressions are equality-rooted, have no variables, no calls
   * and no assignment.
   */
  datatype Dialect = Full | Snapshot

  // ---------------------------------------------------------------------------
  // Primitives

  /** What the scanner hands over: a non-empty list ending in EOF. */
  predicate ValidTokens(ts: seq<Token>)
  {
    |ts| > 0 && ts[|ts| - 1].kind == Eof
  }

  /** `at_end?`: the current token is EOF, as the last token of a well-formed stream is. */
  predicate AtEnd(ts: seq<Token>, pos: nat)
    requires pos < |ts|
    ensures ValidTokens(ts) && pos == |ts| - 1 ==> AtEnd(ts, pos)
  {
    ts[pos].kind == Eof
  }

  /** `check?(k)`: never true at the end, so never for EOF; for any other kind, a test of the current token. */
  predicate Check(ts: seq<Token>, pos: nat, k: TokenType)
    requires pos < |ts|
    ensures Check(ts, pos, k) ==> k != Eof
  {
    !AtEnd(ts, pos) && ts[pos].kind == k
  }

  /** `previous()`; Ruby's index -1 makes it the last token, the EOF, at position 0. */
  function Previous(ts: seq<Token>, pos: nat): (t: Token)
    requires ValidTokens(ts) && pos < |ts|
    ensures pos > 0 ==> t == ts[pos - 1]
    ensures pos == 0 ==> t.kind == Eof
  {
    if pos == 0 then ts[|ts| - 1] else ts[pos - 1]
  }

  /** `advance()`: one step forward, except at the end, where it stays. */
  function Advance(ts: seq<Token>, pos: nat): (p: nat)
    requires ValidTokens(ts) && pos < |ts|
    ensures p < |ts|
    ensures p == pos <==> AtEnd(ts, pos)
    ensures p != pos ==> p == pos + 1 && Previous(ts, p) == ts[pos]
  {
    if AtEnd(ts, pos) then pos else pos + 1
  }

  /** `consume(k, message)`: the current token if it has kind `k`, else a raised error at it. */
  function Consume(ts: seq<Token>, pos: nat, k: TokenType, message: string, issues: seq<Issue>): (r: Outcome<Token>)
    requires ValidTokens(ts) && pos < |ts|
    ensures r.Done? <==> Check(ts, pos, k)
    ensures r.Done? ==> r.value == ts[pos] && r.value.kind == k && r.pos == pos + 1 && r.issues == issues
    ensures r.Done? ==> Previous(ts, r.pos) == r.value
    ensures r.Raised? ==> r.pos == pos && r.issues == issues + [Issue(ts[pos], message)]
  {
    if Check(ts, pos, k) then Done(ts[pos], pos + 1, issues)
    else Raised(pos, issues + [Issue(ts[pos], message)])
  }

  /** Passes a failure on unchanged, at another result type. */
  function Fail<T, U>(o: Outcome<T>): (r: Outcome<U>)
    requires !o.Done?
    ensures r.Raised? == o.Raised? && r.issues == o.issues
    ensures r.Raised? ==> r.pos == o.pos
  {
    if o.Raised? then Raised(o.pos, o.issues) else Hangs(o.issues)
  }

  /**
   * What every parsing function guarantees: the issue list never shrinks,
   * the position stays in range and never moves back, and a raised error
   * has been reported.
   */
  predicate Progress<T>(ts: seq<Token>, pos: nat, issues: seq<Issue>, r: Outcome<T>)
  {
    && |issues| <= |r.issues|
    && (!r.Hangs? ==> pos <= r.pos < |ts|)
    && (r.Raised? ==> |r.issues| > |issues|)
  }

  // ---------------------------------------------------------------------------
  // Precedence

  /** How loosely an operator binds: `or` 1, `and` 2, equality 3, comparison 4, term 5, factor 6. */
  function OpTier(k: TokenType): nat
  {
    if k == Or then 1
    else if k == And then 2
    else if k == BangEqual || k == EqualEqual then 3
    else if k == Greater || k == GreaterEqual || k == Less || k == LessEqual then 4
    else if k == Minus || k == Plus then 5
    else if k == Slash || k == Star then 6
    else 7
  }

  /** The tier of an expression's root: 0 for assignment, the operator's tier, 7 for unary, 8 for atoms. */
  function Tier(e: Expr): nat
  {
    match e
    case Assign(_, _) => 0
    case Logical(_, op, _) => OpTier(op.kind)
    case Binary(_, op, _) => OpTier(op.kind)
    case Unary(_, _) => 7
    case _ => 8
  }

  /**
   * The grammar's shape, without parentheses: the left operand of a binary
   * operator binds at least as tightly as the operator, the right one
   * strictly more tightly (left associativity and precedence); `or` and
   * `and` have tighter operands on both sides; a unary operand is unary
   * or an atom; a callee is an atom that is not itself a call; variables
   * and assignment targets are identifiers.
   */
  predicate WellPrec(e: Expr)
  {
    match e
    case Assign(name, v) => name.kind == Identifier && WellPrec(v)
    case Logical(l, op, r) =>
      && (op.kind == Or || op.kind == And)
      && Tier(l) > OpTier(op.kind) && Tier(r) > OpTier(op.kind)
      && WellPrec(l) && WellPrec(r)
    case Binary(l, op, r) =>
      && 3 <= OpTier(op.kind) <= 6
      && Tier(l) >= OpTier(op.kind) && Tier(r) > OpTier(op.kind)
      && WellPrec(l) && WellPrec(r)
    case Unary(op, r) => (op.kind == Bang || op.kind == Minus) && Tier(r) >= 7 && WellPrec(r)
    case Call(c, paren, args) =>
      && paren.kind == RightParen && Tier(c) == 8 && !c.Call?
      && WellPrec(c) && (forall i :: 0 <= i < |args| ==> WellPrec(args[i]))
    case Grouping(g) => WellPrec(g)
    case Literal(_) => true
    case Variable(name) => name.kind == Identifier
  }

  /** A parsed expression of the dialect, binding at least as tightly as `tier`. */
  predicate Shaped(e: Expr, d: Dialect, tier: nat)
  {
    WellPrec(e) && tier <= Tier(e) && (d == Snapshot ==> InSnapshot(e))
  }

  /** The snapshot reports an error only when it raises, and raises at most once. */
  predicate Quiet<T>(d: Dialect, issues: seq<Issue>, r: Outcome<T>)
  {
    d == Snapshot ==>
      && (r.Done? ==> r.issues == issues)
      && (r.Raised? ==> |r.issues| == |issues| + 1)
  }

  // ---------------------------------------------------------------------------
  // Messages, as the parser reports them (the argument cap has no period,
  // nor has the variable-name message)

  const InvalidTarget := "Invalid assignment target."
  const CallClose := "Expect ')' after arguments."
  const NoExpression := "Expected expression"
  const GroupClose := "Expect ')' after expression."
  const ForOpen := "Expect '(' after 'for'."
  const ForSemicolon := "Expect ';' after loop condition."
  const ForClose := "Expect ')' after for clauses."
  const IfOpen := "Expect '(' after 'if'."
  const IfClose := "Expect ')' after if condition."
  const ValueSemicolon := "Expect ';' after value."
  const ReturnSemicolon := "Expect ';' after return value."
  const VarName := "Expect variable name"
  const VarSemicolon := "Expect ';' after variable declaration."
  const WhileOpen := "Expect '(' after 'while'."
  const WhileClose := "Expect ')' after 'condition'."
  const FunctionName := "Expect function name."
  const FunctionOpen := "Expect '(' after function name."
  const ParametersClose := "Expect ')' after parameters."
  const BodyOpen := "Expect '{' before function body."
  const ParameterName := "Expect parameter name."
  const BlockClose := "Expect '}' after block."
  const ArgumentsCap := "Can't have more than 255 arguments"
  const ParametersCap := "Can't have more than 255 parameters."

  // ---------------------------------------------------------------------------
  // Expressions

  /** `expression()`: assignment in the full parser, equality in the snapshot. */
  function ExpressionRule(ts: seq<Token>, pos: nat, d: Dialect, issues: seq<Issue>): (r: Outcome<Expr>)
    requires ValidTokens(ts) && pos < |ts|
    ensures Progress(ts, pos, issues, r) && !r.Hangs? && Quiet(d, issues, r)
    ensures r.Done? ==> pos < r.pos && Shaped(r.value, d, 0)
    decreases |ts| - pos, 38
  {
    if d == Full then Assignment(ts, pos, issues) else BinaryLevel(ts, pos, Snapshot, 3, issues)
  }

  /**
   * `assignment()`: right-associative. A variable on the left becomes an
   * `Assign`; any other left side is reported as an invalid target, not
   * raised, and returned as it was.
   */
  function Assignment(ts: seq<Token>, pos: nat, issues: seq<Issue>): (r: Outcome<Expr>)
    requires ValidTokens(ts) && pos < |ts|
    ensures Progress(ts, pos, issues, r) && !r.Hangs?
    ensures r.Done? ==> pos < r.pos && Shaped(r.value, Full, 0)
    decreases |ts| - pos, 37
  {
    var l := LogicLevel(ts, pos, Or, issues);
    if !l.Done? || !Check(ts, l.pos, Equal) then l
    else AssignValue(ts, l.pos, l.value, l.issues)
  }

  /** The right side of an assignment, entered at `=`, and the node it makes with the left side `target`. */
  function AssignValue(ts: seq<Token>, pos: nat, target: Expr, issues: seq<Issue>): (r: Outcome<Expr>)
    requires ValidTokens(ts) && pos < |ts| && Check(ts, pos, Equal)
    requires Shaped(target, Full, 1)
    ensures Progress(ts, pos, issues, r) && !r.Hangs?
    ensures r.Done? ==> pos < r.pos && Shaped(r.value, Full, 0)
    ensures r.Done? && target.Variable? ==> r.value.Assign? && r.value.name == target.name
    ensures r.Done? && !target.Variable? ==> r.value == target && |r.issues| > |issues| && r.issues[|r.issues| - 1] == Issue(ts[pos], InvalidTarget)
    decreases |ts| - pos, 0
  {
    var v := Assignment(ts, pos + 1, issues);
    if !v.Done? then v
    else if target.Variable? then Done(Assign(target.name, v.value), v.pos, v.issues)
    else Done(target, v.pos, v.issues + [Issue(ts[pos], InvalidTarget)])
  }

  /**
   * `logical_or` and `logical_and`. Each round of the Ruby loop builds a node
   * from the FIRST operand and the newest right operand, and the previous
   * round's node is discarded, as the loop never updates `left_expr`: the
   * result is the first operand joined to the last round's operator and
   * right operand, so `a or b or c` is `a or c`.
   */
  function LogicLevel(ts: seq<Token>, pos: nat, op: TokenType, issues: seq<Issue>): (r: Outcome<Expr>)
    requires ValidTokens(ts) && pos < |ts|
    requires op == Or || op == And
    ensures Progress(ts, pos, issues, r) && !r.Hangs?
    ensures r.Done? ==> pos < r.pos && Shaped(r.value, Full, OpTier(op))
    decreases |ts| - pos, if op == Or then 36 else 34
  {
    var l := LogicOperand(ts, pos, op, issues);
    if !l.Done? then l
    else
      var rest := LogicRest(ts, l.pos, op, l.issues);
      if !rest.Done? then Fail(rest)
      else Done(Joined(l.value, rest.value), rest.pos, rest.issues)
  }

  /** The node the last round of the `logical_or` / `logical_and` loop left: the first operand alone if there was none. */
  function Joined(left: Expr, last: Option<(Token, Expr)>): (e: Expr)
    requires last.Some? ==> (last.value.0.kind == Or || last.value.0.kind == And)
    requires last.Some? ==> Shaped(left, Full, OpTier(last.value.0.kind) + 1) && Shaped(last.value.1, Full, OpTier(last.value.0.kind) + 1)
    ensures last.None? ==> e == left
    ensures last.Some? ==> e.Logical? && e.leftExpr == left && e.operator == last.value.0 && e.rightExpr == last.value.1
    ensures last.Some? ==> Shaped(e, Full, OpTier(last.value.0.kind))
  {
    if last.None? then left else Logical(left, last.value.0, last.value.1)
  }

  /** An operand of `or` is an `and` expression; an operand of `and` is an equality. */
  function LogicOperand(ts: seq<Token>, pos: nat, op: TokenType, issues: seq<Issue>): (r: Outcome<Expr>)
    requires ValidTokens(ts) && pos < |ts|
    requires op == Or || op == And
    ensures Progress(ts, pos, issues, r) && !r.Hangs?
    ensures r.Done? ==> pos < r.pos && Shaped(r.value, Full, OpTier(op) + 1)
    decreases |ts| - pos, if op == Or then 35 else 33
  {
    if op == Or then LogicLevel(ts, pos, And, issues) else BinaryLevel(ts, pos, Full, 3, issues)
  }

  /**
   * The loop of `logical_or` / `logical_and`: the operator token and the
   * right operand of its last round, none when no operator follows.
   */
  function LogicRest(ts: seq<Token>, pos: nat, op: TokenType, issues: seq<Issue>): (r: Outcome<Option<(Token, Expr)>>)
    requires ValidTokens(ts) && pos < |ts|
    requires op == Or || op == And
    ensures Progress(ts, pos, issues, r) && !r.Hangs?
    ensures r.Done? ==> (r.value.None? <==> !Check(ts, pos, op)) && (r.value.None? ==> r.pos == pos && r.issues == issues)
    ensures r.Done? && r.value.Some? ==> r.value.value.0.kind == op && Shaped(r.value.value.1, Full, OpTier(op) + 1)
    decreases |ts| - pos, 0
  {
    if Check(ts, pos, op) then
      var right := LogicOperand(ts, pos + 1, op, issues);
      if !right.Done? then Fail(right)
      else
        var more := LogicRest(ts, right.pos, op, right.issues);
        if !more.Done? then more
        else if more.value.None? then Done(Some((ts[pos], right.value)), more.pos, more.issues)
        else more
    else Done(None, pos, issues)
  }

  /** `equality`, `comparison`, `term` and `factor`: `binary_expr` at tiers 3 to 6. */
  function BinaryLevel(ts: seq<Token>, pos: nat, d: Dialect, tier: nat, issues: seq<Issue>): (r: Outcome<Expr>)
    requires ValidTokens(ts) && pos < |ts|
    requires 3 <= tier <= 6
    ensures Progress(ts, pos, issues, r) && !r.Hangs? && Quiet(d, issues, r)
    ensures r.Done? ==> pos < r.pos && Shaped(r.value, d, tier)
    decreases |ts| - pos, 2 * (19 - tier)
  {
    var l := BinaryOperand(ts, pos, d, tier, issues);
    if !l.Done? then l else BinaryRest(ts, l.pos, d, tier, l.value, l.issues)
  }

  /** The operand parser of a binary level: the next level, or `unary` below factor. */
  function BinaryOperand(ts: seq<Token>, pos: nat, d: Dialect, tier: nat, issues: seq<Issue>): (r: Outcome<Expr>)
    requires ValidTokens(ts) && pos < |ts|
    requires 3 <= tier <= 6
    ensures Progress(ts, pos, issues, r) && !r.Hangs? && Quiet(d, issues, r)
    ensures r.Done? ==> pos < r.pos && Shaped(r.value, d, tier + 1)
    decreases |ts| - pos, 2 * (19 - tier) - 1
  {
    if tier == 6 then UnaryExpr(ts, pos, d, issues) else BinaryLevel(ts, pos, d, tier + 1, issues)
  }

  /**
   * The loop of `binary_expr`: each operator makes the expression so far its
   * left operand. The operators `match?` accepts at a tier are exactly the
   * kinds `OpTier` puts there: `!=` `==`; `>` `>=` `<` `<=`; `-` `+`; `/` `*`.
   */
  function BinaryRest(ts: seq<Token>, pos: nat, d: Dialect, tier: nat, left: Expr, issues: seq<Issue>): (r: Outcome<Expr>)
    requires ValidTokens(ts) && pos < |ts|
    requires 3 <= tier <= 6 && Shaped(left, d, tier)
    ensures Progress(ts, pos, issues, r) && !r.Hangs? && Quiet(d, issues, r)
    ensures r.Done? ==> Shaped(r.value, d, tier)
    ensures r.Done? && r.pos == pos ==> r.value == left
    decreases |ts| - pos, 0
  {
    if !AtEnd(ts, pos) && OpTier(ts[pos].kind) == tier then
      var right := BinaryOperand(ts, pos + 1, d, tier, issues);
      if !right.Done? then right
      else BinaryRest(ts, right.pos, d, tier, Binary(left, ts[pos], right.value), right.issues)
    else Done(left, pos, issues)
  }

  /** `unary()`: right-recursive `!` and `-`, else a call (a primary in the snapshot). */
  function UnaryExpr(ts: seq<Token>, pos: nat, d: Dialect, issues: seq<Issue>): (r: Outcome<Expr>)
    requires ValidTokens(ts) && pos < |ts|
    ensures Progress(ts, pos, issues, r) && !r.Hangs? && Quiet(d, issues, r)
    ensures r.Done? ==> pos < r.pos && Shaped(r.value, d, 7)
    decreases |ts| - pos, 12
  {
    if Check(ts, pos, Bang) || Check(ts, pos, Minus) then
      var right := UnaryExpr(ts, pos + 1, d, issues);
      if !right.Done? then right else Done(Unary(ts[pos], right.value), right.pos, right.issues)
    else if d == Full then CallExpr(ts, pos, issues)
    else Primary(ts, pos, d, issues)
  }

  /**
   * `call()`: a primary followed by any number of argument lists. Every
   * argument list is applied to the primary itself and the previous round's
   * call is discarded, as the Ruby loop never updates `callee`: `f(x)(y)`
   * is `f(y)`.
   */
  function CallExpr(ts: seq<Token>, pos: nat, issues: seq<Issue>): (r: Outcome<Expr>)
    requires ValidTokens(ts) && pos < |ts|
    ensures Progress(ts, pos, issues, r) && !r.Hangs?
    ensures r.Done? ==> pos < r.pos && Shaped(r.value, Full, 8)
    decreases |ts| - pos, 11
  {
    var callee := Primary(ts, pos, Full, issues);
    if !callee.Done? then callee
    else
      var rest := CallRest(ts, callee.pos, callee.issues);
      if !rest.Done? then Fail(rest)
      else Done(Applied(callee.value, rest.value), rest.pos, rest.issues)
  }

  /** The node the last round of the `call()` loop left: the primary alone if there was none. */
  function Applied(callee: Expr, last: Option<(Token, seq<Expr>)>): (e: Expr)
    requires Shaped(callee, Full, 8) && !callee.Call?
    requires last.Some? ==> last.value.0.kind == RightParen && AllWellPrec(last.value.1)
    ensures last.None? ==> e == callee
    ensures last.Some? ==> e.Call? && e.callee == callee && e.paren == last.value.0 && e.arguments == last.value.1
    ensures Shaped(e, Full, 8)
  {
    if last.None? then callee else Call(callee, last.value.0, last.value.1)
  }

  /** The loop of `call()`: the closing parenthesis and arguments of its last round, none when no `(` follows. */
  function CallRest(ts: seq<Token>, pos: nat, issues: seq<Issue>): (r: Outcome<Option<(Token, seq<Expr>)>>)
    requires ValidTokens(ts) && pos < |ts|
    ensures Progress(ts, pos, issues, r) && !r.Hangs?
    ensures r.Done? ==> (r.value.None? <==> !Check(ts, pos, LeftParen)) && (r.value.None? ==> r.pos == pos && r.issues == issues)
    ensures r.Done? && r.value.Some? ==> r.value.value.0.kind == RightParen && AllWellPrec(r.value.value.1)
    decreases |ts| - pos, 0
  {
    if Check(ts, pos, LeftParen) then
      var c := FinishCall(ts, pos + 1, issues);
      if !c.Done? then Fail(c)
      else
        var more := CallRest(ts, c.pos, c.issues);
        if !more.Done? then more
        else if more.value.None? then Done(Some(c.value), more.pos, more.issues)
        else more
    else Done(None, pos, issues)
  }

  /** Every expression of the list is well shaped. */
  predicate AllWellPrec(es: seq<Expr>)
  {
    forall i :: 0 <= i < |es| ==> WellPrec(es[i])
  }

  /** `finish_call`, entered after `(`: the arguments, then the closing parenthesis, which the node keeps. */
  function FinishCall(ts: seq<Token>, pos: nat, issues: seq<Issue>): (r: Outcome<(Token, seq<Expr>)>)
    requires ValidTokens(ts) && pos < |ts|
    ensures Progress(ts, pos, issues, r) && !r.Hangs?
    ensures r.Done? ==> pos < r.pos && r.value.0 == ts[r.pos - 1] && r.value.0.kind == RightParen && AllWellPrec(r.value.1)
    decreases |ts| - pos, 41
  {
    var args := ArgumentList(ts, pos, issues);
    if !args.Done? then Fail(args)
    else
      var paren := Consume(ts, args.pos, RightParen, CallClose, args.issues);
      if !paren.Done? then Fail(paren) else Done((paren.value, args.value), paren.pos, paren.issues)
  }

  /** The arguments of `finish_call`: none when `)` follows at once. */
  function ArgumentList(ts: seq<Token>, pos: nat, issues: seq<Issue>): (r: Outcome<seq<Expr>>)
    requires ValidTokens(ts) && pos < |ts|
    ensures Progress(ts, pos, issues, r) && !r.Hangs?
    ensures r.Done? ==> AllWellPrec(r.value) && (r.value == [] <==> Check(ts, pos, RightParen))
    ensures r.Done? ==> |r.issues| - |issues| >= Excess(0, |r.value|)
    decreases |ts| - pos, 40
  {
    if Check(ts, pos, RightParen) then Done([], pos, issues) else Arguments(ts, pos, issues)
  }

  /** The non-empty argument list of `finish_call`. */
  function Arguments(ts: seq<Token>, pos: nat, issues: seq<Issue>): (r: Outcome<seq<Expr>>)
    requires ValidTokens(ts) && pos < |ts|
    ensures Progress(ts, pos, issues, r) && !r.Hangs?
    ensures r.Done? ==> pos < r.pos && |r.value| >= 1 && AllWellPrec(r.value)
    ensures r.Done? ==> |r.issues| - |issues| >= Excess(1, |r.value|)
    decreases |ts| - pos, 39
  {
    var first := ExpressionRule(ts, pos, Full, issues);
    if !first.Done? then Fail(first) else ArgumentsRest(ts, first.pos, [first.value], first.issues)
  }

  /** How many items were added, while a list grew from `n0` to `n1`, to a list already holding 255 or more. */
  function Excess(n0: nat, n1: nat): nat
  {
    if n1 <= n0 || n1 <= 255 then 0
    else if n0 >= 255 then n1 - n0
    else n1 - 255
  }

  /**
   * The `while match?(:COMMA)` loop of `finish_call`: with 255 arguments
   * already collected a further comma is reported at the next token, but
   * not raised, and parsing goes on.
   */
  function ArgumentsRest(ts: seq<Token>, pos: nat, args: seq<Expr>, issues: seq<Issue>): (r: Outcome<seq<Expr>>)
    requires ValidTokens(ts) && pos < |ts|
    requires AllWellPrec(args)
    ensures Progress(ts, pos, issues, r) && !r.Hangs?
    ensures r.Done? ==> args <= r.value && AllWellPrec(r.value)
    ensures r.Done? ==> |r.issues| - |issues| >= Excess(|args|, |r.value|)
    decreases |ts| - pos, 0
  {
    if Check(ts, pos, Comma) then
      var reported := if |args| >= 255 then issues + [Issue(ts[pos + 1], ArgumentsCap)] else issues;
      var e := ExpressionRule(ts, pos + 1, Full, reported);
      if !e.Done? then Fail(e) else ArgumentsRest(ts, e.pos, args + [e.value], e.issues)
    else Done(args, pos, issues)
  }

  /**
   * `primary()`: a literal, a variable (not in the snapshot) or a
   * parenthesised expression; anything else raises NoExpression.
   */
  function Primary(ts: seq<Token>, pos: nat, d: Dialect, issues: seq<Issue>): (r: Outcome<Expr>)
    requires ValidTokens(ts) && pos < |ts|
    ensures Progress(ts, pos, issues, r) && !r.Hangs? && Quiet(d, issues, r)
    ensures r.Done? ==> pos < r.pos && Shaped(r.value, d, 8) && !r.value.Call?
    ensures r.Raised? && r.pos == pos ==> r.issues == issues + [Issue(ts[pos], NoExpression)]
    decreases |ts| - pos, 10
  {
    if Atom(ts, pos, d).Some? then Done(Atom(ts, pos, d).value, pos + 1, issues)
    else if Check(ts, pos, LeftParen) then Group(ts, pos + 1, d, issues)
    else Raised(pos, issues + [Issue(ts[pos], NoExpression)])
  }

  /** The kinds `primary` turns into a `Literal`. */
  predicate LiteralKind(k: TokenType)
  {
    k == False || k == True || k == Nil || k == Number || k == String
  }

  /** The one-token primaries: `false`, `true`, `nil`, a number or string literal, and (not in the snapshot) a variable. */
  function Atom(ts: seq<Token>, pos: nat, d: Dialect): (r: Option<Expr>)
    requires pos < |ts|
    ensures r.Some? <==> !AtEnd(ts, pos) && (LiteralKind(ts[pos].kind) || (d == Full && ts[pos].kind == Identifier))
    ensures r.Some? ==> Shaped(r.value, d, 8) && (if ts[pos].kind == Identifier then r.value == Variable(ts[pos]) else r.value.Literal?)
  {
    if Check(ts, pos, False) then Some(Literal(BoolLit(false)))
    else if Check(ts, pos, True) then Some(Literal(BoolLit(true)))
    else if Check(ts, pos, Nil) then Some(Literal(NilLit))
    else if Check(ts, pos, Number) || Check(ts, pos, String) then Some(Literal(ts[pos].literal))
    else if d == Full && Check(ts, pos, Identifier) then Some(Variable(ts[pos]))
    else None
  }

  /** A parenthesised expression, entered after `(`. */
  function Group(ts: seq<Token>, pos: nat, d: Dialect, issues: seq<Issue>): (r: Outcome<Expr>)
    requires ValidTokens(ts) && pos < |ts|
    ensures Progress(ts, pos, issues, r) && !r.Hangs? && Quiet(d, issues, r)
    ensures r.Done? ==> pos < r.pos && r.value.Grouping? && Shaped(r.value, d, 8)
    decreases |ts| - pos, 39
  {
    var e := ExpressionRule(ts, pos, d, issues);
    if !e.Done? then e
    else
      var close := Consume(ts, e.pos, RightParen, GroupClose, e.issues);
      if !close.Done? then Fail(close) else Done(Grouping(e.value), close.pos, close.issues)
  }

  // ---------------------------------------------------------------------------
  // Statements

  /** An expression inside a statement: only its progress matters to the statement rules. */
  function Clause(ts: seq<Token>, pos: nat, issues: seq<Issue>): (r: Outcome<Expr>)
    requires ValidTokens(ts) && pos < |ts|
    ensures Progress(ts, pos, issues, r) && !r.Hangs?
    ensures r.Done? ==> pos < r.pos
  {
    ExpressionRule(ts, pos, Full, issues)
  }

  /** A statement outcome as a block entry. */
  function Present(o: Outcome<Stmt>): (r: Outcome<Option<Stmt>>)
    ensures r.Done? <==> o.Done?
    ensures r.Done? ==> r.value == Some(o.value) && r.pos == o.pos
    ensures !r.Done? ==> r == Fail(o)
    ensures r.issues == o.issues
  {
    if o.Done? then Done(Some(o.value), o.pos, o.issues) else Fail(o)
  }

  /** What a statement parser promises on success: it consumed tokens, and without new issues there are no holes. */
  predicate StmtParsed(pos: nat, issues: seq<Issue>, r: Outcome<Stmt>)
  {
    r.Done? ==> pos < r.pos && (|r.issues| == |issues| ==> NoHoles(r.value))
  }

  /** The keywords `syncronize` stops in front of. */
  predicate StartsStatement(k: TokenType)
  {
    k == Class || k == For || k == Fun || k == TokenType.If || k == TokenType.Print
    || k == TokenType.Return || k == TokenType.Var || k == TokenType.While
  }

  /**
   * `syncronize()`: one `advance`, then the loop. The loop returns at once at
   * the end, after a `;` or in front of a statement keyword; otherwise its
   * body changes nothing and it runs forever (`None`).
   */
  function Synchronize(ts: seq<Token>, pos: nat): (r: Option<nat>)
    requires ValidTokens(ts) && pos < |ts|
    ensures r.Some? ==> r.value == Advance(ts, pos)
    ensures r.None? ==> !AtEnd(ts, Advance(ts, pos))
  {
    var q := Advance(ts, pos);
    if AtEnd(ts, q) || Previous(ts, q).kind == Semicolon || StartsStatement(ts[q].kind) then Some(q) else None
  }

  /** `declaration()`: a function, a variable or a statement, each under the rescue of `Recover`. */
  function Declaration(ts: seq<Token>, pos: nat, issues: seq<Issue>): (r: Outcome<Option<Stmt>>)
    requires ValidTokens(ts) && pos < |ts|
    ensures Progress(ts, pos, issues, r) && !r.Raised?
    ensures r.Done? && !AtEnd(ts, pos) ==> pos < r.pos
    ensures r.Done? && r.value.None? ==> |r.issues| > |issues|
    ensures r.Done? && r.value.Some? && |r.issues| == |issues| ==> NoHoles(r.value.value)
    decreases |ts| - pos, 2
  {
    if Check(ts, pos, Fun) then Recover(ts, pos, issues, FunctionDecl(ts, pos + 1, issues))
    else if Check(ts, pos, TokenType.Var) then Recover(ts, pos, issues, VarDeclaration(ts, pos + 1, issues))
    else Recover(ts, pos, issues, Statement(ts, pos, issues))
  }

  /**
   * The `rescue ParseError` of `declaration()`: a raised error is followed
   * by `syncronize`, and the entry is then `nil`.
   */
  function Recover(ts: seq<Token>, pos: nat, issues: seq<Issue>, s: Outcome<Stmt>): (r: Outcome<Option<Stmt>>)
    requires ValidTokens(ts) && pos < |ts|
    requires Progress(ts, pos, issues, s) && StmtParsed(pos, issues, s)
    ensures Progress(ts, pos, issues, r) && !r.Raised?
    ensures r.Done? && !AtEnd(ts, pos) ==> pos < r.pos
    ensures r.Done? && r.value.None? ==> |r.issues| > |issues|
    ensures r.Done? && r.value.Some? && |r.issues| == |issues| ==> NoHoles(r.value.value)
  {
    match s
    case Done(st, p, iss) => Done(Some(st), p, iss)
    case Raised(p, iss) =>
      (match Synchronize(ts, p)
       case Some(q) => Done(None, q, iss)
       case None => Hangs(iss))
    case Hangs(iss) => Hangs(iss)
  }

  /** `statement()`: dispatch on the leading keyword, else an expression statement. */
  function Statement(ts: seq<Token>, pos: nat, issues: seq<Issue>): (r: Outcome<Stmt>)
    requires ValidTokens(ts) && pos < |ts|
    ensures Progress(ts, pos, issues, r) && StmtParsed(pos, issues, r)
    decreases |ts| - pos, 1
  {
    if Check(ts, pos, For) then ForStatement(ts, pos + 1, issues)
    else if Check(ts, pos, TokenType.If) then IfStatement(ts, pos + 1, issues)
    else if Check(ts, pos, TokenType.Print) then PrintStatement(ts, pos + 1, issues)
    else if Check(ts, pos, TokenType.Return) then ReturnStatement(ts, pos + 1, issues)
    else if Check(ts, pos, TokenType.While) then WhileStatement(ts, pos + 1, issues)
    else if Check(ts, pos, LeftBrace) then BlockRule(ts, pos + 1, issues)
    else ExpressionStatement(ts, pos, issues)
  }

  /**
   * The `while` loop `for` becomes: the increment, when present, runs
   * after the body in a block of its own; the initializer, when present,
   * runs once before the loop in an enclosing block.
   */
  function DesugarFor(init: Option<Stmt>, condition: Expr, increment: Option<Expr>, body: Stmt): (r: Stmt)
    ensures r.While? <==> init.None?
    ensures LoopOf(r).While? && LoopOf(r).condition == condition
    ensures (init.Some? ==> NoHoles(init.value)) && NoHoles(body) ==> NoHoles(r)
  {
    var inner :=
      if increment.Some? then
        PairNoHoles(body, Stmt.Expression(increment.value));
        Stmt.Block([Some(body), Some(Stmt.Expression(increment.value))])
      else body;
    var loop := Stmt.While(condition, inner);
    if init.Some? then
      PairNoHoles(init.value, loop);
      Stmt.Block([init, Some(loop)])
    else loop
  }

  /** A block of two hole-free statements is hole-free. */
  lemma PairNoHoles(a: Stmt, b: Stmt)
    ensures NoHoles(a) && NoHoles(b) ==> NoHoles(Stmt.Block([Some(a), Some(b)]))
  {
    var ss := [Some(a), Some(b)];
    assert ss[0].value == a && ss[1].value == b;
  }

  /** The initializer clause of `for`: nothing after `;`, a variable declaration, or an expression statement. */
  function ForInitializer(ts: seq<Token>, pos: nat, issues: seq<Issue>): (r: Outcome<Option<Stmt>>)
    requires ValidTokens(ts) && pos < |ts|
    ensures Progress(ts, pos, issues, r) && !r.Hangs?
    ensures r.Done? ==> pos < r.pos && (r.value.None? <==> Check(ts, pos, Semicolon))
    ensures r.Done? && r.value.Some? ==> (r.value.value.Var? || r.value.value.Expression?) && NoHoles(r.value.value)
  {
    if Check(ts, pos, Semicolon) then Done(None, pos + 1, issues)
    else if Check(ts, pos, TokenType.Var) then Present(VarDeclaration(ts, pos + 1, issues))
    else Present(ExpressionStatement(ts, pos, issues))
  }

  /**
   * `for_statement()`, entered after `for`. The result is a `While` whose
   * condition is `true` when the clause is empty, wrapped in a block with
   * the initializer unless the first clause is empty.
   */
  function ForStatement(ts: seq<Token>, pos: nat, issues: seq<Issue>): (r: Outcome<Stmt>)
    requires ValidTokens(ts) && pos < |ts|
    ensures Progress(ts, pos, issues, r) && StmtParsed(pos, issues, r)
    ensures r.Done? ==> (r.value.While? <==> Check(ts, pos + 1, Semicolon))
    decreases |ts| - pos, 0
  {
    var open := Consume(ts, pos, LeftParen, ForOpen, issues);
    if !open.Done? then Fail(open) else
    var init := ForInitializer(ts, open.pos, open.issues);
    if !init.Done? then Fail(init) else
    ForCondition(ts, init.pos, init.value, init.issues)
  }

  /** The condition clause of `for`, `true` when empty, and its `;`. */
  function ForCondition(ts: seq<Token>, pos: nat, init: Option<Stmt>, issues: seq<Issue>): (r: Outcome<Stmt>)
    requires ValidTokens(ts) && pos < |ts|
    requires init.Some? ==> NoHoles(init.value)
    ensures Progress(ts, pos, issues, r) && StmtParsed(pos, issues, r)
    ensures r.Done? ==> (r.value.While? <==> init.None?)
    ensures r.Done? && Check(ts, pos, Semicolon) ==> LoopOf(r.value).While? && LoopOf(r.value).condition == Literal(BoolLit(true))
    decreases |ts| - pos, 0
  {
    if Check(ts, pos, Semicolon) then ForIncrement(ts, pos + 1, init, Literal(BoolLit(true)), issues)
    else
      var cond := Clause(ts, pos, issues);
      if !cond.Done? then Fail(cond) else
      var semi := Consume(ts, cond.pos, Semicolon, ForSemicolon, cond.issues);
      if !semi.Done? then Fail(semi) else
      ForIncrement(ts, semi.pos, init, cond.value, semi.issues)
  }

  /** The increment clause of `for`, absent when `)` follows at once, and the `)`. */
  function ForIncrement(ts: seq<Token>, pos: nat, init: Option<Stmt>, cond: Expr, issues: seq<Issue>): (r: Outcome<Stmt>)
    requires ValidTokens(ts) && pos < |ts|
    requires init.Some? ==> NoHoles(init.value)
    ensures Progress(ts, pos, issues, r) && StmtParsed(pos, issues, r)
    ensures r.Done? ==> (r.value.While? <==> init.None?) && LoopOf(r.value).While? && LoopOf(r.value).condition == cond
    decreases |ts| - pos, 0
  {
    if Check(ts, pos, RightParen) then ForBody(ts, pos + 1, init, cond, None, issues)
    else
      var incr := Clause(ts, pos, issues);
      if !incr.Done? then Fail(incr) else
      var close := Consume(ts, incr.pos, RightParen, ForClose, incr.issues);
      if !close.Done? then Fail(close) else
      ForBody(ts, close.pos, init, cond, Some(incr.value), close.issues)
  }

  /** The body of `for` and the loop the clauses make with it. */
  function ForBody(ts: seq<Token>, pos: nat, init: Option<Stmt>, cond: Expr, incr: Option<Expr>, issues: seq<Issue>): (r: Outcome<Stmt>)
    requires ValidTokens(ts) && pos < |ts|
    requires init.Some? ==> NoHoles(init.value)
    ensures Progress(ts, pos, issues, r) && StmtParsed(pos, issues, r)
    ensures r.Done? ==> (r.value.While? <==> init.None?) && LoopOf(r.value).While? && LoopOf(r.value).condition == cond
    decreases |ts| - pos, 2
  {
    var body := Statement(ts, pos, issues);
    if !body.Done? then Fail(body) else Done(DesugarFor(init, cond, incr, body.value), body.pos, body.issues)
  }

  /** The `While` inside a desugared `for`: the statement itself, or the second entry of its block. */
  function LoopOf(s: Stmt): Stmt
  {
    if s.Block? && |s.statements| == 2 && s.statements[1].Some? then s.statements[1].value else s
  }

  /** `if_statement()`, entered after `if`: the parenthesised condition, then the branches. */
  function IfStatement(ts: seq<Token>, pos: nat, issues: seq<Issue>): (r: Outcome<Stmt>)
    requires ValidTokens(ts) && pos < |ts|
    ensures Progress(ts, pos, issues, r) && StmtParsed(pos, issues, r)
    ensures r.Done? ==> r.value.If?
    decreases |ts| - pos, 0
  {
    var cond := Condition(ts, pos, IfOpen, IfClose, issues);
    if !cond.Done? then Fail(cond) else IfBranches(ts, cond.pos, cond.value, cond.issues)
  }

  /** A parenthesised condition of `if` or `while`, with the messages for a missing `(` and `)`. */
  function Condition(ts: seq<Token>, pos: nat, openMessage: string, closeMessage: string, issues: seq<Issue>): (r: Outcome<Expr>)
    requires ValidTokens(ts) && pos < |ts|
    ensures Progress(ts, pos, issues, r) && !r.Hangs?
    ensures r.Done? ==> pos + 2 < r.pos && Previous(ts, r.pos).kind == RightParen
    ensures r.Raised? && r.pos == pos ==> r.issues == issues + [Issue(ts[pos], openMessage)]
  {
    var open := Consume(ts, pos, LeftParen, openMessage, issues);
    if !open.Done? then Fail(open) else
    var cond := Clause(ts, open.pos, open.issues);
    if !cond.Done? then Fail(cond) else
    var close := Consume(ts, cond.pos, RightParen, closeMessage, cond.issues);
    if !close.Done? then Fail(close) else Done(cond.value, close.pos, close.issues)
  }

  /** The branches of `if_statement()`: the else branch is parsed only after `else`. */
  function IfBranches(ts: seq<Token>, pos: nat, cond: Expr, issues: seq<Issue>): (r: Outcome<Stmt>)
    requires ValidTokens(ts) && pos < |ts|
    ensures Progress(ts, pos, issues, r) && StmtParsed(pos, issues, r)
    ensures r.Done? ==> r.value.If? && r.value.condition == cond
    decreases |ts| - pos, 2
  {
    var thenBranch := Statement(ts, pos, issues);
    if !thenBranch.Done? then Fail(thenBranch)
    else if Check(ts, thenBranch.pos, Else) then
      var elseBranch := Statement(ts, thenBranch.pos + 1, thenBranch.issues);
      if !elseBranch.Done? then Fail(elseBranch)
      else Done(Stmt.If(cond, thenBranch.value, Some(elseBranch.value)), elseBranch.pos, elseBranch.issues)
    else Done(Stmt.If(cond, thenBranch.value, None), thenBranch.pos, thenBranch.issues)
  }

  /** `print_statement()`, entered after `print`. */
  function PrintStatement(ts: seq<Token>, pos: nat, issues: seq<Issue>): (r: Outcome<Stmt>)
    requires ValidTokens(ts) && pos < |ts|
    ensures Progress(ts, pos, issues, r) && StmtParsed(pos, issues, r) && !r.Hangs?
    ensures r.Done? ==> r.value.Print? && Previous(ts, r.pos).kind == Semicolon
  {
    var e := Clause(ts, pos, issues);
    if !e.Done? then Fail(e) else
    var semi := Consume(ts, e.pos, Semicolon, ValueSemicolon, e.issues);
    if !semi.Done? then Fail(semi) else Done(Stmt.Print(e.value), semi.pos, semi.issues)
  }

  /** `return_statement()`, entered after `return`: the keyword is the previous token; the value is optional. */
  function ReturnStatement(ts: seq<Token>, pos: nat, issues: seq<Issue>): (r: Outcome<Stmt>)
    requires ValidTokens(ts) && pos < |ts|
    ensures Progress(ts, pos, issues, r) && StmtParsed(pos, issues, r) && !r.Hangs?
    ensures r.Done? ==> r.value.Return? && r.value.keyword == Previous(ts, pos)
    ensures r.Done? ==> (r.value.value.None? <==> Check(ts, pos, Semicolon))
  {
    if Check(ts, pos, Semicolon) then Done(Stmt.Return(Previous(ts, pos), None), pos + 1, issues)
    else
      var value := Clause(ts, pos, issues);
      if !value.Done? then Fail(value) else
      var semi := Consume(ts, value.pos, Semicolon, ReturnSemicolon, value.issues);
      if !semi.Done? then Fail(semi) else Done(Stmt.Return(Previous(ts, pos), Some(value.value)), semi.pos, semi.issues)
  }

  /** `var_declaration()`, entered after `var`: a name, an optional `= initializer`, then `;`. */
  function VarDeclaration(ts: seq<Token>, pos: nat, issues: seq<Issue>): (r: Outcome<Stmt>)
    requires ValidTokens(ts) && pos < |ts|
    ensures Progress(ts, pos, issues, r) && StmtParsed(pos, issues, r) && !r.Hangs?
    ensures r.Done? ==> r.value.Var? && r.value.name == ts[pos] && r.value.name.kind == Identifier
    ensures r.Done? ==> (r.value.initializer.Some? <==> Check(ts, pos + 1, Equal))
  {
    var name := Consume(ts, pos, Identifier, VarName, issues);
    if !name.Done? then Fail(name) else VarRest(ts, name.pos, name.value, name.issues)
  }

  /** The optional `= initializer` and the `;` of `var_declaration()`. */
  function VarRest(ts: seq<Token>, pos: nat, name: Token, issues: seq<Issue>): (r: Outcome<Stmt>)
    requires ValidTokens(ts) && pos < |ts|
    ensures Progress(ts, pos, issues, r) && !r.Hangs?
    ensures r.Done? ==> pos < r.pos && r.value.Var? && r.value.name == name
    ensures r.Done? ==> (r.value.initializer.Some? <==> Check(ts, pos, Equal))
  {
    if Check(ts, pos, Equal) then
      var init := Clause(ts, pos + 1, issues);
      if !init.Done? then Fail(init) else
      var semi := Consume(ts, init.pos, Semicolon, VarSemicolon, init.issues);
      if !semi.Done? then Fail(semi) else Done(Stmt.Var(name, Some(init.value)), semi.pos, semi.issues)
    else
      var semi := Consume(ts, pos, Semicolon, VarSemicolon, issues);
      if !semi.Done? then Fail(semi) else Done(Stmt.Var(name, None), semi.pos, semi.issues)
  }

  /** `while_statement()`, entered after `while`. */
  function WhileStatement(ts: seq<Token>, pos: nat, issues: seq<Issue>): (r: Outcome<Stmt>)
    requires ValidTokens(ts) && pos < |ts|
    ensures Progress(ts, pos, issues, r) && StmtParsed(pos, issues, r)
    ensures r.Done? ==> r.value.While?
    decreases |ts| - pos, 0
  {
    var cond := Condition(ts, pos, WhileOpen, WhileClose, issues);
    if !cond.Done? then Fail(cond) else
    var body := Statement(ts, cond.pos, cond.issues);
    if !body.Done? then Fail(body) else Done(Stmt.While(cond.value, body.value), body.pos, body.issues)
  }

  /** `expression_statement()`. */
  function ExpressionStatement(ts: seq<Token>, pos: nat, issues: seq<Issue>): (r: Outcome<Stmt>)
    requires ValidTokens(ts) && pos < |ts|
    ensures Progress(ts, pos, issues, r) && StmtParsed(pos, issues, r) && !r.Hangs?
    ensures r.Done? ==> r.value.Expression? && Previous(ts, r.pos).kind == Semicolon
  {
    var e := Clause(ts, pos, issues);
    if !e.Done? then Fail(e) else
    var semi := Consume(ts, e.pos, Semicolon, ValueSemicolon, e.issues);
    if !semi.Done? then Fail(semi) else Done(Stmt.Expression(e.value), semi.pos, semi.issues)
  }

  /** `function("function")`, entered after `fun`: the name and `(`, then the parameters and body. */
  function FunctionDecl(ts: seq<Token>, pos: nat, issues: seq<Issue>): (r: Outcome<Stmt>)
    requires ValidTokens(ts) && pos < |ts|
    ensures Progress(ts, pos, issues, r) && StmtParsed(pos, issues, r)
    ensures r.Done? ==> r.value.Function? && r.value.name == ts[pos] && r.value.body.Block?
    ensures r.Done? ==> Identifiers(r.value.params)
    decreases |ts| - pos, 0
  {
    var name := Consume(ts, pos, Identifier, FunctionName, issues);
    if !name.Done? then Fail(name) else
    var open := Consume(ts, name.pos, LeftParen, FunctionOpen, name.issues);
    if !open.Done? then Fail(open) else
    FunctionRest(ts, open.pos, name.value, open.issues)
  }

  /** The parameter list, the `)` and the block body of `function`. */
  function FunctionRest(ts: seq<Token>, pos: nat, name: Token, issues: seq<Issue>): (r: Outcome<Stmt>)
    requires ValidTokens(ts) && pos < |ts|
    ensures Progress(ts, pos, issues, r) && StmtParsed(pos, issues, r)
    ensures r.Done? ==> r.value.Function? && r.value.name == name && r.value.body.Block? && Identifiers(r.value.params)
    ensures r.Done? ==> (r.value.params == [] <==> Check(ts, pos, RightParen))
    decreases |ts| - pos, 0
  {
    var params := ParameterList(ts, pos, issues);
    if !params.Done? then Fail(params) else FunctionBody(ts, params.pos, name, params.value, params.issues)
  }

  /** The parameters of `function`, none when `)` follows at once, and the `)`. */
  function ParameterList(ts: seq<Token>, pos: nat, issues: seq<Issue>): (r: Outcome<seq<Token>>)
    requires ValidTokens(ts) && pos < |ts|
    ensures Progress(ts, pos, issues, r) && !r.Hangs?
    ensures r.Done? ==> pos < r.pos && Identifiers(r.value) && (r.value == [] <==> Check(ts, pos, RightParen))
    ensures r.Done? ==> Previous(ts, r.pos).kind == RightParen
  {
    if Check(ts, pos, RightParen) then Done([], pos + 1, issues) else ParametersClosed(ts, pos, issues)
  }

  /** The non-empty parameter list of `function` and the `)` after it. */
  function ParametersClosed(ts: seq<Token>, pos: nat, issues: seq<Issue>): (r: Outcome<seq<Token>>)
    requires ValidTokens(ts) && pos < |ts|
    ensures Progress(ts, pos, issues, r) && !r.Hangs?
    ensures r.Done? ==> pos < r.pos && Identifiers(r.value) && r.value != []
    ensures r.Done? ==> Previous(ts, r.pos).kind == RightParen
  {
    var params := Parameters(ts, pos, issues);
    if !params.Done? then Fail(params) else CloseParameters(ts, params.pos, params.value, params.issues)
  }

  /** The `)` after the parameters. */
  function CloseParameters(ts: seq<Token>, pos: nat, params: seq<Token>, issues: seq<Issue>): (r: Outcome<seq<Token>>)
    requires ValidTokens(ts) && pos < |ts|
    ensures Progress(ts, pos, issues, r) && !r.Hangs?
    ensures r.Done? <==> Check(ts, pos, RightParen)
    ensures r.Done? ==> r.value == params && r.pos == pos + 1 && Previous(ts, r.pos).kind == RightParen
  {
    var close := Consume(ts, pos, RightParen, ParametersClose, issues);
    if !close.Done? then Fail(close) else Done(params, close.pos, close.issues)
  }

  /** The `{` and the block body of `function`. */
  function FunctionBody(ts: seq<Token>, pos: nat, name: Token, params: seq<Token>, issues: seq<Issue>): (r: Outcome<Stmt>)
    requires ValidTokens(ts) && pos < |ts|
    ensures Progress(ts, pos, issues, r) && StmtParsed(pos, issues, r)
    ensures r.Done? ==> r.value.Function? && r.value.name == name && r.value.params == params && r.value.body.Block?
    decreases |ts| - pos, 0
  {
    var brace := Consume(ts, pos, LeftBrace, BodyOpen, issues);
    if !brace.Done? then Fail(brace) else
    var body := BlockRule(ts, brace.pos, brace.issues);
    if !body.Done? then Fail(body) else Done(Function(name, params, body.value), body.pos, body.issues)
  }

  /** Every token is an identifier. */
  predicate Identifiers(ps: seq<Token>)
  {
    forall i :: 0 <= i < |ps| ==> ps[i].kind == Identifier
  }

  /** The non-empty parameter list of `function`. */
  function Parameters(ts: seq<Token>, pos: nat, issues: seq<Issue>): (r: Outcome<seq<Token>>)
    requires ValidTokens(ts) && pos < |ts|
    ensures Progress(ts, pos, issues, r) && !r.Hangs?
    ensures r.Done? ==> pos < r.pos && |r.value| >= 1 && Identifiers(r.value)
    ensures r.Done? ==> CapIssues(issues, r.issues, 1, |r.value|, ParametersCap)
  {
    var first := Consume(ts, pos, Identifier, ParameterName, issues);
    if !first.Done? then Fail(first) else ParametersRest(ts, first.pos, [first.value], first.issues)
  }

  /**
   * The issues appended while a list grew from `n0` to `n1` items are exactly
   * one cap message for each item added to a list already holding 255.
   */
  predicate CapIssues(before: seq<Issue>, after: seq<Issue>, n0: nat, n1: nat, message: string)
  {
    && before <= after
    && |after| - |before| == Excess(n0, n1)
    && (forall i :: |before| <= i < |after| ==> after[i].message == message)
  }

  /**
   * The `while match?(:COMMA)` loop of `function`: with 255 parameters
   * already collected a further comma is reported at the next token, but
   * not raised, and parsing goes on.
   */
  function ParametersRest(ts: seq<Token>, pos: nat, params: seq<Token>, issues: seq<Issue>): (r: Outcome<seq<Token>>)
    requires ValidTokens(ts) && pos < |ts|
    requires Identifiers(params)
    ensures Progress(ts, pos, issues, r) && !r.Hangs?
    ensures r.Done? ==> params <= r.value && Identifiers(r.value)
    ensures r.Done? ==> CapIssues(issues, r.issues, |params|, |r.value|, ParametersCap)
    decreases |ts| - pos
  {
    if Check(ts, pos, Comma) then
      var reported := if |params| >= 255 then issues + [Issue(ts[pos + 1], ParametersCap)] else issues;
      var p := Consume(ts, pos + 1, Identifier, ParameterName, reported);
      if !p.Done? then Fail(p) else ParametersRest(ts, p.pos, params + [p.value], p.issues)
    else Done(params, pos, issues)
  }

  /** `block()`, entered after `{`. */
  function BlockRule(ts: seq<Token>, pos: nat, issues: seq<Issue>): (r: Outcome<Stmt>)
    requires ValidTokens(ts) && pos < |ts|
    ensures Progress(ts, pos, issues, r) && StmtParsed(pos, issues, r)
    ensures r.Done? ==> r.value.Block? && Previous(ts, r.pos).kind == RightBrace
    decreases |ts| - pos, 5
  {
    BlockRest(ts, pos, [], issues)
  }

  /** The loop of `block()`: declarations until `}` or the end, then the closing brace. */
  function BlockRest(ts: seq<Token>, pos: nat, acc: seq<Option<Stmt>>, issues: seq<Issue>): (r: Outcome<Stmt>)
    requires ValidTokens(ts) && pos < |ts|
    ensures Progress(ts, pos, issues, r)
    ensures r.Done? ==> pos < r.pos && r.value.Block? && acc <= r.value.statements && Previous(ts, r.pos).kind == RightBrace
    ensures r.Done? && |r.issues| == |issues| && HoleFree(acc) ==> NoHoles(r.value)
    decreases |ts| - pos, 4
  {
    if !Check(ts, pos, RightBrace) && !AtEnd(ts, pos) then BlockEntry(ts, pos, acc, issues, Declaration(ts, pos, issues))
    else CloseBlock(ts, pos, acc, issues)
  }

  /** One round of the loop of `block()`: the declaration `d` parsed at `pos` joins the block. */
  function BlockEntry(ts: seq<Token>, pos: nat, acc: seq<Option<Stmt>>, issues: seq<Issue>, d: Outcome<Option<Stmt>>): (r: Outcome<Stmt>)
    requires ValidTokens(ts) && pos < |ts| && !AtEnd(ts, pos) && d == Declaration(ts, pos, issues)
    ensures Progress(ts, pos, issues, r)
    ensures r.Done? ==> pos < r.pos && r.value.Block? && acc <= r.value.statements && Previous(ts, r.pos).kind == RightBrace
    ensures r.Done? && |r.issues| == |issues| && HoleFree(acc) ==> NoHoles(r.value)
    decreases |ts| - pos, 3
  {
    if !d.Done? then Fail(d)
    else
      AppendEntry(acc, d.value);
      BlockRest(ts, d.pos, acc + [d.value], d.issues)
  }

  /** The closing brace of `block()`: the block holds exactly the declarations collected. */
  function CloseBlock(ts: seq<Token>, pos: nat, acc: seq<Option<Stmt>>, issues: seq<Issue>): (r: Outcome<Stmt>)
    requires ValidTokens(ts) && pos < |ts|
    ensures Progress(ts, pos, issues, r) && !r.Hangs?
    ensures r.Done? <==> Check(ts, pos, RightBrace)
    ensures r.Done? ==> r.pos == pos + 1 && r.value == Stmt.Block(acc) && r.issues == issues
  {
    var close := Consume(ts, pos, RightBrace, BlockClose, issues);
    if !close.Done? then Fail(close) else Done(Stmt.Block(acc), close.pos, close.issues)
  }

  // ---------------------------------------------------------------------------
  // Entry points

  /** The result of `parse`: one entry per declaration, or the synchronize loop that never ends. */
  datatype Program = Parsed(statements: seq<Option<Stmt>>, issues: seq<Issue>) | Diverges(issues: seq<Issue>)

  /**
   * `parse(tokens)`: declarations until EOF. Every `nil` entry comes with
   * at least one reported issue, so a parse without issues has no `nil`
   * at any depth.
   */
  function Parse(ts: seq<Token>): (r: Program)
    requires ValidTokens(ts)
    ensures r.Parsed? ==> Holes(r.statements) <= |r.issues|
    ensures r.Parsed? && r.issues == [] ==> HoleFree(r.statements)
  {
    ProgramFrom(ts, 0, [], [])
  }

  /** Appending one entry adds its hole, if it is one, and keeps a hole-free list hole-free only if it has none. */
  lemma AppendEntry(acc: seq<Option<Stmt>>, x: Option<Stmt>)
    ensures Holes(acc + [x]) == Holes(acc) + (if x.None? then 1 else 0)
    ensures HoleFree(acc + [x]) <==> HoleFree(acc) && x.Some? && NoHoles(x.value)
  {
    assert (acc + [x])[..|acc|] == acc;
    assert (acc + [x])[|acc|] == x;
  }

  /** The `while !at_end?` loop of `parse`. */
  function ProgramFrom(ts: seq<Token>, pos: nat, acc: seq<Option<Stmt>>, issues: seq<Issue>): (r: Program)
    requires ValidTokens(ts) && pos < |ts|
    ensures |issues| <= |r.issues|
    ensures r.Parsed? ==> acc <= r.statements && Holes(r.statements) - Holes(acc) <= |r.issues| - |issues|
    ensures r.Parsed? && |r.issues| == |issues| && HoleFree(acc) ==> HoleFree(r.statements)
    decreases |ts| - pos
  {
    if AtEnd(ts, pos) then Parsed(acc, issues)
    else
      var d := Declaration(ts, pos, issues);
      if !d.Done? then Diverges(d.issues)
      else
        AppendEntry(acc, d.value);
        ProgramFrom(ts, d.pos, acc + [d.value], d.issues)
  }

  /**
   * The snapshot's `parse`: one expression, or `nil` once a ParseError is
   * raised. Tokens after the expression are not examined.
   */
  function ParseExpression(ts: seq<Token>): (r: (Option<Expr>, seq<Issue>))
    requires ValidTokens(ts)
    ensures r.0.Some? ==> InSnapshot(r.0.value) && WellPrec(r.0.value) && r.1 == []
    ensures r.0.None? <==> |r.1| == 1
  {
    var e := ExpressionRule(ts, 0, Snapshot, []);
    if e.Done? then (Some(e.value), e.issues) else (None, e.issues)
  }
}
