/**
 * What the parser does on small, fully described inputs: associativity,
 * the two loops that never update their left operand, assignment targets,
 * the snapshot's unary chains and its missing variables, the shape of a
 * desugared `for`, and the error-recovery loop compared with a step-by-step
 * run of the Ruby loop.
 */
module ParserProperties {
  import opened Basics
  import opened Tokens
  import opened Ast
  import opened Parser

  /**
   * A token that ends an operand for every rule binding at least as tightly
   * as `tier`: not `(` (which would start a call) and not an operator of tier
   * `tier` or tighter.
   */
  predicate StopsAt(k: TokenType, tier: nat)
  {
    k != LeftParen && (OpTier(k) < tier || OpTier(k) == 7)
  }

  /** An operator token is neither the end nor `(`. */
  lemma OperatorToken(k: TokenType)
    requires OpTier(k) < 7
    ensures k != Eof && k != LeftParen
  {
  }

  /** `=` ends the operand of `logical_or`. */
  lemma EqualStops()
    ensures StopsAt(Equal, OpTier(Or))
  {
  }

  // ---------------------------------------------------------------------------
  // One step of each rule
  //
  // The `*Stops`, `*Round` and `*Of` lemmas below each unfold one rule or one
  // loop round once. They are the stepping rules the examples further down are
  // proved with; `BinaryRestRound`, `LogicRestRound` and `CallRestRound` also
  // state what one round of each loop does.

  lemma PrimaryAtom(ts: seq<Token>, p: nat, d: Dialect, issues: seq<Issue>)
    requires ValidTokens(ts) && p < |ts| && Atom(ts, p, d).Some?
    ensures Primary(ts, p, d, issues) == Done(Atom(ts, p, d).value, p + 1, issues)
  {
  }

  lemma UnaryToCall(ts: seq<Token>, p: nat, issues: seq<Issue>)
    requires ValidTokens(ts) && p < |ts| && Atom(ts, p, Full).Some?
    ensures UnaryExpr(ts, p, Full, issues) == CallExpr(ts, p, issues)
  {
    assert !Check(ts, p, Bang) && !Check(ts, p, Minus);
  }

  lemma CallRestStops(ts: seq<Token>, q: nat, issues: seq<Issue>)
    requires ValidTokens(ts) && q < |ts| && !Check(ts, q, LeftParen)
    ensures CallRest(ts, q, issues) == Done(None, q, issues)
  {
  }

  lemma CallRestRound(ts: seq<Token>, q: nat, issues: seq<Issue>, c: (Token, seq<Expr>), q1: nat, i1: seq<Issue>, last: Option<(Token, seq<Expr>)>, q2: nat, i2: seq<Issue>)
    requires ValidTokens(ts) && q < |ts| && Check(ts, q, LeftParen)
    requires FinishCall(ts, q + 1, issues) == Done(c, q1, i1) && q1 < |ts|
    requires CallRest(ts, q1, i1) == Done(last, q2, i2)
    ensures CallRest(ts, q, issues) == Done(if last.None? then Some(c) else last, q2, i2)
  {
  }

  lemma CallOf(ts: seq<Token>, p: nat, issues: seq<Issue>, callee: Expr, last: Option<(Token, seq<Expr>)>, q: nat, i1: seq<Issue>)
    requires ValidTokens(ts) && p + 1 < |ts| && Atom(ts, p, Full).Some? && callee == Atom(ts, p, Full).value
    requires CallRest(ts, p + 1, issues) == Done(last, q, i1)
    ensures last.Some? ==> last.value.0.kind == RightParen && AllWellPrec(last.value.1)
    ensures CallExpr(ts, p, issues) == Done(if last.None? then callee else Call(callee, last.value.0, last.value.1), q, i1)
  {
    PrimaryAtom(ts, p, Full, issues);
  }

  lemma BinaryRestStops(ts: seq<Token>, q: nat, d: Dialect, tier: nat, left: Expr, issues: seq<Issue>)
    requires ValidTokens(ts) && q < |ts| && 3 <= tier <= 6 && Shaped(left, d, tier)
    requires AtEnd(ts, q) || OpTier(ts[q].kind) != tier
    ensures BinaryRest(ts, q, d, tier, left, issues) == Done(left, q, issues)
  {
  }

  lemma BinaryRestRound(ts: seq<Token>, q: nat, d: Dialect, tier: nat, left: Expr, issues: seq<Issue>, right: Expr, q1: nat, i1: seq<Issue>)
    requires ValidTokens(ts) && q < |ts| && 3 <= tier <= 6 && Shaped(left, d, tier)
    requires !AtEnd(ts, q) && OpTier(ts[q].kind) == tier
    requires BinaryOperand(ts, q + 1, d, tier, issues) == Done(right, q1, i1) && q1 < |ts|
    ensures Shaped(Binary(left, ts[q], right), d, tier)
    ensures BinaryRest(ts, q, d, tier, left, issues) == BinaryRest(ts, q1, d, tier, Binary(left, ts[q], right), i1)
  {
  }

  lemma BinaryLevelOf(ts: seq<Token>, p: nat, d: Dialect, tier: nat, issues: seq<Issue>, e: Expr, q: nat, i1: seq<Issue>)
    requires ValidTokens(ts) && p < |ts| && 3 <= tier <= 6
    requires BinaryOperand(ts, p, d, tier, issues) == Done(e, q, i1) && q < |ts|
    ensures Shaped(e, d, tier)
    ensures BinaryLevel(ts, p, d, tier, issues) == BinaryRest(ts, q, d, tier, e, i1)
  {
  }

  lemma LogicRestStops(ts: seq<Token>, q: nat, op: TokenType, issues: seq<Issue>)
    requires ValidTokens(ts) && q < |ts| && (op == Or || op == And) && !Check(ts, q, op)
    ensures LogicRest(ts, q, op, issues) == Done(None, q, issues)
  {
  }

  lemma LogicRestRound(ts: seq<Token>, q: nat, op: TokenType, issues: seq<Issue>, right: Expr, q1: nat, i1: seq<Issue>, last: Option<(Token, Expr)>, q2: nat, i2: seq<Issue>)
    requires ValidTokens(ts) && q < |ts| && (op == Or || op == And) && Check(ts, q, op)
    requires LogicOperand(ts, q + 1, op, issues) == Done(right, q1, i1) && q1 < |ts|
    requires LogicRest(ts, q1, op, i1) == Done(last, q2, i2)
    ensures LogicRest(ts, q, op, issues) == Done(if last.None? then Some((ts[q], right)) else last, q2, i2)
  {
  }

  lemma LogicLevelOf(ts: seq<Token>, p: nat, op: TokenType, issues: seq<Issue>, left: Expr, q: nat, i1: seq<Issue>, last: Option<(Token, Expr)>, q2: nat, i2: seq<Issue>)
    requires ValidTokens(ts) && p < |ts| && (op == Or || op == And)
    requires LogicOperand(ts, p, op, issues) == Done(left, q, i1) && q < |ts|
    requires LogicRest(ts, q, op, i1) == Done(last, q2, i2)
    ensures last.Some? ==> last.value.0.kind == op && Shaped(last.value.1, Full, OpTier(op) + 1) && Shaped(left, Full, OpTier(op) + 1)
    ensures LogicLevel(ts, p, op, issues) == Done(if last.None? then left else Logical(left, last.value.0, last.value.1), q2, i2)
  {
  }

  /** A binary level whose first operand is not followed by an operator of the level. */
  lemma LevelStops(ts: seq<Token>, p: nat, d: Dialect, tier: nat, issues: seq<Issue>, a: Expr)
    requires ValidTokens(ts) && p + 1 < |ts| && 3 <= tier <= 6 && (AtEnd(ts, p + 1) || OpTier(ts[p + 1].kind) != tier)
    requires BinaryOperand(ts, p, d, tier, issues) == Done(a, p + 1, issues)
    ensures BinaryLevel(ts, p, d, tier, issues) == Done(a, p + 1, issues)
  {
    BinaryLevelOf(ts, p, d, tier, issues, a, p + 1, issues);
    BinaryRestStops(ts, p + 1, d, tier, a, issues);
  }

  /** `logical_or` and `logical_and` whose first operand is not followed by their operator. */
  lemma LogicStops(ts: seq<Token>, p: nat, op: TokenType, issues: seq<Issue>, a: Expr)
    requires ValidTokens(ts) && p + 1 < |ts| && (op == Or || op == And) && !Check(ts, p + 1, op)
    requires LogicOperand(ts, p, op, issues) == Done(a, p + 1, issues)
    ensures LogicLevel(ts, p, op, issues) == Done(a, p + 1, issues)
  {
    LogicRestStops(ts, p + 1, op, issues);
    LogicLevelOf(ts, p, op, issues, a, p + 1, issues, None, p + 1, issues);
  }

  /** The operand of `logical_or` is `logical_and`. */
  lemma OrOperand(ts: seq<Token>, p: nat, issues: seq<Issue>)
    requires ValidTokens(ts) && p < |ts|
    ensures LogicOperand(ts, p, Or, issues) == LogicLevel(ts, p, And, issues)
  {
  }

  /** The operand of `logical_and` is `equality`. */
  lemma AndOperand(ts: seq<Token>, p: nat, issues: seq<Issue>)
    requires ValidTokens(ts) && p < |ts|
    ensures LogicOperand(ts, p, And, issues) == BinaryLevel(ts, p, Full, 3, issues)
  {
  }

  /** `expression()` in the full parser is `assignment()`. */
  lemma ExpressionIsAssignment(ts: seq<Token>, p: nat, issues: seq<Issue>)
    requires ValidTokens(ts) && p < |ts|
    ensures ExpressionRule(ts, p, Full, issues) == Assignment(ts, p, issues)
  {
  }

  /** `assignment()` whose left side is not followed by `=`. */
  lemma AssignmentStops(ts: seq<Token>, p: nat, issues: seq<Issue>, a: Expr)
    requires ValidTokens(ts) && p + 1 < |ts| && !Check(ts, p + 1, Equal)
    requires LogicLevel(ts, p, Or, issues) == Done(a, p + 1, issues)
    ensures Assignment(ts, p, issues) == Done(a, p + 1, issues)
  {
  }

  /** `assignment()` whose left side is followed by `=`. */
  lemma AssignmentStep(ts: seq<Token>, p: nat, issues: seq<Issue>, target: Expr)
    requires ValidTokens(ts) && p + 1 < |ts| && Check(ts, p + 1, Equal)
    requires LogicLevel(ts, p, Or, issues) == Done(target, p + 1, issues)
    ensures Shaped(target, Full, 1)
    ensures Assignment(ts, p, issues) == AssignValue(ts, p + 1, target, issues)
  {
  }

  /** The node of an assignment to a variable. */
  lemma AssignToVariable(ts: seq<Token>, q: nat, name: Token, issues: seq<Issue>, v: Expr, q2: nat, i2: seq<Issue>)
    requires ValidTokens(ts) && q + 1 < |ts| && Check(ts, q, Equal) && name.kind == Identifier
    requires Assignment(ts, q + 1, issues) == Done(v, q2, i2)
    ensures AssignValue(ts, q, Variable(name), issues) == Done(Assign(name, v), q2, i2)
  {
  }

  /** An assignment to anything else: the target is kept and the `=` reported. */
  lemma AssignToOther(ts: seq<Token>, q: nat, target: Expr, issues: seq<Issue>, v: Expr, q2: nat, i2: seq<Issue>)
    requires ValidTokens(ts) && q + 1 < |ts| && Check(ts, q, Equal) && Shaped(target, Full, 1) && !target.Variable?
    requires Assignment(ts, q + 1, issues) == Done(v, q2, i2)
    ensures AssignValue(ts, q, target, issues) == Done(target, q2, i2 + [Issue(ts[q], InvalidTarget)])
  {
  }

  /** A one-argument list that no comma continues. */
  lemma OneArgumentList(ts: seq<Token>, q: nat, issues: seq<Issue>, a: Expr)
    requires ValidTokens(ts) && q + 1 < |ts| && ts[q].kind != RightParen && ts[q + 1].kind != Comma
    requires ExpressionRule(ts, q, Full, issues) == Done(a, q + 1, issues)
    ensures ArgumentList(ts, q, issues) == Done([a], q + 1, issues)
  {
    assert ArgumentsRest(ts, q + 1, [a], issues) == Done([a], q + 1, issues);
  }

  /** A call's argument list closed by `)`. */
  lemma ClosedArguments(ts: seq<Token>, q: nat, issues: seq<Issue>, args: seq<Expr>, q1: nat)
    requires ValidTokens(ts) && q1 < |ts| && q < |ts| && ts[q1].kind == RightParen
    requires ArgumentList(ts, q, issues) == Done(args, q1, issues)
    ensures FinishCall(ts, q, issues) == Done((ts[q1], args), q1 + 1, issues)
  {
  }

  // ---------------------------------------------------------------------------
  // The argument cap

  /**
   * From `pos` on, no expression reports anything of its own: no invalid
   * assignment target and no nested call over the cap.
   */
  ghost predicate QuietArguments(ts: seq<Token>, pos: nat)
    requires ValidTokens(ts)
  {
    forall p, issues :: pos <= p < |ts| && ExpressionRule(ts, p, Full, issues).Done? ==>
      ExpressionRule(ts, p, Full, issues).issues == issues
  }

  /** Every issue appended from `before` to `after` is reported at a token that follows a comma at `lo` or later. */
  ghost predicate AfterCommas(ts: seq<Token>, lo: nat, before: seq<Issue>, after: seq<Issue>)
  {
    forall i :: |before| <= i < |after| ==>
      exists p :: lo <= p && p + 1 < |ts| && ts[p].kind == Comma && after[i].token == ts[p + 1]
  }

  /** `Excess` counted one added item at a time. */
  lemma ExcessStep(n0: nat, n1: nat)
    requires n0 < n1
    ensures Excess(n0, n1) == (if n0 >= 255 then 1 else 0) + Excess(n0 + 1, n1)
  {
  }

  /** One round of the comma loop: the cap report it may add comes first, at the token after its comma. */
  lemma CapRound(ts: seq<Token>, pos: nat, lo: nat, n: nat, m: nat, issues: seq<Issue>, reported: seq<Issue>, after: seq<Issue>)
    requires lo <= pos && pos + 1 < |ts| && ts[pos].kind == Comma && n < m
    requires reported == if n >= 255 then issues + [Issue(ts[pos + 1], ArgumentsCap)] else issues
    requires CapIssues(reported, after, n + 1, m, ArgumentsCap) && AfterCommas(ts, lo, reported, after)
    ensures CapIssues(issues, after, n, m, ArgumentsCap) && AfterCommas(ts, lo, issues, after)
  {
    ExcessStep(n, m);
    forall i | |issues| <= i < |after|
      ensures exists p :: lo <= p && p + 1 < |ts| && ts[p].kind == Comma && after[i].token == ts[p + 1]
    {
      if i < |reported| {
        assert after[i] == reported[i] == Issue(ts[pos + 1], ArgumentsCap);
      } else {
        var t := after[i].token;
      }
    }
  }

  /**
   * When the arguments report nothing of their own, the comma loop of
   * `finish_call` reports exactly one "Can't have more than 255 arguments"
   * for each argument beyond the 255th, each at the token after its comma,
   * which lies at `pos` or later and so at any `lo` before it.
   */
  lemma {:induction false} ArgumentsRestCapExact(ts: seq<Token>, pos: nat, args: seq<Expr>, issues: seq<Issue>, lo: nat)
    requires ValidTokens(ts) && pos < |ts| && AllWellPrec(args) && QuietArguments(ts, pos) && lo <= pos
    ensures var r := ArgumentsRest(ts, pos, args, issues);
      r.Done? ==> CapIssues(issues, r.issues, |args|, |r.value|, ArgumentsCap) && AfterCommas(ts, lo, issues, r.issues)
    decreases |ts| - pos
  {
    if Check(ts, pos, Comma) {
      var reported := if |args| >= 255 then issues + [Issue(ts[pos + 1], ArgumentsCap)] else issues;
      var e := ExpressionRule(ts, pos + 1, Full, reported);
      if e.Done? {
        assert e.issues == reported;
        var r := ArgumentsRest(ts, e.pos, args + [e.value], e.issues);
        assert ArgumentsRest(ts, pos, args, issues) == r;
        ArgumentsRestCapExact(ts, e.pos, args + [e.value], e.issues, lo);
        if r.Done? {
          CapRound(ts, pos, lo, |args|, |r.value|, issues, reported, r.issues);
        }
      }
    }
  }

  /** The same for the whole argument list of a call: no report up to 255 arguments, one per argument beyond. */
  lemma ArgumentListCapExact(ts: seq<Token>, pos: nat, issues: seq<Issue>)
    requires ValidTokens(ts) && pos < |ts| && QuietArguments(ts, pos)
    ensures var r := ArgumentList(ts, pos, issues);
      r.Done? ==> CapIssues(issues, r.issues, 0, |r.value|, ArgumentsCap) && AfterCommas(ts, pos, issues, r.issues)
  {
    if !Check(ts, pos, RightParen) {
      var first := ExpressionRule(ts, pos, Full, issues);
      if first.Done? {
        assert first.issues == issues;
        var r := ArgumentsRest(ts, first.pos, [first.value], issues);
        assert Arguments(ts, pos, issues) == r;
        assert ArgumentList(ts, pos, issues) == r;
        ArgumentsRestCapExact(ts, first.pos, [first.value], issues, pos);
        if r.Done? {
          assert Excess(0, |r.value|) == Excess(1, |r.value|);
        }
      }
    }
  }

  // ---------------------------------------------------------------------------
  // One-token operands at every level

  /** A one-token primary that no `(` follows is the whole of `call()` and of `unary()`. */
  lemma AtomCall(ts: seq<Token>, p: nat, issues: seq<Issue>)
    requires ValidTokens(ts) && p + 1 < |ts| && Atom(ts, p, Full).Some? && !Check(ts, p + 1, LeftParen)
    ensures UnaryExpr(ts, p, Full, issues) == Done(Atom(ts, p, Full).value, p + 1, issues)
  {
    CallRestStops(ts, p + 1, issues);
    CallOf(ts, p, issues, Atom(ts, p, Full).value, None, p + 1, issues);
    UnaryToCall(ts, p, issues);
  }

  /** ... and of every binary level from `tier` on, when no operator of those levels follows. */
  lemma {:induction false} AtomLevel(ts: seq<Token>, p: nat, tier: nat, issues: seq<Issue>)
    requires ValidTokens(ts) && p + 1 < |ts| && Atom(ts, p, Full).Some?
    requires 3 <= tier <= 6 && StopsAt(ts[p + 1].kind, tier)
    ensures BinaryLevel(ts, p, Full, tier, issues) == Done(Atom(ts, p, Full).value, p + 1, issues)
    decreases 6 - tier, 1
  {
    AtomOperand(ts, p, tier, issues);
    LevelStops(ts, p, Full, tier, issues, Atom(ts, p, Full).value);
  }

  /** The operand parser of a binary level, on a one-token operand that the next level does not extend. */
  lemma {:induction false} AtomOperand(ts: seq<Token>, p: nat, tier: nat, issues: seq<Issue>)
    requires ValidTokens(ts) && p + 1 < |ts| && Atom(ts, p, Full).Some?
    requires 3 <= tier <= 6 && StopsAt(ts[p + 1].kind, tier + 1)
    ensures BinaryOperand(ts, p, Full, tier, issues) == Done(Atom(ts, p, Full).value, p + 1, issues)
    decreases 6 - tier, 0
  {
    if tier == 6 {
      AtomCall(ts, p, issues);
    } else {
      AtomLevel(ts, p, tier + 1, issues);
    }
  }

  /** ... and of `logical_and` and `logical_or`, when neither `and` (nor `or`) follows. */
  lemma {:induction false} AtomLogic(ts: seq<Token>, p: nat, op: TokenType, issues: seq<Issue>)
    requires ValidTokens(ts) && p + 1 < |ts| && Atom(ts, p, Full).Some?
    requires (op == Or || op == And) && StopsAt(ts[p + 1].kind, OpTier(op))
    ensures LogicOperand(ts, p, op, issues) == Done(Atom(ts, p, Full).value, p + 1, issues)
    ensures LogicLevel(ts, p, op, issues) == Done(Atom(ts, p, Full).value, p + 1, issues)
    decreases if op == Or then 1 else 0
  {
    if op == Or {
      AtomLogic(ts, p, And, issues);
      OrOperand(ts, p, issues);
    } else {
      AtomLevel(ts, p, 3, issues);
      AndOperand(ts, p, issues);
    }
    LogicStops(ts, p, op, issues, Atom(ts, p, Full).value);
  }

  /** ... and of `expression()`, when no `=` follows. */
  lemma AtomExpression(ts: seq<Token>, p: nat, issues: seq<Issue>)
    requires ValidTokens(ts) && p + 1 < |ts| && Atom(ts, p, Full).Some?
    requires StopsAt(ts[p + 1].kind, 1) && ts[p + 1].kind != Equal
    ensures ExpressionRule(ts, p, Full, issues) == Done(Atom(ts, p, Full).value, p + 1, issues)
  {
    AtomLogic(ts, p, Or, issues);
    AssignmentStops(ts, p, issues, Atom(ts, p, Full).value);
    ExpressionIsAssignment(ts, p, issues);
  }

  /** An argument list holding one one-token argument. */
  lemma ArgumentAtom(ts: seq<Token>, q: nat, issues: seq<Issue>)
    requires ValidTokens(ts) && q + 1 < |ts| && Atom(ts, q, Full).Some? && ts[q + 1].kind == RightParen
    ensures FinishCall(ts, q, issues) == Done((ts[q + 1], [Atom(ts, q, Full).value]), q + 2, issues)
  {
    AtomExpression(ts, q, issues);
    OneArgumentList(ts, q, issues, Atom(ts, q, Full).value);
    ClosedArguments(ts, q, issues, [Atom(ts, q, Full).value], q + 1);
  }

  // ---------------------------------------------------------------------------
  // Shapes

  /** Two rounds of a binary level's loop over three operands. */
  lemma TwoRounds(ts: seq<Token>, p: nat, tier: nat, issues: seq<Issue>, a: Expr, b: Expr, c: Expr)
    requires ValidTokens(ts) && p + 5 < |ts| && 3 <= tier <= 6
    requires BinaryOperand(ts, p, Full, tier, issues) == Done(a, p + 1, issues)
    requires BinaryOperand(ts, p + 2, Full, tier, issues) == Done(b, p + 3, issues)
    requires BinaryOperand(ts, p + 4, Full, tier, issues) == Done(c, p + 5, issues)
    requires !AtEnd(ts, p + 1) && !AtEnd(ts, p + 3) && OpTier(ts[p + 1].kind) == tier && OpTier(ts[p + 3].kind) == tier
    requires AtEnd(ts, p + 5) || OpTier(ts[p + 5].kind) != tier
    ensures BinaryLevel(ts, p, Full, tier, issues) == Done(Binary(Binary(a, ts[p + 1], b), ts[p + 3], c), p + 5, issues)
  {
    BinaryLevelOf(ts, p, Full, tier, issues, a, p + 1, issues);
    BinaryRestRound(ts, p + 1, Full, tier, a, issues, b, p + 3, issues);
    BinaryRestRound(ts, p + 3, Full, tier, Binary(a, ts[p + 1], b), issues, c, p + 5, issues);
    BinaryRestStops(ts, p + 5, Full, tier, Binary(Binary(a, ts[p + 1], b), ts[p + 3], c), issues);
  }

  /**
   * An example on one-token operands: `a - b - c` is `(a - b) - c`, at every
   * binary level. The general law is the round of `BinaryRestRound`, which
   * nests each new operand over the whole left side.
   */
  lemma LeftAssociative(ts: seq<Token>, p: nat, tier: nat, issues: seq<Issue>, a: Expr, b: Expr, c: Expr)
    requires ValidTokens(ts) && p + 5 < |ts| && 3 <= tier <= 6
    requires Atom(ts, p, Full) == Some(a) && Atom(ts, p + 2, Full) == Some(b) && Atom(ts, p + 4, Full) == Some(c)
    requires OpTier(ts[p + 1].kind) == tier && OpTier(ts[p + 3].kind) == tier && StopsAt(ts[p + 5].kind, tier)
    ensures BinaryLevel(ts, p, Full, tier, issues) == Done(Binary(Binary(a, ts[p + 1], b), ts[p + 3], c), p + 5, issues)
  {
    OperatorToken(ts[p + 1].kind);
    OperatorToken(ts[p + 3].kind);
    AtomOperand(ts, p, tier, issues);
    AtomOperand(ts, p + 2, tier, issues);
    AtomOperand(ts, p + 4, tier, issues);
    TwoRounds(ts, p, tier, issues, a, b, c);
  }

  /** Two rounds of the `or` loop over three operands. */
  lemma TwoOrRounds(ts: seq<Token>, p: nat, issues: seq<Issue>, a: Expr, b: Expr, c: Expr)
    requires ValidTokens(ts) && p + 5 < |ts|
    requires LogicOperand(ts, p, Or, issues) == Done(a, p + 1, issues)
    requires LogicOperand(ts, p + 2, Or, issues) == Done(b, p + 3, issues)
    requires LogicOperand(ts, p + 4, Or, issues) == Done(c, p + 5, issues)
    requires Check(ts, p + 1, Or) && Check(ts, p + 3, Or) && !Check(ts, p + 5, Or)
    ensures LogicLevel(ts, p, Or, issues) == Done(Logical(a, ts[p + 3], c), p + 5, issues)
  {
    LogicRestStops(ts, p + 5, Or, issues);
    LogicRestRound(ts, p + 3, Or, issues, c, p + 5, issues, None, p + 5, issues);
    LogicRestRound(ts, p + 1, Or, issues, b, p + 3, issues, Some((ts[p + 3], c)), p + 5, issues);
    LogicLevelOf(ts, p, Or, issues, a, p + 1, issues, Some((ts[p + 3], c)), p + 5, issues);
  }

  /**
   * An example on one-token operands: `a or b or c` is `a or c`, so the
   * middle operand is dropped. The general law is `LogicRestRound` with
   * `LogicLevelOf`: the node joins the first operand to the last round.
   */
  lemma OrChainKeepsFirstOperand(ts: seq<Token>, p: nat, issues: seq<Issue>, a: Expr, b: Expr, c: Expr)
    requires ValidTokens(ts) && p + 5 < |ts|
    requires Atom(ts, p, Full) == Some(a) && Atom(ts, p + 2, Full) == Some(b) && Atom(ts, p + 4, Full) == Some(c)
    requires ts[p + 1].kind == Or && ts[p + 3].kind == Or && StopsAt(ts[p + 5].kind, 1)
    ensures LogicLevel(ts, p, Or, issues) == Done(Logical(a, ts[p + 3], c), p + 5, issues)
  {
    AtomLogic(ts, p, And, issues);
    AtomLogic(ts, p + 2, And, issues);
    AtomLogic(ts, p + 4, And, issues);
    OrOperand(ts, p, issues);
    OrOperand(ts, p + 2, issues);
    OrOperand(ts, p + 4, issues);
    TwoOrRounds(ts, p, issues, a, b, c);
  }

  /**
   * An example on one-token operands: `f(x)(y)` is `f(y)`, keeping the second
   * closing parenthesis. The general law is `CallRestRound` with `CallOf`:
   * the callee is applied to the last argument list only.
   */
  lemma CallChainKeepsCallee(ts: seq<Token>, p: nat, issues: seq<Issue>, f: Expr, x: Expr, y: Expr)
    requires ValidTokens(ts) && p + 7 < |ts|
    requires Atom(ts, p, Full) == Some(f) && ts[p + 1].kind == LeftParen && Atom(ts, p + 2, Full) == Some(x) && ts[p + 3].kind == RightParen
    requires ts[p + 4].kind == LeftParen && Atom(ts, p + 5, Full) == Some(y) && ts[p + 6].kind == RightParen
    requires !Check(ts, p + 7, LeftParen)
    ensures CallExpr(ts, p, issues) == Done(Call(f, ts[p + 6], [y]), p + 7, issues)
  {
    ArgumentAtom(ts, p + 2, issues);
    ArgumentAtom(ts, p + 5, issues);
    CallRestStops(ts, p + 7, issues);
    CallRestRound(ts, p + 4, issues, (ts[p + 6], [y]), p + 7, issues, None, p + 7, issues);
    CallRestRound(ts, p + 1, issues, (ts[p + 3], [x]), p + 4, issues, Some((ts[p + 6], [y])), p + 7, issues);
    CallOf(ts, p, issues, f, Some((ts[p + 6], [y])), p + 7, issues);
  }

  /** Two assignments to variables, nested to the right. */
  lemma NestedAssignments(ts: seq<Token>, p: nat, issues: seq<Issue>, c: Expr)
    requires ValidTokens(ts) && p + 5 < |ts|
    requires ts[p].kind == Identifier && ts[p + 1].kind == Equal && ts[p + 2].kind == Identifier && ts[p + 3].kind == Equal
    requires LogicLevel(ts, p, Or, issues) == Done(Variable(ts[p]), p + 1, issues)
    requires LogicLevel(ts, p + 2, Or, issues) == Done(Variable(ts[p + 2]), p + 3, issues)
    requires ExpressionRule(ts, p + 4, Full, issues) == Done(c, p + 5, issues)
    ensures Assignment(ts, p, issues) == Done(Assign(ts[p], Assign(ts[p + 2], c)), p + 5, issues)
  {
    ExpressionIsAssignment(ts, p + 4, issues);
    AssignToVariable(ts, p + 3, ts[p + 2], issues, c, p + 5, issues);
    AssignmentStep(ts, p + 2, issues, Variable(ts[p + 2]));
    AssignToVariable(ts, p + 1, ts[p], issues, Assign(ts[p + 2], c), p + 5, issues);
    AssignmentStep(ts, p, issues, Variable(ts[p]));
  }

  /**
   * An example on one-token operands: `a = b = c` is `a = (b = c)`. The
   * general law is `AssignToVariable`: the value of an assignment is a whole
   * `assignment()`, so assignments nest to the right.
   */
  lemma AssignmentRightAssociative(ts: seq<Token>, p: nat, issues: seq<Issue>, c: Expr)
    requires ValidTokens(ts) && p + 5 < |ts|
    requires ts[p].kind == Identifier && ts[p + 1].kind == Equal && ts[p + 2].kind == Identifier && ts[p + 3].kind == Equal
    requires Atom(ts, p + 4, Full) == Some(c) && StopsAt(ts[p + 5].kind, 1) && ts[p + 5].kind != Equal
    ensures Assignment(ts, p, issues) == Done(Assign(ts[p], Assign(ts[p + 2], c)), p + 5, issues)
  {
    EqualStops();
    AtomLogic(ts, p, Or, issues);
    AtomLogic(ts, p + 2, Or, issues);
    AtomExpression(ts, p + 4, issues);
    NestedAssignments(ts, p, issues, c);
  }

  /** An assignment to a target that is not a variable. */
  lemma AssignmentToOther(ts: seq<Token>, p: nat, issues: seq<Issue>, a: Expr, c: Expr)
    requires ValidTokens(ts) && p + 3 < |ts| && ts[p + 1].kind == Equal && !a.Variable?
    requires LogicLevel(ts, p, Or, issues) == Done(a, p + 1, issues)
    requires ExpressionRule(ts, p + 2, Full, issues) == Done(c, p + 3, issues)
    ensures Assignment(ts, p, issues) == Done(a, p + 3, issues + [Issue(ts[p + 1], InvalidTarget)])
  {
    ExpressionIsAssignment(ts, p + 2, issues);
    AssignmentStep(ts, p, issues, a);
    AssignToOther(ts, p + 1, a, issues, c, p + 3, issues);
  }

  /**
   * `1 = c`: a left side that is not a variable is reported at the `=`
   * after the right side is parsed, and the left side is returned unchanged:
   * nothing is raised.
   */
  lemma InvalidTargetReported(ts: seq<Token>, p: nat, issues: seq<Issue>, a: Expr, c: Expr)
    requires ValidTokens(ts) && p + 3 < |ts|
    requires Atom(ts, p, Full) == Some(a) && !a.Variable? && ts[p + 1].kind == Equal
    requires Atom(ts, p + 2, Full) == Some(c) && StopsAt(ts[p + 3].kind, 1) && ts[p + 3].kind != Equal
    ensures Assignment(ts, p, issues) == Done(a, p + 3, issues + [Issue(ts[p + 1], InvalidTarget)])
  {
    EqualStops();
    AtomLogic(ts, p, Or, issues);
    AtomExpression(ts, p + 2, issues);
    AssignmentToOther(ts, p, issues, a, c);
  }

  /** In the snapshot, `!!true` is `!(!true)`: unary operators nest to the right. */
  lemma SnapshotUnaryNests(ts: seq<Token>, p: nat, issues: seq<Issue>)
    requires ValidTokens(ts) && p + 2 < |ts|
    requires ts[p].kind == Bang && ts[p + 1].kind == Bang && ts[p + 2].kind == True
    ensures UnaryExpr(ts, p, Snapshot, issues) == Done(Unary(ts[p], Unary(ts[p + 1], Literal(BoolLit(true)))), p + 3, issues)
  {
    assert UnaryExpr(ts, p + 2, Snapshot, issues) == Done(Literal(BoolLit(true)), p + 3, issues);
    assert UnaryExpr(ts, p + 1, Snapshot, issues) == Done(Unary(ts[p + 1], Literal(BoolLit(true))), p + 3, issues);
  }

  /** The snapshot has no variables: an identifier where an expression starts raises "Expected expression". */
  lemma {:induction false} SnapshotRejectsIdentifier(ts: seq<Token>, p: nat, tier: nat, issues: seq<Issue>)
    requires ValidTokens(ts) && p < |ts| && ts[p].kind == Identifier && 3 <= tier <= 6
    ensures BinaryLevel(ts, p, Snapshot, tier, issues) == Raised(p, issues + [Issue(ts[p], NoExpression)])
    decreases 6 - tier
  {
    if tier == 6 {
      assert UnaryExpr(ts, p, Snapshot, issues) == Raised(p, issues + [Issue(ts[p], NoExpression)]);
    } else {
      SnapshotRejectsIdentifier(ts, p, tier + 1, issues);
    }
  }

  /** ... so the snapshot's `parse` returns `nil` with that one report. */
  lemma SnapshotParseOfIdentifier(ts: seq<Token>)
    requires ValidTokens(ts) && ts[0].kind == Identifier
    ensures ParseExpression(ts) == (None, [Issue(ts[0], NoExpression)])
  {
    SnapshotRejectsIdentifier(ts, 0, 3, []);
    assert ExpressionRule(ts, 0, Snapshot, []) == Raised(0, [Issue(ts[0], NoExpression)]);
  }

  /**
   * The four shapes of a desugared `for (init; cond; incr) body`: the
   * increment becomes a statement after the body, and the initializer a
   * statement before the loop, each only when present.
   */
  lemma ForDesugaring(init: Stmt, cond: Expr, incr: Expr, body: Stmt)
    ensures DesugarFor(Some(init), cond, Some(incr), body)
         == Stmt.Block([Some(init), Some(Stmt.While(cond, Stmt.Block([Some(body), Some(Stmt.Expression(incr))])))])
    ensures DesugarFor(None, cond, Some(incr), body) == Stmt.While(cond, Stmt.Block([Some(body), Some(Stmt.Expression(incr))]))
    ensures DesugarFor(Some(init), cond, None, body) == Stmt.Block([Some(init), Some(Stmt.While(cond, body))])
    ensures DesugarFor(None, cond, None, body) == Stmt.While(cond, body)
  {
  }

  // ---------------------------------------------------------------------------
  // Error recovery

  /**
   * The loop of `syncronize` run for at most `fuel` rounds, `None` when the
   * fuel runs out. Each round returns after a `;` or in front of a statement
   * keyword; nothing in the loop body moves the position. Leaving the loop at
   * the end calls `advance`, which stays at the end.
   */
  function SyncLoop(ts: seq<Token>, q: nat, fuel: nat): (r: Option<nat>)
    requires ValidTokens(ts) && q < |ts|
    ensures r.Some? ==> r.value == q
  {
    if fuel == 0 then None
    else if AtEnd(ts, q) then Some(Advance(ts, q))
    else if Previous(ts, q).kind == Semicolon then Some(q)
    else if StartsStatement(ts[q].kind) then Some(q)
    else SyncLoop(ts, q, fuel - 1)
  }

  /**
   * `Synchronize` agrees with the loop run for any number of rounds: when it
   * returns, one round suffices to reach the same position; when it is
   * `None`, no number of rounds ever returns.
   */
  lemma {:induction false} SynchronizeMatchesLoop(ts: seq<Token>, pos: nat, fuel: nat)
    requires ValidTokens(ts) && pos < |ts|
    ensures Synchronize(ts, pos).Some? && fuel >= 1 ==> SyncLoop(ts, Advance(ts, pos), fuel) == Synchronize(ts, pos)
    ensures Synchronize(ts, pos).None? ==> SyncLoop(ts, Advance(ts, pos), fuel).None?
  {
    if fuel > 0 && Synchronize(ts, pos).None? {
      SynchronizeMatchesLoop(ts, pos, fuel - 1);
    }
  }

  /** A declaration that raised and then found a place to resume yields a `nil` entry there; otherwise parsing hangs. */
  lemma RecoveryYieldsNil(ts: seq<Token>, pos: nat, issues: seq<Issue>, q: nat)
    requires ValidTokens(ts) && pos < |ts| && q < |ts|
    requires !Check(ts, pos, Fun) && !Check(ts, pos, TokenType.Var)
    requires Statement(ts, pos, issues).Raised? && Statement(ts, pos, issues).pos == q
    ensures Synchronize(ts, q).Some? ==> Declaration(ts, pos, issues) == Done(None, Advance(ts, q), Statement(ts, pos, issues).issues)
    ensures Synchronize(ts, q).None? ==> Declaration(ts, pos, issues) == Hangs(Statement(ts, pos, issues).issues)
  {
  }
}
