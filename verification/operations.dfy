/**
 * What the operators do to values, shared by the statement interpreter and
 * the expression-only snapshot interpreter: both define `truthy?`/`is_truthy`,
 * `equal?`/`is_equal`, the operand checks and the same `case operator.type`.
 */
module Operations {
  import opened Tokens
  import opened Values

  const NumbersMessage := "Operands must be numbers."
  const NumbersOrStringsMessage := "Operands must be two numbers or two strings."
  const NumberMessage := "Operand must be a number."

  /** The result of applying an operator: a value, a raised `InterpreterError`, or a step outside the model. */
  datatype Applied = Gives(value: Value) | Raises(error: RuntimeError) | Undefined(halt: Halt)

  /** `truthy?`: `nil` and `false` are the only falsy values. */
  function Truthy(v: Value): (t: bool)
    ensures t <==> v != NilValue && v != BoolValue(false)
  {
    match v
    case NilValue => false
    case BoolValue(b) => b
    case _ => true
  }

  /**
   * `eql?`, one value kind at a time: values of different kinds are never
   * equal, `nil` equals only `nil`, numbers compare without any coercion.
   */
  function Equal(a: Value, b: Value): (r: bool)
    ensures r <==> a == b
  {
    match a
    case NilValue => b.NilValue?
    case BoolValue(x) => b.BoolValue? && b.b == x
    case NumValue(x) => b.NumValue? && b.n == x
    case StrValue(x) => b.StrValue? && b.s == x
    case FnValue(f) => b.FnValue? && b.f == f
  }

  /** The operators guarded by `check_number_operands`. */
  predicate NumberOperator(k: TokenType)
  {
    k == Greater || k == GreaterEqual || k == Less || k == LessEqual || k == Minus || k == Slash || k == Star
  }

  /** Two numbers, or two strings: what `check_number_or_string_operands` lets through. */
  predicate Addable(a: Value, b: Value)
  {
    (a.NumValue? && b.NumValue?) || (a.StrValue? && b.StrValue?)
  }

  /** One of the number operators applied to two numbers. */
  function Arithmetic(k: TokenType, x: real, y: real): (r: Applied)
    requires NumberOperator(k)
    ensures r.Undefined? <==> k == Slash && y == 0.0
    ensures r.Undefined? ==> r.halt == DivisionByZero
    ensures !r.Raises?
  {
    match k
    case Greater => Gives(BoolValue(x > y))
    case GreaterEqual => Gives(BoolValue(x >= y))
    case Less => Gives(BoolValue(x < y))
    case LessEqual => Gives(BoolValue(x <= y))
    case Minus => Gives(NumValue(x - y))
    case Star => Gives(NumValue(x * y))
    case Slash => if y == 0.0 then Undefined(DivisionByZero) else Gives(NumValue(x / y))
  }

  /** `+` after its operand check: numeric sum or string concatenation. */
  function Add(op: Token, a: Value, b: Value): (r: Applied)
    ensures r.Raises? <==> !Addable(a, b)
    ensures !r.Undefined?
  {
    if a.NumValue? && b.NumValue? then Gives(NumValue(a.n + b.n))
    else if a.StrValue? && b.StrValue? then Gives(StrValue(a.s + b.s))
    else Raises(RuntimeError(op, NumbersOrStringsMessage))
  }

  /**
   * The `case operator.type` of `visit_expr_binary`, after both operands
   * have been evaluated. An operator none of the branches names yields `nil`.
   */
  function ApplyBinary(op: Token, a: Value, b: Value): (r: Applied)
    ensures r.Raises? <==>
      (NumberOperator(op.kind) && !(a.NumValue? && b.NumValue?)) || (op.kind == Plus && !Addable(a, b))
    ensures r.Raises? ==> r.error.token == op
    ensures r.Undefined? <==> op.kind == Slash && a.NumValue? && b.NumValue? && b.n == 0.0
    ensures r.Undefined? ==> r.halt == DivisionByZero
  {
    if NumberOperator(op.kind) then
      if a.NumValue? && b.NumValue? then Arithmetic(op.kind, a.n, b.n)
      else Raises(RuntimeError(op, NumbersMessage))
    else if op.kind == Plus then Add(op, a, b)
    else if op.kind == BangEqual then Gives(BoolValue(!Equal(a, b)))
    else if op.kind == EqualEqual then Gives(BoolValue(Equal(a, b)))
    else Gives(NilValue)
  }

  /** The `case` of `visit_expr_unary`: `-` needs a number, `!` negates truthiness, anything else yields `nil`. */
  function ApplyUnary(op: Token, v: Value): (r: Applied)
    ensures r.Raises? <==> op.kind == Minus && !v.NumValue?
    ensures r.Raises? ==> r.error == RuntimeError(op, NumberMessage)
    ensures !r.Undefined?
  {
    if op.kind == Minus then
      if v.NumValue? then Gives(NumValue(-v.n)) else Raises(RuntimeError(op, NumberMessage))
    else if op.kind == Bang then Gives(BoolValue(!Truthy(v)))
    else Gives(NilValue)
  }

  // ---------------------------------------------------------------------------
  // Properties

  /** `0` and the empty string are truthy. */
  lemma ZeroAndEmptyAreTruthy()
    ensures Truthy(NumValue(0.0)) && Truthy(StrValue(""))
  {
  }

  /** `==` and `!=` never raise and always disagree. */
  lemma EqualityOperatorsAgree(eq: Token, ne: Token, a: Value, b: Value)
    requires eq.kind == EqualEqual && ne.kind == BangEqual
    ensures ApplyBinary(eq, a, b) == Gives(BoolValue(a == b))
    ensures ApplyBinary(ne, a, b) == Gives(BoolValue(a != b))
  {
  }

  /** `nil` is not `false`, and a number is never equal to a string. */
  lemma NoCoercion(eq: Token, x: real, s: string)
    requires eq.kind == EqualEqual
    ensures ApplyBinary(eq, NilValue, BoolValue(false)) == Gives(BoolValue(false))
    ensures ApplyBinary(eq, NumValue(x), StrValue(s)) == Gives(BoolValue(false))
  {
  }

  /** `+` on two strings concatenates them, in order. */
  lemma PlusConcatenates(op: Token, s: string, t: string)
    requires op.kind == Plus
    ensures ApplyBinary(op, StrValue(s), StrValue(t)) == Gives(StrValue(s + t))
  {
  }

  /** `!` is negated truthiness and never raises, whatever its operand. */
  lemma BangNegates(op: Token, v: Value)
    requires op.kind == Bang
    ensures ApplyUnary(op, v) == Gives(BoolValue(!Truthy(v)))
  {
  }

  /** A comparison of two numbers is the comparison of their values. */
  lemma ComparisonsCompare(op: Token, x: real, y: real)
    requires op.kind == Less || op.kind == Greater
    ensures ApplyBinary(op, NumValue(x), NumValue(y)) == Gives(BoolValue(if op.kind == Less then x < y else x > y))
  {
  }
}
