/**
 * Runtime values and the environment chain they live in.
 *
 * A Ruby `Environment` is a hash plus a link to its enclosing environment;
 * here the whole chain is one sequence of maps, innermost first, so `e[0]`
 * is the current scope and `e[1..]` its enclosing chain.
 */
module Values {
  import opened Tokens
  import opened Ast

  /**
   * What a Lox expression evaluates to: Ruby's nil, true/false, a Float
   * (exact here), a String, or a `Function` object.
   */
  datatype Value =
    | NilValue
    | BoolValue(b: bool)
    | NumValue(n: real)
    | StrValue(s: string)
    | FnValue(f: Callable)

  /**
   * A Ruby `Function`: the arity and the proc it calls. A built-in's proc
   * is Ruby code, known here only by a number; a declared function's proc
   * is its declaration together with the environment it closed over.
   */
  datatype Callable =
    | BuiltIn(arity: nat, proc: nat)
    | Declared(arity: nat, declaration: Stmt, closure: seq<map<string, Value>>)

  /** One environment and its enclosing chain, innermost first. */
  type Env = seq<map<string, Value>>

  /** Every Ruby environment has its own hash, so a chain is never empty. */
  predicate ValidEnv(e: Env)
  {
    |e| > 0
  }

  /** An `InterpreterError` or `EnvironmentError`: both carry a token and a message and are reported alike. */
  datatype RuntimeError = RuntimeError(token: Token, message: string)

  /** An outcome that raises a `RuntimeError` instead of producing a value. */
  datatype Result<T> = Ok(value: T) | Err(error: RuntimeError)

  /**
   * Where the Ruby program leaves the part of its behaviour that is
   * modelled: a node without a `visit_*` method (a NameError), a `nil`
   * statement (a NoMethodError), an environment link that is `nil`
   * (a NoMethodError), or a Float division by zero, which yields an IEEE
   * infinity or NaN that the exact numbers here do not have.
   */
  datatype Halt = MissingVisitor(name: string) | NilNode | NilEnclosing | DivisionByZero

  /** The value a `Literal` node holds: of the literal's own kind, and never a function. */
  function FromLiteral(l: LitValue): (v: Value)
    ensures !v.FnValue?
    ensures (v.NilValue? <==> l.NilLit?) && (v.BoolValue? <==> l.BoolLit?)
    ensures (v.NumValue? <==> l.NumLit?) && (v.StrValue? <==> l.StrLit?)
  {
    match l
    case NilLit => NilValue
    case BoolLit(b) => BoolValue(b)
    case NumLit(n) => NumValue(n)
    case StrLit(s) => StrValue(s)
  }

  /** Different literals hold different values: a literal's value determines it. */
  lemma FromLiteralInjective(a: LitValue, b: LitValue)
    ensures FromLiteral(a) == FromLiteral(b) ==> a == b
  {
  }
}
