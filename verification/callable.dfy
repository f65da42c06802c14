/**
 * The Ruby `Function` class: an arity and a proc. For a declared function
 * the proc binds the parameters in a fresh environment under the closure
 * and runs the body there; running the body is the interpreter's part and
 * lives with it, while the environment it runs in is built here.
 */
module Callables {
  import opened Tokens
  import opened Ast
  import opened Values
  import opened Environment

  /** `Function.new_built_in(arity, fn_proc)`: both kept as given. */
  function NewBuiltIn(arity: nat, proc: nat): (f: Callable)
    ensures f.BuiltIn? && f.arity == arity && f.proc == proc
  {
    BuiltIn(arity, proc)
  }

  /** `Function.new_fun(declaration, closure)`: the arity is the number of declared parameters. */
  function NewFun(declaration: Stmt, closure: Env): (f: Callable)
    requires declaration.Function?
    ensures f.Declared? && f.arity == |declaration.params|
    ensures f.declaration == declaration && f.closure == closure
  {
    Declared(|declaration.params|, declaration, closure)
  }

  /** The argument `zip` pairs with parameter `i`: `nil` once the arguments run out. */
  function ArgumentAt(args: seq<Value>, i: nat): (v: Value)
    ensures i < |args| ==> v == args[i]
    ensures i >= |args| ==> v == NilValue
  {
    if i < |args| then args[i] else NilValue
  }

  /** Parameter `j` is the last of the first `n` parameters to carry its name. */
  predicate LastOfName(params: seq<Token>, n: nat, j: nat)
    requires n <= |params|
  {
    j < n && forall k :: j < k < n ==> params[k].lexeme != params[j].lexeme
  }

  /**
   * The scope the first `n` rounds of the `zip(...).each` loop leave: each
   * round defines one parameter, so a repeated name ends with the value of
   * its last occurrence, and arguments beyond the parameters are never read.
   */
  function Bind(params: seq<Token>, args: seq<Value>, n: nat): (scope: map<string, Value>)
    requires n <= |params|
    ensures forall j :: 0 <= j < n ==> params[j].lexeme in scope
    ensures forall j :: 0 <= j < n && LastOfName(params, n, j) ==>
      scope[params[j].lexeme] == ArgumentAt(args, j)
  {
    if n == 0 then map[]
    else Bind(params, args, n - 1)[params[n - 1].lexeme := ArgumentAt(args, n - 1)]
  }

  /**
   * The environment a call of `f` runs in: a fresh scope holding the bound
   * parameters whose enclosing chain is the captured closure, whatever the
   * caller's environment is.
   */
  function CallEnv(f: Callable, args: seq<Value>): (e: Env)
    requires f.Declared? && f.declaration.Function?
    ensures ValidEnv(e) && e[1..] == f.closure
    ensures e[0] == Bind(f.declaration.params, args, |f.declaration.params|)
  {
    [Bind(f.declaration.params, args, |f.declaration.params|)] + f.closure
  }

  /** The parameters carry pairwise different names. */
  predicate DistinctNames(params: seq<Token>)
  {
    forall j, k :: 0 <= j < k < |params| ==> params[j].lexeme != params[k].lexeme
  }

  // ---------------------------------------------------------------------------
  // Properties

  /** With distinct names, parameter `j` is bound to argument `j`, or to `nil` when there is none. */
  lemma BindsPositionally(f: Callable, args: seq<Value>, j: nat)
    requires f.Declared? && f.declaration.Function? && DistinctNames(f.declaration.params)
    requires j < |f.declaration.params|
    ensures CallEnv(f, args)[0][f.declaration.params[j].lexeme] == ArgumentAt(args, j)
  {
    assert LastOfName(f.declaration.params, |f.declaration.params|, j);
  }

  /** The call scope binds the parameter names and nothing else. */
  lemma BindsOnlyParameters(f: Callable, args: seq<Value>, name: string)
    requires f.Declared? && f.declaration.Function?
    ensures name in CallEnv(f, args)[0] <==>
      exists j :: 0 <= j < |f.declaration.params| && f.declaration.params[j].lexeme == name
  {
    if name in CallEnv(f, args)[0] {
      BoundNamesAreParameters(f.declaration.params, args, |f.declaration.params|, name);
    }
  }

  lemma {:induction false} BoundNamesAreParameters(params: seq<Token>, args: seq<Value>, n: nat, name: string)
    requires n <= |params| && name in Bind(params, args, n)
    ensures exists j :: 0 <= j < n && params[j].lexeme == name
  {
    if params[n - 1].lexeme != name {
      BoundNamesAreParameters(params, args, n - 1, name);
    }
  }

  /** Arguments beyond the parameter list make no difference: `zip` stops at the parameters. */
  lemma {:induction false} ExtraArgumentsIgnored(params: seq<Token>, args: seq<Value>, extra: seq<Value>, n: nat)
    requires n <= |params| <= |args|
    ensures Bind(params, args + extra, n) == Bind(params, args, n)
  {
    if n > 0 {
      ExtraArgumentsIgnored(params, args, extra, n - 1);
      assert (args + extra)[n - 1] == args[n - 1];
    }
  }

  /** A repeated parameter name is bound to the argument of its last occurrence. */
  lemma LastDuplicateWins(params: seq<Token>, args: seq<Value>, j: nat, k: nat)
    requires j < k < |params| && params[j].lexeme == params[k].lexeme
    requires forall m :: k < m < |params| ==> params[m].lexeme != params[k].lexeme
    ensures Bind(params, args, |params|)[params[j].lexeme] == ArgumentAt(args, k)
  {
    assert LastOfName(params, |params|, k);
  }
}
