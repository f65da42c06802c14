/**
 * What the resolver promises: where declarations are tracked, when a read
 * or a `return` is an error, which distance a reference gets, and that the
 * first error ends the pass.
 */
module ResolverProperties {
  import opened Basics
  import opened Tokens
  import opened Ast
  import opened Resolver

  /** Outside every block nothing is tracked: `declare` and `define` leave the state as it is. */
  lemma GlobalsUntracked(st: State, name: Token)
    requires st.scopes == []
    ensures Declare(st, name) == Resolved(st)
    ensures Define(st, name) == st
  {
  }

  /** A read is an error exactly when the innermost scope maps the name to `false`; outer scopes are not consulted. */
  lemma ReadInOwnInitializer(ref: Token, st: State)
    ensures ResolveExpr(Variable(ref), st).Failed? <==> DeclaredInnermost(st.scopes, ref.lexeme)
    ensures ResolveExpr(Variable(ref), st).Failed? ==>
      ResolveExpr(Variable(ref), st).error == ScopeError(ref, OwnInitializerMessage)
  {
  }

  /** Inside a block, `var a = a;` is rejected at the read, since `a` is only declared while its initializer is resolved. */
  lemma OwnInitializerRejected(name: Token, ref: Token, st: State)
    requires |st.scopes| > 0 && !DefinedInnermost(st.scopes, name.lexeme) && ref.lexeme == name.lexeme
    ensures ResolveStmt(Stmt.Var(name, Some(Variable(ref))), st) == Failed(ScopeError(ref, OwnInitializerMessage))
  {
    var m := Mark(st, name.lexeme, false);
    assert Declare(st, name) == Resolved(m);
    assert DeclaredInnermost(m.scopes, ref.lexeme);
    assert ResolveExpr(Variable(ref), m) == Failed(ScopeError(ref, OwnInitializerMessage));
  }

  /** At the top level the same statement is accepted: globals are never declared. */
  lemma GlobalSelfInitializerAccepted(name: Token, ref: Token)
    ensures ResolveStmt(Stmt.Var(name, Some(Variable(ref))), Initial).Resolved?
  {
  }

  /** A name that is only declared in a scope is passed over: the search goes on outward. */
  lemma DeclaredEntrySkipped(outer: seq<Scope>, inner: Scope, name: string)
    requires name in inner && !inner[name]
    ensures var d := Distance(outer, name);
      Distance(outer + [inner], name) == if d.None? then None else Some(d.value + 1)
  {
    assert (outer + [inner])[..|outer|] == outer;
  }

  /** A `return` outside any function is an error, also inside blocks. */
  lemma TopLevelReturnRejected(keyword: Token, value: Option<Expr>, st: State)
    requires st.current == NoFunction
    ensures ResolveStmt(Stmt.Return(keyword, value), st) == Failed(ScopeError(keyword, TopLevelReturnMessage))
    ensures ResolveStmt(Block([Some(Stmt.Return(keyword, value))]), st) ==
      Failed(ScopeError(keyword, TopLevelReturnMessage))
  {
    var inner := [Some(Stmt.Return(keyword, value))];
    assert ResolveList(inner, 0, BeginScope(st)) == Failed(ScopeError(keyword, TopLevelReturnMessage));
  }

  /**
   * `fun f(p) { p; }` at the top level: the parameter scope and the body's
   * block scope make the reference to `p` one scope away, and nothing else
   * is recorded, since `f` itself is global.
   */
  lemma ParameterAtDistanceOne(f: Token, p: Token, x: Token)
    requires x.lexeme == p.lexeme
    ensures
      var body := Block([Some(Expression(Variable(x)))]);
      Resolve([Some(Function(f, [p], body))]) == Resolved(State([], NoFunction, [Resolution(x, 1)]))
  {
    var body := Block([Some(Expression(Variable(x)))]);
    var fn := Function(f, [p], body);
    var inFn := State([], InFunction, []);
    var withParam := State([map[p.lexeme := true]], InFunction, []);
    var declared := State([map[p.lexeme := false]], InFunction, []);
    assert Declare(BeginScope(inFn), p) == Resolved(declared);
    assert declared.scopes[0][p.lexeme := true] == withParam.scopes[0];
    assert Define(declared, p) == withParam;
    assert ResolveParams([p], 0, BeginScope(inFn)) == Resolved(withParam);
    BodySeesParameter(p, x);
    var done := State([], NoFunction, [Resolution(x, 1)]);
    assert ResolveFunction(fn, Initial) == Resolved(done);
    assert Declare(Initial, f) == Resolved(Initial) && Define(Initial, f) == Initial;
    assert ResolveStmt(fn, Initial) == Resolved(done);
    assert ResolveList([Some(fn)], 1, done) == Resolved(done);
  }

  /** The body block of `fun f(p) { p; }`, resolved in the parameter scope, finds `p` one scope out. */
  lemma BodySeesParameter(p: Token, x: Token)
    requires x.lexeme == p.lexeme
    ensures
      var withParam := State([map[p.lexeme := true]], InFunction, []);
      ResolveStmt(Block([Some(Expression(Variable(x)))]), withParam)
        == Resolved(withParam.(resolutions := [Resolution(x, 1)]))
  {
    var withParam := State([map[p.lexeme := true]], InFunction, []);
    var blockScopes := [map[p.lexeme := true], map[]];
    assert Distance(blockScopes, x.lexeme) == Some(1);
    var found := State(blockScopes, InFunction, [Resolution(x, 1)]);
    assert BeginScope(withParam).scopes == blockScopes;
    assert !DeclaredInnermost(blockScopes, x.lexeme);
    assert ResolveLocal(BeginScope(withParam), x) == found;
    assert ResolveStmt(Expression(Variable(x)), BeginScope(withParam)) == Resolved(found);
    assert ResolveList([Some(Expression(Variable(x)))], 0, BeginScope(withParam)) == Resolved(found);
  }

  /** The first error ends the pass: statements after it are never visited. */
  lemma {:induction false} FirstErrorEndsPass(ss: seq<Option<Stmt>>, rest: seq<Option<Stmt>>, i: nat, st: State)
    requires i <= |ss| && !ResolveList(ss, i, st).Resolved?
    ensures ResolveList(ss + rest, i, st) == ResolveList(ss, i, st)
    decreases |ss| - i
  {
    assert (ss + rest)[i] == ss[i];
    if ss[i].Some? {
      var first := ResolveStmt(ss[i].value, st);
      if first.Resolved? {
        FirstErrorEndsPass(ss, rest, i + 1, first.state);
      }
    }
  }

  /** In one block scope a second `var` of the same name is rejected at the second declaration. */
  lemma RedeclarationRejected(a: Token, b: Token, st: State)
    requires a.lexeme == b.lexeme
    ensures ResolveStmt(Block([Some(Stmt.Var(a, None)), Some(Stmt.Var(b, None))]), st) ==
      Failed(ScopeError(b, AlreadyDeclaredMessage))
  {
    var ss := [Some(Stmt.Var(a, None)), Some(Stmt.Var(b, None))];
    var pushed := BeginScope(st);
    var afterA := Define(Declare(pushed, a).state, a);
    assert ResolveStmt(ss[0].value, pushed) == Resolved(afterA);
    assert ResolveList(ss, 1, afterA) == Failed(ScopeError(b, AlreadyDeclaredMessage));
  }

  /**
   * The `declare` of line 141 as written and as intended differ exactly on
   * a redeclaration: one aborts with NoMethodError, the other raises the
   * `ResolverError` with its message; otherwise they agree.
   */
  lemma DeclareAsWrittenDiffers(st: State, name: Token)
    ensures DefinedInnermost(st.scopes, name.lexeme) ==>
      DeclareAsWritten(st, name) == Aborted(NoSuchMethod("ResolverError")) &&
      Declare(st, name) == Failed(ScopeError(name, AlreadyDeclaredMessage))
    ensures !DefinedInnermost(st.scopes, name.lexeme) ==> DeclareAsWritten(st, name) == Declare(st, name)
  {
  }
}
