# rlox front half, modelled in Dafny

A model of the Ruby implementation of the Lox interpreter (`rlox`): the
scanner, the token and syntax-tree records, the recursive-descent parser,
the static resolver, the environment chain, function objects and the
tree-walking interpreter, together with the earlier expression-only
snapshot of the same pipeline (`rlox/lox`).

Every stage is a pure function over immutable data:

- the scanner maps source text to tokens, the slice each token was cut
  from, and the lexical errors it reported;
- the parser maps a token sequence and a position to an `Outcome`: a node
  with the position after it, an error raised at a position, or `Hangs`
  when error recovery enters its non-advancing loop. Reported errors are
  threaded through as a list;
- the resolver threads a `State` (scope stack, function type, distances
  found) and returns the distances instead of handing them to the
  interpreter;
- the environment is a sequence of maps, innermost first;
- the interpreter returns a `Completion`: the environment left behind and
  the events produced (`print` output and reported runtime errors), or a
  crash where the Ruby program raises an exception nothing rescues.

Files: `basics.dfy` (Option, counting), `token.dfy`, `ast.dfy`,
`scanner.dfy` (with `ScannerProperties`), `parser.dfy`,
`parser_properties.dfy`, `values.dfy`, `environment.dfy`, `callable.dfy`,
`operations.dfy` (operators shared by both interpreters), `interpreter.dfy`,
`interpreter_properties.dfy`, `snapshot_interpreter.dfy`, `resolver.dfy`,
`resolver_properties.dfy`.

The node classes of `rlox/lib/expr.rb` and `rlox/lib/stmt.rb` are the
datatypes `Ast.Expr` and `Ast.Stmt`, one constructor per class with the
same fields.

The snapshot scanner `rlox/lox/scanner.rb` is the same code as
`rlox/lib/scanner.rb` with the source passed to the constructor, so
`Scanner.Scan` models both. The snapshot parser shares the expression
rules with the full parser through a `Dialect` argument. Its expressions
are rooted at equality and have no variables, calls or assignment.

## Model

| member | source | states |
|---|---|---|
| Tokens.NewToken | rlox/lib/token.rb:7-16 | the constructor keeps kind, lexeme, literal and line exactly as given, and `type?(k)` holds for exactly the constructed kind |
| Tokens.ToString | rlox/lib/token.rb:18-20 | `to_s` starts with the kind name and a space, is as long as kind name, lexeme and literal text plus two spaces, and ends in a space when the literal is `nil` |
| Tokens.ToStringKindPrefix | rlox/lib/token.rb:18-20 | the text of `to_s` before its first space is the kind's name, whatever the lexeme |
| Scanner.SkipWhile | rlox/lib/scanner.rb:107 | `advance() while f(peek())` stops at the first character failing `f`, or at the end, and passes only characters satisfying `f` |
| Scanner.KeywordKind | rlox/lib/scanner.rb:109-114 | a word has a keyword kind exactly when it is one of the 16 listed words |
| Scanner.KeywordKindUpcases | rlox/lib/scanner.rb:109-114 | a word gets a keyword kind exactly when it is one of the 16 keywords, and that kind's name is the word upcased |
| Scanner.KeywordKindSpelled | rlox/lib/scanner.rb:109-114 | the keyword kind of a word is spelled back as that same word, so different keywords get different kinds |
| Scanner.StringLoop | rlox/lib/scanner.rb:79-82 | the string loop stops at the first `"` or the end, and adds one line per newline it passes |
| Scanner.ScanString | rlox/lib/scanner.rb:78-92 | a terminated string is one STRING token whose literal is the text between the quotes; at the end of input it reports "Unterminated string." on the current line and emits nothing |
| Scanner.NumberShape | rlox/lib/scanner.rb:94-101 | the slice a number consumes is digits, optionally `.` and more digits, without a line break |
| Scanner.ScanNumber | rlox/lib/scanner.rb:94-104 | a NUMBER token whose lexeme is that slice and whose literal is its decimal value; the line does not change |
| Scanner.DecimalValue | rlox/lib/scanner.rb:103 | `to_f` of a lexeme without a dot is the whole number its digits spell (exact, not rounded) |
| Scanner.DecimalValueScaled | rlox/lib/scanner.rb:103 | `to_f` of `a.b` is the whole number the digits of `a` and `b` spell together, divided by ten for each digit of `b` (exact, not rounded) |
| Scanner.ScanIdentifier | rlox/lib/scanner.rb:106-117 | a word is a letter or `_` followed by the longest alphanumeric run; it is a keyword kind when it is a keyword, else IDENTIFIER |
| Scanner.ScanOperator | rlox/lib/scanner.rb:31-45 | one- and two-character operators consume exactly their characters; only `//` emits no token |
| Scanner.ScanToken | rlox/lib/scanner.rb:28-53 | one step consumes at least one character, and the line grows by exactly the newlines consumed; a token is the consumed slice on the current line and is never EOF; an error carries the current line |
| Scanner.ScanFrom | rlox/lib/scanner.rb:11-19 | the scan loop keeps every earlier error, in order, and ends in a well-formed scan |
| Scanner.Scan | rlox/lib/scanner.rb:8-20 | the last token is the only EOF, with an empty lexeme on the last line; every lexeme is the source slice of its span; spans are in order and never overlap; each token's line is one plus the newlines before its end; errors lie on existing lines |
| ScannerProperties.TwoCharOperators | rlox/lib/scanner.rb:41-44 | `!`, `=`, `<` and `>` take the two-character kind exactly when `=` follows, and then consume it |
| ScannerProperties.CommentsAndBlanks | rlox/lib/scanner.rb:45-47 | `//` skips to the next newline, excluding it, and emits nothing; blanks emit nothing; `\n` adds one line |
| ScannerProperties.UnexpectedCharacter | rlox/lib/scanner.rb:51 | any other character is reported as "Unexpected character c." on the current line; no token is emitted and scanning goes on after it |
| ScannerProperties.NumberMaximalMunch | rlox/lib/scanner.rb:94-101 | no longer slice from the same start is a number: a `.` not followed by a digit is left for the next token |
| ScannerProperties.NumberNotExtended | rlox/lib/scanner.rb:98-101 | the end of the number loops is the longest number text from the start |
| ScannerProperties.StringLiteralContents | rlox/lib/scanner.rb:89-91 | a STRING token's lexeme is its literal wrapped in quotes, and the literal holds no quote |
| ScannerProperties.UnterminatedString | rlox/lib/scanner.rb:84-87 | a quote with no closing quote consumes the rest of the input and reports the error on the line the input ends on |
| ScannerProperties.LinesOrdered | rlox/lib/scanner.rb:153-158 | token lines start at 1 and never decrease along a well-formed scan |
| ScannerProperties.LinesNonDecreasing | rlox/lox/scanner.rb:4-22 | the same holds for the tokens of `scan_tokens`, which starts on line 1 in both scanners |
| Parser.AtEnd | rlox/lib/parser.rb:315-317 | the end is an EOF token, as the last token of a well-formed stream is |
| Parser.Check | rlox/lib/parser.rb:305-308 | `check?` never holds at the end, so `check?(:EOF)` is always false |
| Parser.Previous | rlox/lib/parser.rb:323-325 | the token before the current one; at position 0 Ruby's index -1 wraps to the last token, which is the EOF |
| Parser.Advance | rlox/lib/parser.rb:310-313 | `advance` moves one token forward, except at EOF, where it stays; the token it passed becomes `previous` |
| Parser.Consume | rlox/lib/parser.rb:327-331 | `consume` succeeds exactly when `check?` does and returns that token; otherwise the error is reported at the current token and raised there |
| Parser.ExpressionRule | rlox/lib/parser.rb:202-204 | an expression consumes tokens and is well shaped; in the snapshot it reports an error only when it raises |
| Parser.Assignment | rlox/lib/parser.rb:161-176 | assignment never hangs; a parsed expression consumed tokens and respects precedence |
| Parser.AssignValue | rlox/lib/parser.rb:164-175 | after `=`, a variable target becomes `Assign` of its name; any other target is returned unchanged, with "Invalid assignment target." reported at the `=` |
| Parser.LogicLevel | rlox/lib/parser.rb:178-200 | `logical_or` and `logical_and` give an expression binding at least as tightly as their operator |
| Parser.Joined | rlox/lib/parser.rb:181-187 | the node the loop leaves joins the first operand to the last round's operator and right operand |
| Parser.LogicRest | rlox/lib/parser.rb:181-185 | the loop ends at once, unchanged, exactly when the operator does not follow; otherwise it yields an operator token of that kind and a right operand binding more tightly (which round it comes from is `LogicRestRound`) |
| ParserProperties.LogicRestStops | rlox/lib/parser.rb:181 | without the operator the loop runs no round |
| ParserProperties.LogicRestRound | rlox/lib/parser.rb:181-185 | one round: when no later round runs, the loop yields this round's operator and right operand, and otherwise whatever the later rounds yield, so the last round wins |
| Parser.BinaryLevel | rlox/lib/parser.rb:217-231 | equality, comparison, term and factor give expressions binding at least as tightly as their level |
| Parser.BinaryRest | rlox/lib/parser.rb:286-294 | the result binds at least as tightly as the level; with no operator the left operand is returned as it is (how each round nests is `BinaryRestRound`) |
| ParserProperties.BinaryRestStops | rlox/lib/parser.rb:288 | without an operator of the level the left operand is returned unchanged |
| ParserProperties.BinaryRestRound | rlox/lib/parser.rb:288-291 | one round: the operator makes the expression so far the left operand of a new `Binary` node, and the loop goes on from there |
| Parser.UnaryExpr | rlox/lib/parser.rb:233-240 | `unary` gives a unary expression or an atom |
| Parser.CallExpr | rlox/lib/parser.rb:242-250 | `call` gives an atom or a call whose callee is an atom |
| Parser.Applied | rlox/lib/parser.rb:245-249 | the node the call loop leaves applies the primary itself to the last argument list |
| Parser.CallRest | rlox/lib/parser.rb:245-247 | the call loop ends at once exactly when no `(` follows; otherwise it yields a `)` token and argument expressions (which round they come from is `CallRestRound`) |
| ParserProperties.CallRestStops | rlox/lib/parser.rb:245 | without `(` the loop runs no round |
| ParserProperties.CallRestRound | rlox/lib/parser.rb:245-247 | one round: when no later round runs, the loop yields this round's `)` and arguments, and otherwise whatever the later rounds yield, so the last round wins |
| Parser.FinishCall | rlox/lib/parser.rb:252-268 | the arguments are followed by `)`, and the node keeps that closing parenthesis |
| Parser.ArgumentList | rlox/lib/parser.rb:253-263 | no arguments exactly when `)` follows at once; at least one report for each argument beyond 255 (the arguments may add reports of their own) |
| Parser.ArgumentsRest | rlox/lib/parser.rb:257-262 | each comma adds an argument; at least one report for each argument beyond 255, and the loop goes on rather than raising |
| Parser.Primary | rlox/lib/parser.rb:270-284 | a literal, variable or group; with no primary at all, "Expected expression" is reported at the current token and raised |
| Parser.Atom | rlox/lib/parser.rb:271-275 | the one-token primaries are exactly `false`, `true`, `nil`, number, string and (outside the snapshot) identifier; an identifier becomes a `Variable` |
| Parser.Group | rlox/lib/parser.rb:277-281 | a parenthesised expression becomes a `Grouping` |
| Parser.Synchronize | rlox/lib/parser.rb:338-350 | `syncronize` returns one `advance` further on, or loops forever, which it can only do when that position is not EOF |
| Parser.Declaration | rlox/lib/parser.rb:206-215 | a declaration never raises; it consumes a token unless at EOF; a `nil` entry comes with a reported error; with no new error there is no `nil` at any depth |
| Parser.Recover | rlox/lib/parser.rb:211-213 | a raised statement error is rescued: the entry is `nil`, or parsing hangs in the recovery loop |
| Parser.Statement | rlox/lib/parser.rb:26-35 | a statement consumes tokens, and without new reports it holds no `nil` entry |
| Parser.DesugarFor | rlox/lib/parser.rb:62-78 | the desugared `for` is a bare `While` exactly when there is no initializer; its loop carries the given condition |
| Parser.ForStatement | rlox/lib/parser.rb:37-79 | `for` is a bare `While` exactly when its first clause is empty |
| Parser.ForInitializer | rlox/lib/parser.rb:40-46 | the first clause is empty exactly at `;`, else it is a `var` declaration or an expression statement |
| Parser.ForCondition | rlox/lib/parser.rb:48-54 | an empty condition becomes the literal `true` |
| Parser.ForIncrement | rlox/lib/parser.rb:56-58 | the loop keeps the condition it was given, with or without an increment |
| Parser.ForBody | rlox/lib/parser.rb:60-78 | the loop built around the body keeps the condition and is wrapped exactly when there is an initializer |
| Parser.IfStatement | rlox/lib/parser.rb:81-90 | `if` gives an `If` node |
| Parser.Condition | rlox/lib/parser.rb:82-84 | a condition is enclosed in parentheses; a missing `(` is reported at the current token |
| Parser.IfBranches | rlox/lib/parser.rb:86-89 | the `If` node keeps the parsed condition |
| Parser.PrintStatement | rlox/lib/parser.rb:92-96 | a `Print` node ended by `;` |
| Parser.ReturnStatement | rlox/lib/parser.rb:98-104 | a `Return` whose keyword is the `return` token; the value is absent exactly when `;` follows at once |
| Parser.VarDeclaration | rlox/lib/parser.rb:106-112 | a `Var` named by the identifier token; the initializer is present exactly when `=` follows the name |
| Parser.VarRest | rlox/lib/parser.rb:108-111 | the initializer is present exactly when `=` follows |
| Parser.WhileStatement | rlox/lib/parser.rb:114-121 | `while` gives a `While` node |
| Parser.ExpressionStatement | rlox/lib/parser.rb:123-127 | an `Expression` node ended by `;` |
| Parser.FunctionDecl | rlox/lib/parser.rb:129-147 | a `Function` named by the token after `fun`; its parameters are identifiers and its body a block |
| Parser.FunctionRest | rlox/lib/parser.rb:132-146 | the parameters are empty exactly when `)` follows at once |
| Parser.ParameterList | rlox/lib/parser.rb:133-142 | the parameter list is closed by `)` and is empty exactly when `)` follows at once |
| Parser.CloseParameters | rlox/lib/parser.rb:142 | the `)` after the parameters is consumed when present, else raised |
| Parser.FunctionBody | rlox/lib/parser.rb:144-146 | the function keeps its name and parameters, and its body is a block |
| Parser.Parameters | rlox/lib/parser.rb:134-140 | a non-empty identifier list with exactly one cap report per parameter beyond 255 |
| Parser.ParametersRest | rlox/lib/parser.rb:135-140 | each comma adds a parameter; with 255 already collected the next one is reported, not raised |
| Parser.BlockRule | rlox/lib/parser.rb:149-159 | a block ends with `}` |
| Parser.BlockRest | rlox/lib/parser.rb:152-158 | the block loop keeps the entries so far as a prefix, and is hole-free when nothing was reported |
| Parser.CloseBlock | rlox/lib/parser.rb:156-158 | the block holds exactly the collected entries when `}` follows; otherwise the error is raised |
| Parser.Parse | rlox/lib/parser.rb:12-22 | there are at most as many `nil` entries as reported errors; without reports there is no `nil` at any depth |
| Parser.ProgramFrom | rlox/lib/parser.rb:17-19 | the top-level loop keeps earlier entries and adds at most one `nil` per new report |
| Parser.ParseExpression | rlox/lox/parser.rb:12-18 | the snapshot's `parse` gives a snapshot expression with no report, or `nil` with exactly one |
| ParserProperties.LeftAssociative | rlox/lib/parser.rb:286-294 | example on one-token operands: at every binary level, `a - b - c` is `(a - b) - c` |
| ParserProperties.OrChainKeepsFirstOperand | rlox/lib/parser.rb:178-188 | example on one-token operands: `a or b or c` is `Logical(a, or, c)`: the middle operand is lost |
| ParserProperties.CallChainKeepsCallee | rlox/lib/parser.rb:242-250 | example on one-token operands: `f(x)(y)` is a call of `f` on `[y]` that keeps the second `)`: the first call is lost |
| ParserProperties.AssignmentRightAssociative | rlox/lib/parser.rb:161-170 | example on one-token operands: `a = b = c` is `a = (b = c)` |
| ParserProperties.ArgumentsRestCapExact | rlox/lib/parser.rb:257-262 | when the arguments report nothing of their own, the comma loop appends exactly one "Can't have more than 255 arguments" for each argument beyond the 255th, each at the token after a comma |
| ParserProperties.ArgumentListCapExact | rlox/lib/parser.rb:253-263 | the same for a whole argument list: no report up to 255 arguments, one per argument beyond |
| ParserProperties.InvalidTargetReported | rlox/lib/parser.rb:164-175 | `1 = c` reports "Invalid assignment target." at the `=`, raises nothing and yields the left side |
| ParserProperties.SnapshotUnaryNests | rlox/lox/parser.rb:40-47 | `!!true` is `Unary(!, Unary(!, true))` |
| ParserProperties.SnapshotRejectsIdentifier | rlox/lox/parser.rb:49-61 | in the snapshot, an identifier where an expression starts raises "Expected expression" at it |
| ParserProperties.SnapshotParseOfIdentifier | rlox/lox/parser.rb:12-18 | so the snapshot's `parse` of such input is `nil` with that one report |
| ParserProperties.ForDesugaring | rlox/lib/parser.rb:62-78 | the four shapes of a desugared `for`, one per combination of initializer and increment being present |
| ParserProperties.SynchronizeMatchesLoop | rlox/lib/parser.rb:338-350 | `Synchronize` agrees with the Ruby loop run for any number of rounds: it returns after one round, or no number of rounds ever returns |
| ParserProperties.RecoveryYieldsNil | rlox/lib/parser.rb:206-215 | a raised statement yields a `nil` entry one token past the error, or a hang, as `syncronize` decides |
| Environment.NewEnv | rlox/lib/environment.rb:16-19 | a new environment is an empty scope in front of the given chain |
| Environment.Define | rlox/lib/environment.rb:21-24 | `define` writes the current scope only, replacing any earlier value |
| Environment.Get | rlox/lib/environment.rb:38-43 | `get` succeeds exactly when some scope holds the name and reads the innermost such scope; otherwise it raises "Undefined variable name." |
| Environment.Assign | rlox/lib/environment.rb:49-54 | `assign` succeeds exactly when some scope holds the name, and changes only the innermost such scope; otherwise it raises the same error |
| Environment.Ancestor | rlox/lib/environment.rb:26-36 | distance 0 is the own scope; otherwise the walk stops at the outermost scope; only an environment with no enclosing one fails |
| Environment.AncestorIsLoop | rlox/lib/environment.rb:30-34 | `Ancestor` is what the `(1...distance)` walk computes, step by step |
| Environment.GetAt | rlox/lib/environment.rb:45-47 | `get_at` reads only the ancestor scope, giving `nil` when that scope lacks the name |
| Environment.AssignAt | rlox/lib/environment.rb:56-58 | `assign_at` writes only the ancestor scope, creating the entry if needed |
| Environment.GetAfterDefine | rlox/lib/environment.rb:21-24 | a defined name reads back its value |
| Environment.DefineKeepsOthers | rlox/lib/environment.rb:21-24 | defining one name leaves every other name's `get` as it was |
| Environment.GetAfterAssign | rlox/lib/environment.rb:49-54 | a successful assignment reads back |
| Environment.AssignKeepsNames | rlox/lib/environment.rb:49-54 | assignment never adds or removes a name in any scope |
| Environment.GetThroughNewScope | rlox/lib/environment.rb:38-43 | a fresh scope in front changes no `get` |
| Environment.GetAtAfterAssignAt | rlox/lib/environment.rb:45-58 | `assign_at` then `get_at` at the same distance reads the value back |
| Environment.GetAtDoesNotWalk | rlox/lib/environment.rb:45-47 | `get_at(0)` of a name the own scope lacks is `nil`, even when an enclosing scope holds it |
| Callables.NewBuiltIn | rlox/lib/callable.rb:7-9 | a built-in keeps its arity and procedure |
| Callables.NewFun | rlox/lib/callable.rb:11-13 | a declared function's arity is its number of parameters; it keeps its declaration and closure |
| Callables.ArgumentAt | rlox/lib/callable.rb:30-32 | `zip` pairs parameter i with argument i, or `nil` when the arguments run out |
| Callables.Bind | rlox/lib/callable.rb:30-32 | every parameter is bound, and a repeated name holds the argument of its last occurrence |
| Callables.CallEnv | rlox/lib/callable.rb:26-32 | the call scope's enclosing chain is the closure, not the caller's environment |
| Callables.BindsPositionally | rlox/lib/callable.rb:30-32 | with distinct names, parameter j holds argument j, or `nil` |
| Callables.BindsOnlyParameters | rlox/lib/callable.rb:30-32 | the call scope holds exactly the parameter names |
| Callables.ExtraArgumentsIgnored | rlox/lib/callable.rb:30 | arguments beyond the parameters change nothing |
| Callables.LastDuplicateWins | rlox/lib/callable.rb:30-32 | a repeated parameter name ends with the argument of its last occurrence |
| Values.FromLiteral | rlox/lib/interpreter.rb:113-115 | a literal evaluates to the value it holds: of its own kind, never a function |
| Values.FromLiteralInjective | rlox/lib/interpreter.rb:113-115 | different literals evaluate to different values |
| Operations.Truthy | rlox/lib/interpreter.rb:164-168 | only `nil` and `false` are falsy |
| Operations.Equal | rlox/lib/interpreter.rb:170-172 | `eql?` holds exactly for equal values of the same kind |
| Operations.Arithmetic | rlox/lib/interpreter.rb:80-100 | number operators on two numbers never raise; only `/` by zero leaves the model |
| Operations.Add | rlox/lib/interpreter.rb:101-103 | `+` raises exactly when the operands are not two numbers or two strings |
| Operations.ApplyBinary | rlox/lib/interpreter.rb:79-106 | raises exactly on a number operator without two numbers, or `+` without two numbers or two strings, always at the operator token; leaves the model exactly on `/` by zero |
| Operations.ApplyUnary | rlox/lib/interpreter.rb:132-137 | `-` raises "Operand must be a number." exactly on a non-number; nothing else raises |
| Operations.ZeroAndEmptyAreTruthy | rlox/lib/interpreter.rb:164-168 | `0` and `""` are truthy |
| Operations.EqualityOperatorsAgree | rlox/lib/interpreter.rb:104-105 | `==` is value equality and `!=` its negation; neither raises |
| Operations.NoCoercion | rlox/lib/interpreter.rb:170-172 | `nil == false` and a number equal to a string are both false |
| Operations.PlusConcatenates | rlox/lib/interpreter.rb:101-103 | `+` on two strings concatenates them in order |
| Operations.BangNegates | rlox/lib/interpreter.rb:136 | `!` is negated truthiness for any operand |
| Operations.ComparisonsCompare | rlox/lib/interpreter.rb:86-91 | `<` and `>` on numbers compare their values |
| Interpreter.Evaluate | rlox/lib/interpreter.rb:68-142 | evaluating an expression never adds or removes a name in any scope |
| Interpreter.AssignResult | rlox/lib/interpreter.rb:68-72 | an assignment yields the value and succeeds exactly when some scope holds the name; the name then reads back the value |
| Interpreter.Execute | rlox/lib/interpreter.rb:32-66 | a statement adds names to the current scope only; a block never raises and leaves every scope's names as they were |
| Interpreter.InterpretFrom | rlox/lib/interpreter.rb:18-26 | `interpret` never raises a runtime error, and a completed list only adds names to the current scope |
| Interpreter.Interpret | rlox/lib/interpreter.rb:18-26 | the same for a whole list |
| Interpreter.Invoke | rlox/lib/callable.rb:26-37 | the body runs under the closure in a scope that keeps at least the bound parameters |
| InterpreterProperties.ShortCircuit | rlox/lib/interpreter.rb:117-125 | `or` with a truthy left and `and` with a falsy left return it; the right operand makes no difference |
| InterpreterProperties.LogicalOtherwiseRight | rlox/lib/interpreter.rb:117-127 | otherwise the result is the right operand, evaluated after the left |
| InterpreterProperties.IfRunsChosenBranch | rlox/lib/interpreter.rb:58-66 | `if` runs only the branch its condition picks |
| InterpreterProperties.VarWithoutInitializerBindsNil | rlox/lib/interpreter.rb:42-52 | `var x;` binds `nil` in the current scope and leaves the enclosing scopes alone |
| InterpreterProperties.AssignmentYieldsValue | rlox/lib/interpreter.rb:68-72 | an assignment evaluates to the assigned value, which the name then reads back |
| InterpreterProperties.AssignmentToUndefined | rlox/lib/interpreter.rb:68-72 | assigning an undefined name raises "Undefined variable", after the value is evaluated |
| InterpreterProperties.OperandsBeforeCheck | rlox/lib/interpreter.rb:74-78 | both operands are evaluated before the type check, so an error on the right wins |
| InterpreterProperties.NumberOperandsChecked | rlox/lib/interpreter.rb:179-182 | a number operator without two numbers raises "Operands must be numbers." at the operator |
| InterpreterProperties.NothingRunsAfterError | rlox/lib/interpreter.rb:18-22 | statements after the first error are never run |
| InterpreterProperties.ErrorIsReportedLast | rlox/lib/interpreter.rb:21-25 | a raised error is reported as the last event of its list |
| InterpreterProperties.BlockErrorContained | rlox/lib/interpreter.rb:28-35 | an error inside a block is reported by the block, and the outer list goes on |
| InterpreterProperties.BlockShadows | rlox/lib/interpreter.rb:32-35 | a declaration inside a block shadows the outer one and is gone after the block |
| InterpreterProperties.BlockAssignsOuter | rlox/lib/interpreter.rb:32-35 | an assignment inside a block to an enclosing name outlives the block |
| InterpreterProperties.SupportedEvaluates | rlox/lib/interpreter.rb:146-148 | an expression without calls stops only on a division by zero |
| InterpreterProperties.SupportedExecutes | rlox/lib/interpreter.rb:32-66 | a statement using only implemented nodes crashes only on a division by zero |
| InterpreterProperties.SupportedListRuns | rlox/lib/interpreter.rb:18-26 | so does a list of them |
| SnapshotInterpreter.EvaluateSnapshot | rlox/lox/interpreter.rb:22-74 | a snapshot expression never yields a function, and leaves the model only on division by zero |
| SnapshotInterpreter.SnapshotAgrees | rlox/lox/interpreter.rb:22-74 | on every snapshot expression, the full interpreter computes the same outcome in any environment and leaves it as it was |
| SnapshotInterpreter.DoubleNegation | rlox/lox/interpreter.rb:65-74 | `!!x` is the truthiness of `x` |
| Resolver.BeginScope | rlox/lib/resolver.rb:127-129 | pushes one empty scope |
| Resolver.EndScope | rlox/lib/resolver.rb:131-133 | pops the innermost scope |
| Resolver.Declare | rlox/lib/resolver.rb:135-145 | as intended: fails with "Already a variable with this name in this scope." exactly when the innermost scope has the name defined; otherwise marks it declared |
| Resolver.DeclareAsWritten | rlox/lib/resolver.rb:135-145 | as written: the same case instead aborts with a missing-method error |
| Resolver.Define | rlox/lib/resolver.rb:147-150 | the name becomes defined in the innermost scope, if there is one |
| Resolver.Distance | rlox/lib/resolver.rb:152-159 | the innermost scope defining the name, counted outward; declared-only entries do not count |
| Resolver.ResolveLocal | rlox/lib/resolver.rb:152-159 | records the distance on a hit, nothing on a miss |
| Resolver.ResolveExpr | rlox/lib/resolver.rb:75-119 | an expression never changes scopes or function type and only appends distances |
| Resolver.ResolveOperands | rlox/lib/resolver.rb:81-85 | the same for both operands, left first |
| Resolver.ResolveArguments | rlox/lib/resolver.rb:87-91 | the same for the arguments, in order |
| Resolver.ResolveStmt | rlox/lib/resolver.rb:21-73 | a statement restores the scope depth and function type it found; a `var` goes through the corrected `Declare`, so a redeclaration is the intended error (see Findings) |
| Resolver.ResolveFunction | rlox/lib/resolver.rb:161-174 | a function body restores the depth and the enclosing function type |
| Resolver.ResolveParams | rlox/lib/resolver.rb:166-169 | parameters only change the innermost scope; they go through the corrected `Declare` (see Findings) |
| Resolver.ResolveList | rlox/lib/resolver.rb:17-19 | a statement list restores depth and function type |
| Resolver.Resolve | rlox/lib/resolver.rb:11-19 | a completed pass ends with no scopes, outside any function; the pass uses the corrected `Declare` throughout, so it models the resolver as intended at `resolver.rb:141` (see Findings) |
| ResolverProperties.GlobalsUntracked | rlox/lib/resolver.rb:135-150 | with no scope, `declare` and `define` change nothing |
| ResolverProperties.ReadInOwnInitializer | rlox/lib/resolver.rb:112-115 | a read fails exactly when the innermost scope has the name declared but not defined |
| ResolverProperties.OwnInitializerRejected | rlox/lib/resolver.rb:42-47 | `var a = a;` inside a scope is rejected at the read |
| ResolverProperties.GlobalSelfInitializerAccepted | rlox/lib/resolver.rb:135-136 | at the top level the same statement is accepted |
| ResolverProperties.DeclaredEntrySkipped | rlox/lib/resolver.rb:153-157 | an entry declared but not defined is passed over, and the search goes on outward |
| ResolverProperties.TopLevelReturnRejected | rlox/lib/resolver.rb:33-36 | `return` outside any function fails, also inside blocks |
| ResolverProperties.ParameterAtDistanceOne | rlox/lib/resolver.rb:161-174 | in `fun f(p) { p; }` the reference is one scope away, and nothing else is recorded |
| ResolverProperties.FirstErrorEndsPass | rlox/lib/resolver.rb:17-19 | statements after the first error are never visited |
| ResolverProperties.RedeclarationRejected | rlox/lib/resolver.rb:138-142 | a second `var` of one name in one block fails at the second declaration |
| ResolverProperties.DeclareAsWrittenDiffers | rlox/lib/resolver.rb:141 | as written and as intended, `declare` differ exactly on a redeclaration |

## Left out

- Drivers (`rlox/lib/lox.rb`, `rlox/lox/lox.rb`): command line, Readline, exit codes and the global error flags. Errors are returned values here. The driver never calls the resolver, so the resolver is modelled as a pass of its own.
- AST printers (`ast_printer.rb`): debug output only.
- The `clock` native (`globals.rb`): it reads the wall clock. A built-in's Ruby procedure is known only by a number.
- Reflective `accept` dispatch (`visitable.rb`): replaced by `match` on the datatypes.
- Floating point: numbers are exact reals. `to_f` is the exact decimal value of the lexeme. A division by zero, which in Ruby yields an infinity or NaN, is the `DivisionByZero` halt.
- `stringify` and `puts`: `print` records the value as a `Printed` event, and the snapshot's `interpret` returns the value unformatted. `Float#to_s` is a parameter of `Tokens.ToString`.
- `Stmt::Return` is not defined in `stmt.rb`; it is added with the fields the parser passes (`parser.rb:103`).
- The interpreter has no visitors for calls, functions, `while` or `return`. Those nodes, like a `nil` entry, are a `Crashed` run. The resolver hook at `resolver.rb:155` is not called; distances are returned as a list instead. `lib/interpreter.rb` defines no `resolve` method, so with that interpreter every variable found in a scope would end the pass with NoMethodError, as the redeclaration finding below does. Nothing in the program constructs a `Resolver`, so its interpreter argument is treated as an abstract recorder of distances.
- `catch(:return)` at `callable.rb:34` has no matching `throw`, so it is not modelled. `Function#call` has no visitor that reaches it.
- Interpreter.Invoke: states only the environment the body runs in, not what the body does, because running a function body needs the missing visitors.
- Function values compare structurally here, where Ruby compares object identity.
- Callables.NewFun, Callables.CallEnv: a declared function holds a copy of its closure's scopes, taken when the function is created. Ruby keeps the live `Environment` (`callable.rb:26-28`), so a call sees names defined or reassigned in the enclosing scopes afterwards; the copy does not. A function's own name, which a declaration visitor would define after creating the function, is among them, so recursion would break. Assignments a call makes to captured variables are also not seen by later calls. None of this can show in this model, because no visitor creates or calls a function.
- The resolver's state after an error (scopes not popped) is not modelled, because the pass ends at the first error.
- Environment.Ancestor: follows the code rather than a depth precondition. A distance beyond the chain stops at the outermost scope; only an environment with no enclosing one fails.
- Parser.Parse: states the relation between `nil` entries and reports, not the whole tree. The trees of particular inputs are stated by the `ParserProperties` lemmas.
- Parser.ExpressionRule, Parser.Assignment, Parser.BinaryLevel, Parser.UnaryExpr and the other rule functions state progress and the precedence shape of the result, not the full tree. The exact trees for small inputs are stated by the `ParserProperties` lemmas.
- `LoxError` (`error.rb`) is not part of this model. Parse, scope and runtime errors are plain records of the token and the message.
- Class, `this` and `super` are keywords only and have no semantics.

## Findings

| source | as written | input that shows it | evidently intended | confidence | as-written member | corrected member |
|---|---|---|---|---|---|---|
| rlox/lib/resolver.rb:141 | `raise ResolverError(name, ...)` calls a method named `ResolverError`, which does not exist, so Ruby raises NoMethodError | `{ var a; var a; }` | `raise ResolverError.new(name, ...)`, reporting "Already a variable with this name in this scope." | not executed | Resolver.DeclareAsWritten, ResolverProperties.DeclareAsWrittenDiffers | Resolver.Declare, ResolverProperties.RedeclarationRejected |
