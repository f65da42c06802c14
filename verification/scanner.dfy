/**
 * The scanner: source text to a token sequence ending in a single EOF token.
 * Scanning is a pure function of the text. The positions the Ruby scanner
 * keeps in `@start_pos`/`@current_pos` become explicit arguments, its
 * `@line_num` becomes the `line` argument, and the errors it reports through
 * `Lox.error` are collected in the result instead.
 */
module Scanner {
  import opened Basics
  import opened Tokens

  /** A lexical error as reported: the line and the message. */
  datatype LexError = LexError(line: nat, message: string)

  /** The slice `source[start..end]` a token was cut from. */
  datatype Span = Span(start: nat, end: nat)

  /** What one call of `scan_token` does: where it stops, the line afterwards, and what it emits. */
  datatype Step = Step(next: nat, line: nat, token: Option<Token>, error: Option<LexError>)

  /** The outcome of `scan_tokens`: tokens, the slice each was cut from, and the reported errors. */
  datatype Scanned = Scanned(tokens: seq<Token>, spans: seq<Span>, errors: seq<LexError>)

  predicate IsDigit(c: char) { '0' <= c <= '9' }

  predicate IsAlpha(c: char) { ('a' <= c <= 'z') || ('A' <= c <= 'Z') || c == '_' }

  predicate IsAlphaNumeric(c: char) { IsAlpha(c) || IsDigit(c) }

  predicate IsWhitespace(c: char) { c == ' ' || c == '\r' || c == '\t' }

  predicate NotNewline(c: char) { c != '\n' }

  predicate NotQuote(c: char) { c != '"' }

  /** `match(expected)`: the character at `p` exists and is `c`. */
  predicate NextIs(src: string, p: nat, c: char)
  {
    p < |src| && src[p] == c
  }

  /** `advance() while f(peek())`: the first position at or after `p` whose character fails `f`. */
  function SkipWhile(src: string, p: nat, f: char -> bool): (r: nat)
    requires p <= |src|
    ensures p <= r <= |src|
    ensures forall i :: p <= i < r ==> f(src[i])
    ensures r < |src| ==> !f(src[r])
    decreases |src| - p
  {
    if p < |src| && f(src[p]) then SkipWhile(src, p + 1, f) else p
  }

  // ---------------------------------------------------------------------------
  // Keywords

  /** The sixteen reserved words the source lists. */
  const Keywords: set<string> :=
    {"and", "class", "else", "false", "for", "fun", "if", "nil", "or",
     "print", "return", "super", "this", "true", "var", "while"}

  /** The keyword kind of an identifier's text: there is one exactly for the reserved words. */
  function KeywordKind(text: string): (r: Option<TokenType>)
    ensures r.Some? <==> text in Keywords
  {
    if text == "and" then Some(And)
    else if text == "class" then Some(Class)
    else if text == "else" then Some(Else)
    else if text == "false" then Some(False)
    else if text == "for" then Some(For)
    else if text == "fun" then Some(Fun)
    else if text == "if" then Some(If)
    else if text == "nil" then Some(Nil)
    else if text == "or" then Some(Or)
    else if text == "print" then Some(Print)
    else if text == "return" then Some(Return)
    else if text == "super" then Some(Super)
    else if text == "this" then Some(This)
    else if text == "true" then Some(True)
    else if text == "var" then Some(Var)
    else if text == "while" then Some(While)
    else None
  }

  function UpChar(c: char): char
  {
    if 'a' <= c <= 'z' then (c as int - 32) as char else c
  }

  /** ASCII upper-casing, as `String#upcase` does on these words. */
  function Upcase(s: string): (r: string)
    ensures |r| == |s|
  {
    seq(|s|, i requires 0 <= i < |s| => UpChar(s[i]))
  }

  /** The reserved word of each keyword kind. */
  function Spelling(k: TokenType): Option<string>
  {
    match k
    case And => Some("and")
    case Class => Some("class")
    case Else => Some("else")
    case False => Some("false")
    case For => Some("for")
    case Fun => Some("fun")
    case If => Some("if")
    case Nil => Some("nil")
    case Or => Some("or")
    case Print => Some("print")
    case Return => Some("return")
    case Super => Some("super")
    case This => Some("this")
    case True => Some("true")
    case Var => Some("var")
    case While => Some("while")
    case _ => None
  }

  lemma SpellingUpcased0(k: TokenType)
    requires k.And? || k.Class? || k.Else? || k.False?
    ensures Upcase(Spelling(k).value) == KindName(k)
  {
  }

  lemma SpellingUpcased1(k: TokenType)
    requires k.For? || k.Fun? || k.If? || k.Nil?
    ensures Upcase(Spelling(k).value) == KindName(k)
  {
  }

  lemma SpellingUpcased2(k: TokenType)
    requires k.Or? || k.Print? || k.Return? || k.Super?
    ensures Upcase(Spelling(k).value) == KindName(k)
  {
  }

  lemma SpellingUpcased3(k: TokenType)
    requires k.This? || k.True? || k.Var? || k.While?
    ensures Upcase(Spelling(k).value) == KindName(k)
  {
  }

  /** The kind of each reserved word is the symbol spelled as the word upper-cased. */
  lemma SpellingUpcased(k: TokenType)
    requires Spelling(k).Some?
    ensures Upcase(Spelling(k).value) == KindName(k)
  {
    if k.And? || k.Class? || k.Else? || k.False? {
      SpellingUpcased0(k);
    } else if k.For? || k.Fun? || k.If? || k.Nil? {
      SpellingUpcased1(k);
    } else if k.Or? || k.Print? || k.Return? || k.Super? {
      SpellingUpcased2(k);
    } else if k.This? || k.True? || k.Var? || k.While? {
      SpellingUpcased3(k);
    }
  }

  /** `KeywordKind` finds a kind exactly for its own spelling. */
  lemma KeywordKindSpelled(text: string)
    ensures KeywordKind(text).Some? ==> Spelling(KeywordKind(text).value) == Some(text)
  {
    var r := KeywordKind(text);
    if r.Some? {
      assert text == Spelling(r.value).value by {
        if r.value.And? || r.value.Class? || r.value.Else? || r.value.False? {
        } else if r.value.For? || r.value.Fun? || r.value.If? || r.value.Nil? {
        } else if r.value.Or? || r.value.Print? || r.value.Return? || r.value.Super? {
        } else {
        }
      }
    }
  }

  /**
   * `text.upcase.to_sym` for a reserved word: exactly the listed words are
   * reserved, and each scans as the kind whose symbol is the word upper-cased.
   */
  lemma KeywordKindUpcases(text: string)
    ensures KeywordKind(text).Some? <==> text in Keywords
    ensures KeywordKind(text).Some? ==> KindName(KeywordKind(text).value) == Upcase(text)
  {
    if KeywordKind(text).Some? {
      KeywordKindSpelled(text);
      SpellingUpcased(KeywordKind(text).value);
    }
  }

  // ---------------------------------------------------------------------------
  // Number literals

  predicate AllDigits(s: string)
  {
    forall i :: 0 <= i < |s| ==> IsDigit(s[i])
  }

  /** The shape of a NUMBER lexeme: digits, optionally a dot and more digits. */
  predicate IsNumberText(s: string)
  {
    || (|s| > 0 && AllDigits(s))
    || (exists k :: 0 < k < |s| - 1 && s[k] == '.' && AllDigits(s[..k]) && AllDigits(s[k + 1..]))
  }

  function DigitsValue(s: string): int
  {
    if |s| == 0 then 0 else DigitsValue(s[..|s| - 1]) * 10 + (s[|s| - 1] as int - '0' as int)
  }

  function Pow10(n: nat): (r: nat)
    ensures r > 0
  {
    if n == 0 then 1 else 10 * Pow10(n - 1)
  }

  /**
   * The exact decimal value of a NUMBER lexeme (what `to_f` rounds to a
   * double). A lexeme without a dot is the whole number its digits spell.
   */
  function DecimalValue(text: string): (r: real)
    ensures AllDigits(text) ==> r == DigitsValue(text) as real
  {
    var dot := SkipWhile(text, 0, IsDigit);
    if dot < |text| then
      DigitsValue(text[..dot]) as real + DigitsValue(text[dot + 1..]) as real / Pow10(|text| - dot - 1) as real
    else DigitsValue(text) as real
  }

  /** Digits read after more digits: the earlier ones move one decimal place up per later digit. */
  lemma {:induction false} DigitsValueAppend(a: string, b: string)
    ensures DigitsValue(a + b) == DigitsValue(a) * Pow10(|b|) + DigitsValue(b)
    decreases |b|
  {
    if |b| == 0 {
      assert a + b == a;
    } else {
      var init := b[..|b| - 1];
      var d := b[|b| - 1] as int - '0' as int;
      assert (a + b)[..|a + b| - 1] == a + init;
      assert (a + b)[|a + b| - 1] == b[|b| - 1];
      DigitsValueAppend(a, init);
      assert DigitsValue(a + b) == (DigitsValue(a) * Pow10(|init|) + DigitsValue(init)) * 10 + d;
      assert Pow10(|b|) == Pow10(|init|) * 10;
      assert DigitsValue(a) * Pow10(|init|) * 10 == DigitsValue(a) * Pow10(|b|);
    }
  }

  /** The integer part of `a.b` ends at its dot. */
  lemma DotAfterDigits(a: string, b: string)
    requires AllDigits(a)
    ensures SkipWhile(a + "." + b, 0, IsDigit) == |a|
  {
    var text := a + "." + b;
    assert text[|a|] == '.';
    forall i | 0 <= i < |a|
      ensures IsDigit(text[i])
    {
      assert text[i] == a[i];
    }
  }

  /** How `DecimalValue` splits `a.b` at its dot. */
  lemma DecimalValueParts(a: string, b: string)
    requires AllDigits(a)
    ensures DecimalValue(a + "." + b) == DigitsValue(a) as real + DigitsValue(b) as real / Pow10(|b|) as real
  {
    var text := a + "." + b;
    DotAfterDigits(a, b);
    assert text[..|a|] == a;
    assert text[|a| + 1..] == b;
    assert |text| - |a| - 1 == |b|;
  }

  lemma OverCommonDenominator(x: int, y: int, q: int)
    requires q > 0
    ensures x as real + y as real / q as real == (x * q + y) as real / q as real
  {
    assert (x * q) as real == x as real * q as real;
  }

  /**
   * The value of `a.b` is the whole number the digits of `a` and `b` spell
   * together, divided by ten for each digit after the dot.
   */
  lemma DecimalValueScaled(a: string, b: string)
    requires AllDigits(a) && AllDigits(b)
    ensures DecimalValue(a + "." + b) == DigitsValue(a + b) as real / Pow10(|b|) as real
  {
    DecimalValueParts(a, b);
    DigitsValueAppend(a, b);
    OverCommonDenominator(DigitsValue(a), DigitsValue(b), Pow10(|b|));
  }

  // ---------------------------------------------------------------------------
  // One token

  function Emit(src: string, start: nat, next: nat, line: nat, kind: TokenType, literal: LitValue): (s: Step)
    requires start <= next <= |src|
  {
    Step(next, line, Some(Token(kind, src[start..next], literal, line)), None)
  }

  /** `string()`'s loop: find the closing quote, counting the newlines passed. */
  function StringLoop(src: string, p: nat, line: nat): (r: (nat, nat))
    requires p <= |src|
    ensures p <= r.0 <= |src|
    ensures forall i :: p <= i < r.0 ==> src[i] != '"'
    ensures r.0 < |src| ==> src[r.0] == '"'
    ensures r.1 == line + Count(src[p..r.0], '\n')
    decreases |src| - p
  {
    if p < |src| && src[p] != '"' then
      var r := StringLoop(src, p + 1, if src[p] == '\n' then line + 1 else line);
      assert src[p..r.0][1..] == src[p + 1..r.0];
      r
    else (p, line)
  }

  /** `string()`, entered with the opening quote at `start`. */
  function ScanString(src: string, start: nat, line: nat): (s: Step)
    requires start < |src| && src[start] == '"'
    ensures start < s.next <= |src|
    ensures s.line == line + Count(src[start..s.next], '\n')
    ensures s.token.Some? <==> s.error.None?
    ensures s.token.Some? ==>
      && s.next >= start + 2 && src[s.next - 1] == '"'
      && s.token.value == Token(String, src[start..s.next], StrLit(src[start + 1..s.next - 1]), s.line)
      && '"' !in src[start + 1..s.next - 1]
    ensures s.error.Some? ==> s.next == |src| && s.error.value == LexError(s.line, "Unterminated string.")
  {
    var r := StringLoop(src, start + 1, line);
    var q := r.0;
    assert src[start..q] == ['"'] + src[start + 1..q];
    assert Count(src[start..q], '\n') == Count(src[start + 1..q], '\n');
    if q == |src| then
      Step(q, r.1, None, Some(LexError(r.1, "Unterminated string.")))
    else
      assert src[start..q + 1] == src[start..q] + [src[q]];
      CountAppend(src[start..q], [src[q]], '\n');
      assert Count([src[q]], '\n') == 0;
      Emit(src, start, q + 1, r.1, String, StrLit(src[start + 1..q]))
  }

  /**
   * Where `number()` stops: after the integer digits, and after the fraction
   * too when a dot is directly followed by a digit.
   */
  function NumberEnd(src: string, start: nat): (e: nat)
    requires start < |src| && IsDigit(src[start])
    ensures start < e <= |src|
  {
    var d := SkipWhile(src, start + 1, IsDigit);
    if NextIs(src, d, '.') && d + 1 < |src| && IsDigit(src[d + 1]) then SkipWhile(src, d + 1, IsDigit) else d
  }

  /** The text `number()` consumes has the NUMBER shape and no line break. */
  lemma NumberShape(src: string, start: nat)
    requires start < |src| && IsDigit(src[start])
    ensures IsNumberText(src[start..NumberEnd(src, start)])
    ensures '\n' !in src[start..NumberEnd(src, start)]
  {
    var d := SkipWhile(src, start + 1, IsDigit);
    assert AllDigits(src[start..d]);
    if NextIs(src, d, '.') && d + 1 < |src| && IsDigit(src[d + 1]) {
      var e := SkipWhile(src, d + 1, IsDigit);
      var text := src[start..e];
      assert text[d - start] == src[d] == '.';
      assert text[..d - start] == src[start..d];
      assert text[d - start + 1..] == src[d + 1..e];
      assert AllDigits(src[d + 1..e]);
    }
  }

  /** `number()`, entered with the first digit at `start`. */
  function ScanNumber(src: string, start: nat, line: nat): (s: Step)
    requires start < |src| && IsDigit(src[start])
    ensures s.next == NumberEnd(src, start)
    ensures start < s.next <= |src| && s.line == line && s.error.None?
    ensures s.token.Some? && s.token.value.kind == Number
    ensures s.token.value.lexeme == src[start..s.next] && IsNumberText(src[start..s.next])
    ensures s.token.value.literal == NumLit(DecimalValue(src[start..s.next]))
    ensures '\n' !in src[start..s.next]
  {
    var e := NumberEnd(src, start);
    NumberShape(src, start);
    Emit(src, start, e, line, Number, NumLit(DecimalValue(src[start..e])))
  }

  /** `identifier()`, entered with the first letter at `start`. */
  function ScanIdentifier(src: string, start: nat, line: nat): (s: Step)
    requires start < |src| && IsAlpha(src[start])
    ensures start < s.next <= |src| && s.line == line && s.error.None?
    ensures s.token.Some? && s.token.value.lexeme == src[start..s.next]
    ensures forall i :: start < i < s.next ==> IsAlphaNumeric(src[i])
    ensures s.next < |src| ==> !IsAlphaNumeric(src[s.next])
    ensures s.token.value.kind == (if src[start..s.next] in Keywords then KeywordKind(src[start..s.next]).value else Identifier)
    ensures s.token.value.literal == NilLit
    ensures '\n' !in src[start..s.next]
  {
    var e := SkipWhile(src, start + 1, IsAlphaNumeric);
    WordHasNoLineBreak(src, start, e);
    Emit(src, start, e, line, WordKind(src[start..e]), NilLit)
  }

  /** A keyword's own kind, IDENTIFIER for any other word. */
  function WordKind(text: string): (k: TokenType)
    ensures k == if text in Keywords then KeywordKind(text).value else Identifier
  {
    if KeywordKind(text).Some? then KeywordKind(text).value else Identifier
  }

  lemma WordHasNoLineBreak(src: string, start: nat, e: nat)
    requires start < e <= |src| && IsAlpha(src[start])
    requires forall i :: start < i < e ==> IsAlphaNumeric(src[i])
    ensures '\n' !in src[start..e]
  {
    forall i | start <= i < e
      ensures src[i] != '\n'
    {
      assert IsAlphaNumeric(src[i]);
    }
  }

  /** The kind of a one-character token, if `c` is one. */
  function SingleKind(c: char): Option<TokenType>
  {
    if c == '(' then Some(LeftParen)
    else if c == ')' then Some(RightParen)
    else if c == '{' then Some(LeftBrace)
    else if c == '}' then Some(RightBrace)
    else if c == ',' then Some(Comma)
    else if c == '.' then Some(Dot)
    else if c == '-' then Some(Minus)
    else if c == '+' then Some(Plus)
    else if c == ';' then Some(Semicolon)
    else if c == '*' then Some(Star)
    else None
  }

  /** For `!`, `=`, `<` and `>`: the one- and the two-character kind. */
  function OperatorKinds(c: char): Option<(TokenType, TokenType)>
  {
    if c == '!' then Some((Bang, BangEqual))
    else if c == '=' then Some((Equal, EqualEqual))
    else if c == '<' then Some((Less, LessEqual))
    else if c == '>' then Some((Greater, GreaterEqual))
    else None
  }

  /**
   * What every branch of `scan_token` guarantees: it consumes at least one
   * character, the line grows by exactly the newlines consumed, and an
   * emitted token is the consumed slice, stamped with the current line.
   */
  ghost predicate ValidStep(src: string, start: nat, line: nat, s: Step)
  {
    && start < s.next <= |src|
    && s.line == line + Count(src[start..s.next], '\n')
    && (s.token.Some? ==>
          && s.error.None?
          && s.token.value.lexeme == src[start..s.next]
          && s.token.value.line == s.line
          && s.token.value.kind != Eof)
    && (s.error.Some? ==> s.error.value.line == s.line)
  }

  /** The punctuation and operator branches of `scan_token`, including `/` and comments. */
  function ScanOperator(src: string, start: nat, line: nat): (s: Step)
    requires start < |src|
    requires SingleKind(src[start]).Some? || OperatorKinds(src[start]).Some? || src[start] == '/'
    ensures ValidStep(src, start, line, s) && s.line == line && s.error.None?
    ensures s.token.None? <==> src[start] == '/' && NextIs(src, start + 1, '/')
  {
    var c := src[start];
    var p := start + 1;
    assert src[start..p] == [c];
    if SingleKind(c).Some? then
      Emit(src, start, p, line, SingleKind(c).value, NilLit)
    else if OperatorKinds(c).Some? then
      var kinds := OperatorKinds(c).value;
      if NextIs(src, p, '=') then
        assert src[start..p + 1] == [c] + ['='];
        CountAppend([c], ['='], '\n');
        Emit(src, start, p + 1, line, kinds.1, NilLit)
      else
        Emit(src, start, p, line, kinds.0, NilLit)
    else if NextIs(src, p, '/') then
      var e := SkipWhile(src, p + 1, NotNewline);
      CountAbsent(src[start..e], '\n');
      Step(e, line, None, None)
    else
      Emit(src, start, p, line, Slash, NilLit)
  }

  /** `scan_token`: consume one lexeme starting at `start`. */
  function ScanToken(src: string, start: nat, line: nat): (s: Step)
    requires start < |src|
    ensures ValidStep(src, start, line, s)
  {
    var c := src[start];
    var p := start + 1;
    assert src[start..p] == [c];
    if SingleKind(c).Some? || OperatorKinds(c).Some? || c == '/' then
      ScanOperator(src, start, line)
    else if IsWhitespace(c) then
      Step(p, line, None, None)
    else if c == '\n' then
      Step(p, line + 1, None, None)
    else if c == '"' then
      ScanString(src, start, line)
    else if IsDigit(c) then
      var s := ScanNumber(src, start, line);
      CountAbsent(src[start..s.next], '\n');
      s
    else if IsAlpha(c) then
      var s := ScanIdentifier(src, start, line);
      CountAbsent(src[start..s.next], '\n');
      s
    else
      Step(p, line, None, Some(LexError(line, "Unexpected character " + [c] + ".")))
  }

  // ---------------------------------------------------------------------------
  // The whole source

  /** The tokens scanned so far are consistent slices of `src[..pos]`, in order. */
  ghost predicate Consistent(src: string, pos: nat, line: nat, acc: Scanned)
  {
    && pos <= |src|
    && line == 1 + Count(src[..pos], '\n')
    && |acc.tokens| == |acc.spans|
    && (forall i :: 0 <= i < |acc.spans| ==>
          && acc.spans[i].start < acc.spans[i].end <= pos
          && acc.tokens[i].lexeme == src[acc.spans[i].start..acc.spans[i].end]
          && acc.tokens[i].kind != Eof
          && acc.tokens[i].line == 1 + Count(src[..acc.spans[i].end], '\n'))
    && (forall i :: 0 <= i < |acc.spans| - 1 ==> acc.spans[i].end <= acc.spans[i + 1].start)
    && (forall i :: 0 <= i < |acc.errors| ==> 1 <= acc.errors[i].line <= line)
  }

  /** The properties `scan_tokens` guarantees of its result. */
  ghost predicate WellScanned(src: string, r: Scanned)
  {
    && |r.tokens| > 0 && |r.tokens| == |r.spans|
    && r.tokens[|r.tokens| - 1] == Token(Eof, "", NilLit, 1 + Count(src, '\n'))
    && (forall i :: 0 <= i < |r.tokens| - 1 ==> r.tokens[i].kind != Eof)
    && (forall i :: 0 <= i < |r.spans| ==>
          && r.spans[i].start <= r.spans[i].end <= |src|
          && r.tokens[i].lexeme == src[r.spans[i].start..r.spans[i].end]
          && r.tokens[i].line == 1 + Count(src[..r.spans[i].end], '\n'))
    && (forall i :: 0 <= i < |r.spans| - 1 ==> r.spans[i].end <= r.spans[i + 1].start)
    && (forall i :: 0 <= i < |r.errors| ==> 1 <= r.errors[i].line <= 1 + Count(src, '\n'))
  }

  /** Appending the EOF token at the end of the source completes a consistent scan. */
  lemma Finish(src: string, pos: nat, line: nat, acc: Scanned)
    requires Consistent(src, pos, line, acc) && pos >= |src|
    ensures WellScanned(src, Scanned(acc.tokens + [Token(Eof, src[pos..pos], NilLit, line)], acc.spans + [Span(pos, pos)], acc.errors))
  {
    assert src[..pos] == src;
    assert src[pos..pos] == "";
  }

  /** Recording the outcome of one valid step keeps the scan consistent. */
  lemma Advance(src: string, pos: nat, line: nat, acc: Scanned, s: Step)
    requires Consistent(src, pos, line, acc) && pos < |src|
    requires ValidStep(src, pos, line, s)
    ensures Consistent(src, s.next, s.line, Record(acc, pos, s))
  {
    CountSplit(src, pos, s.next, '\n');
  }

  /** Appends a step's token (with its span) and error, when present. */
  function Record(acc: Scanned, pos: nat, s: Step): (r: Scanned)
    ensures |acc.errors| <= |r.errors| && r.errors[..|acc.errors|] == acc.errors
  {
    Scanned(
      if s.token.Some? then acc.tokens + [s.token.value] else acc.tokens,
      if s.token.Some? then acc.spans + [Span(pos, s.next)] else acc.spans,
      if s.error.Some? then acc.errors + [s.error.value] else acc.errors)
  }

  /** The `while !is_at_end()` loop of `scan_tokens`, then the EOF token. */
  function ScanFrom(src: string, pos: nat, line: nat, acc: Scanned): (r: Scanned)
    requires Consistent(src, pos, line, acc)
    ensures WellScanned(src, r)
    ensures |acc.errors| <= |r.errors| && r.errors[..|acc.errors|] == acc.errors
    decreases |src| - pos
  {
    if pos >= |src| then
      Finish(src, pos, line, acc);
      Scanned(acc.tokens + [Token(Eof, src[pos..pos], NilLit, line)], acc.spans + [Span(pos, pos)], acc.errors)
    else
      var s := ScanToken(src, pos, line);
      Advance(src, pos, line, acc, s);
      ScanFrom(src, s.next, s.line, Record(acc, pos, s))
  }

  /** `scan_tokens(source)`: starts from position 0 on line 1 with nothing emitted. */
  function Scan(src: string): (r: Scanned)
    ensures WellScanned(src, r)
  {
    assert src[..0] == "";
    ScanFrom(src, 0, 1, Scanned([], [], []))
  }
}

/** Properties of single scanning steps and of whole scans. */
module ScannerProperties {
  import opened Basics
  import opened Tokens
  import opened Scanner

  /**
   * `!`, `=`, `<` and `>` take the two-character kind exactly when `=`
   * follows, and then the `=` is part of the token.
   */
  lemma TwoCharOperators(src: string, start: nat, line: nat)
    requires start < |src| && OperatorKinds(src[start]).Some?
    ensures var s := ScanToken(src, start, line);
      && s.token.Some? && s.error.None? && s.line == line
      && (s.token.value.kind == OperatorKinds(src[start]).value.1 <==> NextIs(src, start + 1, '='))
      && (s.token.value.kind == OperatorKinds(src[start]).value.0 <==> !NextIs(src, start + 1, '='))
      && s.next == (if NextIs(src, start + 1, '=') then start + 2 else start + 1)
  {
  }

  /**
   * `//` runs up to, not including, the next newline and emits nothing;
   * blanks emit nothing; a newline emits nothing and counts one line.
   */
  lemma CommentsAndBlanks(src: string, start: nat, line: nat)
    requires start < |src|
    ensures var s := ScanToken(src, start, line);
      && (src[start] == '/' && NextIs(src, start + 1, '/') ==>
            && s.token.None? && s.error.None? && s.line == line
            && (forall i :: start <= i < s.next ==> src[i] != '\n')
            && (s.next < |src| ==> src[s.next] == '\n'))
      && (IsWhitespace(src[start]) ==> s == Step(start + 1, line, None, None))
      && (src[start] == '\n' ==> s == Step(start + 1, line + 1, None, None))
  {
  }

  /** A character no rule accepts is reported on the current line and skipped. */
  lemma UnexpectedCharacter(src: string, start: nat, line: nat)
    requires start < |src|
    requires var c := src[start];
      && SingleKind(c).None? && OperatorKinds(c).None? && c != '/' && !IsWhitespace(c)
      && c != '\n' && c != '"' && !IsDigit(c) && !IsAlpha(c)
    ensures ScanToken(src, start, line)
      == Step(start + 1, line, None, Some(LexError(line, "Unexpected character " + [src[start]] + ".")))
  {
  }

  /** A non-digit cannot sit inside a run of digits. */
  lemma DigitsBefore(t: string, k: nat, m: nat)
    requires k < |t| && m <= |t|
    requires !IsDigit(t[k]) && AllDigits(t[..m])
    ensures m <= k
  {
    assert forall i :: 0 <= i < m ==> IsDigit(t[i]) by {
      forall i | 0 <= i < m ensures IsDigit(t[i]) {
        assert t[..m][i] == t[i];
      }
    }
  }

  /** No longer slice starting at `start` is a number: the NUMBER token is the longest one. */
  lemma NumberMaximalMunch(src: string, start: nat, line: nat, e: nat)
    requires start < |src| && IsDigit(src[start])
    requires ScanNumber(src, start, line).next < e <= |src|
    ensures !IsNumberText(src[start..e])
  {
    NumberNotExtended(src, start, e);
  }

  lemma NumberNotExtended(src: string, start: nat, e: nat)
    requires start < |src| && IsDigit(src[start])
    requires NumberEnd(src, start) < e <= |src|
    ensures !IsNumberText(src[start..e])
  {
    var d := SkipWhile(src, start + 1, IsDigit);
    var t := src[start..e];
    assert t[d - start] == src[d];
    assert t[..d - start] == src[start..d];
    forall k | 0 < k < |t| - 1 && t[k] == '.' && AllDigits(t[..k])
      ensures !AllDigits(t[k + 1..])
    {
      DigitsBefore(t, k, d - start);
      DigitsBefore(t, d - start, k);
      var f := SkipWhile(src, d + 1, IsDigit);
      if IsDigit(src[d + 1]) {
        assert t[k + 1..][f - d - 1] == src[f];
      } else {
        assert t[k + 1..][0] == src[d + 1];
      }
    }
  }

  /** A STRING token's literal is the text between the quotes, which holds no quote. */
  lemma StringLiteralContents(src: string, start: nat, line: nat)
    requires start < |src| && src[start] == '"'
    ensures var s := ScanToken(src, start, line);
      s.token.Some? ==>
        && s.token.value.kind == String
        && s.token.value.lexeme == ['"'] + s.token.value.literal.s + ['"']
        && '"' !in s.token.value.literal.s
  {
    var s := ScanString(src, start, line);
    if s.token.Some? {
      var lex := src[start..s.next];
      assert lex == [src[start]] + src[start + 1..s.next - 1] + [src[s.next - 1]];
    }
  }

  /** An unterminated string reports an error on the final line and emits nothing. */
  lemma UnterminatedString(src: string, start: nat, line: nat)
    requires start < |src| && src[start] == '"'
    requires forall i :: start < i < |src| ==> src[i] != '"'
    ensures var s := ScanToken(src, start, line);
      && s.token.None? && s.next == |src|
      && s.error == Some(LexError(line + Count(src[start..], '\n'), "Unterminated string."))
  {
    var s := ScanString(src, start, line);
    assert src[start..s.next] == src[start..];
  }

  lemma {:induction false} LinesOrdered(src: string, r: Scanned, i: nat, j: nat)
    requires WellScanned(src, r)
    requires i <= j < |r.tokens|
    ensures 1 <= r.tokens[i].line <= r.tokens[j].line
    decreases j - i
  {
    if i < j {
      LinesOrdered(src, r, i + 1, j);
      CountSplit(src, r.spans[i].end, r.spans[i + 1].end, '\n');
    }
  }

  /** Line numbers start at 1 and never decrease along the token sequence. */
  lemma LinesNonDecreasing(src: string, i: nat, j: nat)
    requires i <= j < |Scan(src).tokens|
    ensures 1 <= Scan(src).tokens[i].line <= Scan(src).tokens[j].line
  {
    LinesOrdered(src, Scan(src), i, j);
  }
}
