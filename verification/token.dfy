/**
 * Tokens produced by the scanner: a kind, the exact source text (lexeme),
 * an optional literal value and the line the token ended on.
 * A datatype value cannot change after construction, which is the
 * reader-only interface of the Ruby `Token` class.
 */
module Tokens {

  /** The token kinds; each corresponds to one Ruby symbol (see KindName). */
  datatype TokenType =
    // single-character tokens
    | LeftParen | RightParen | LeftBrace | RightBrace
    | Comma | Dot | Minus | Plus | Semicolon | Slash | Star
    // one- or two-character tokens
    | Bang | BangEqual | Equal | EqualEqual
    | Greater | GreaterEqual | Less | LessEqual
    // literals
    | Identifier | String | Number
    // keywords
    | And | Class | Else | False | Fun | For | If | Nil | Or
    | Print | Return | Super | This | True | Var | While
    | Eof

  /** A literal payload: what a token or a `Literal` expression carries. */
  datatype LitValue = NilLit | BoolLit(b: bool) | NumLit(n: real) | StrLit(s: string)

  datatype Token = Token(kind: TokenType, lexeme: string, literal: LitValue, line: nat)

  /** `type?(t)`. */
  predicate IsType(t: Token, k: TokenType)
  {
    t.kind == k
  }

  /** The Ruby symbol of each kind, as `Symbol#to_s` prints it. */
  function KindName(k: TokenType): string
  {
    match k
    case LeftParen => "LEFT_PAREN"
    case RightParen => "RIGHT_PAREN"
    case LeftBrace => "LEFT_BRACE"
    case RightBrace => "RIGHT_BRACE"
    case Comma => "COMMA"
    case Dot => "DOT"
    case Minus => "MINUS"
    case Plus => "PLUS"
    case Semicolon => "SEMICOLON"
    case Slash => "SLASH"
    case Star => "STAR"
    case Bang => "BANG"
    case BangEqual => "BANG_EQUAL"
    case Equal => "EQUAL"
    case EqualEqual => "EQUAL_EQUAL"
    case Greater => "GREATER"
    case GreaterEqual => "GREATER_EQUAL"
    case Less => "LESS"
    case LessEqual => "LESS_EQUAL"
    case Identifier => "IDENTIFIER"
    case String => "STRING"
    case Number => "NUMBER"
    case And => "AND"
    case Class => "CLASS"
    case Else => "ELSE"
    case False => "FALSE"
    case Fun => "FUN"
    case For => "FOR"
    case If => "IF"
    case Nil => "NIL"
    case Or => "OR"
    case Print => "PRINT"
    case Return => "RETURN"
    case Super => "SUPER"
    case This => "THIS"
    case True => "TRUE"
    case Var => "VAR"
    case While => "WHILE"
    case Eof => "EOF"
  }

  /** No symbol name contains a space, so a rendering can be split at its first space. */
  lemma NoSpaceInKindName(k: TokenType)
    ensures ' ' !in KindName(k)
  {
    if k.LeftParen? || k.RightParen? || k.LeftBrace? || k.RightBrace? || k.Comma? {
      NoSpaceInKindNames0(k);
    } else if k.Dot? || k.Minus? || k.Plus? || k.Semicolon? || k.Slash? {
      NoSpaceInKindNames1(k);
    } else if k.Star? || k.Bang? || k.BangEqual? || k.Equal? || k.EqualEqual? {
      NoSpaceInKindNames2(k);
    } else if k.Greater? || k.GreaterEqual? || k.Less? || k.LessEqual? || k.Identifier? {
      NoSpaceInKindNames3(k);
    } else if k.String? || k.Number? || k.And? || k.Class? || k.Else? {
      NoSpaceInKindNames4(k);
    } else if k.False? || k.Fun? || k.For? || k.If? || k.Nil? {
      NoSpaceInKindNames5(k);
    } else if k.Or? || k.Print? || k.Return? || k.Super? || k.This? {
      NoSpaceInKindNames6(k);
    } else {
      NoSpaceInKindNames7(k);
    }
  }

  // NoSpaceInKindName, five kinds at a time: each group is checked by evaluating the names.

  lemma NoSpaceInKindNames0(k: TokenType)
    requires k.LeftParen? || k.RightParen? || k.LeftBrace? || k.RightBrace? || k.Comma?
    ensures ' ' !in KindName(k)
  {
  }

  lemma NoSpaceInKindNames1(k: TokenType)
    requires k.Dot? || k.Minus? || k.Plus? || k.Semicolon? || k.Slash?
    ensures ' ' !in KindName(k)
  {
  }

  lemma NoSpaceInKindNames2(k: TokenType)
    requires k.Star? || k.Bang? || k.BangEqual? || k.Equal? || k.EqualEqual?
    ensures ' ' !in KindName(k)
  {
  }

  lemma NoSpaceInKindNames3(k: TokenType)
    requires k.Greater? || k.GreaterEqual? || k.Less? || k.LessEqual? || k.Identifier?
    ensures ' ' !in KindName(k)
  {
  }

  lemma NoSpaceInKindNames4(k: TokenType)
    requires k.String? || k.Number? || k.And? || k.Class? || k.Else?
    ensures ' ' !in KindName(k)
  {
  }

  lemma NoSpaceInKindNames5(k: TokenType)
    requires k.False? || k.Fun? || k.For? || k.If? || k.Nil?
    ensures ' ' !in KindName(k)
  {
  }

  lemma NoSpaceInKindNames6(k: TokenType)
    requires k.Or? || k.Print? || k.Return? || k.Super? || k.This?
    ensures ' ' !in KindName(k)
  {
  }

  lemma NoSpaceInKindNames7(k: TokenType)
    requires k.True? || k.Var? || k.While? || k.Eof?
    ensures ' ' !in KindName(k)
  {
  }


  /**
   * How a literal is interpolated into a string. Ruby's `nil.to_s` is empty;
   * `Float#to_s` is host formatting and is supplied by the caller.
   */
  function LiteralText(l: LitValue, showNumber: real -> string): string
  {
    match l
    case NilLit => ""
    case BoolLit(b) => if b then "true" else "false"
    case NumLit(n) => showNumber(n)
    case StrLit(s) => s
  }

  /** `to_s`: kind, lexeme and literal separated by single spaces. */
  function ToString(t: Token, showNumber: real -> string): (r: string)
    ensures |r| == |KindName(t.kind)| + |t.lexeme| + |LiteralText(t.literal, showNumber)| + 2
    ensures r[..|KindName(t.kind)| + 1] == KindName(t.kind) + " "
    ensures t.literal == NilLit ==> |r| > 0 && r[|r| - 1] == ' '
  {
    KindName(t.kind) + " " + t.lexeme + " " + LiteralText(t.literal, showNumber)
  }

  /** The text before the first space (all of `s` if it has none). */
  function UpToSpace(s: string): (r: string)
    ensures |r| <= |s|
    ensures ' ' !in r
  {
    if |s| == 0 || s[0] == ' ' then "" else [s[0]] + UpToSpace(s[1..])
  }

  lemma {:induction false} UpToSpacePrefix(a: string, b: string)
    requires ' ' !in a
    ensures UpToSpace(a + " " + b) == a
  {
    if |a| > 0 {
      assert (a + " " + b)[0] == a[0];
      assert (a + " " + b)[1..] == a[1..] + " " + b;
      UpToSpacePrefix(a[1..], b);
    } else {
      assert (a + " " + b)[0] == ' ';
    }
  }

  /** `to_s` starts with the kind's name: the text before the first space is `KindName`. */
  lemma {:induction false} ToStringKindPrefix(t: Token, showNumber: real -> string)
    ensures UpToSpace(ToString(t, showNumber)) == KindName(t.kind)
  {
    NoSpaceInKindName(t.kind);
    var rest := t.lexeme + " " + LiteralText(t.literal, showNumber);
    assert ToString(t, showNumber) == KindName(t.kind) + " " + rest;
    UpToSpacePrefix(KindName(t.kind), rest);
  }

  /** The Ruby constructor: every field is stored as given. */
  function NewToken(kind: TokenType, lexeme: string, literal: LitValue, line: nat): (t: Token)
    ensures t.kind == kind && t.lexeme == lexeme && t.literal == literal && t.line == line
    ensures IsType(t, kind) && forall k :: IsType(t, k) <==> k == kind
  {
    Token(kind, lexeme, literal, line)
  }
}
