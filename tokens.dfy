/** The token vocabulary of the formula language and the character classes
    the lexer uses (src/tokenizer.rs:5-56). */
module Tokens {
  import opened Errors

  /** A half-open `start..end` bound, as the lexer builds it: no ordering
      between the two ends is imposed. */
  datatype Range = Range(start: nat, end: nat)

  datatype Token =
    | Number(value: real)
    | CellRef(col: nat, row: nat)
    | CellRange(cols: Range, rows: Range)
    | Comma
    | Sum
    | Plus
    | Slash
    | Minus
    | Star
    | LeftParen
    | RightParen
  {
    predicate IsBuiltinFn() { Sum? }

    /** The single-character tokens. */
    predicate IsPunctuation() {
      Comma? || Plus? || Slash? || Minus? || Star? || LeftParen? || RightParen?
    }
  }

  // Character classes, restricted to ASCII.

  predicate IsWhitespace(c: char) { c == ' ' || ('\t' <= c <= '\r') }

  predicate IsDigit(c: char) { '0' <= c <= '9' }

  predicate IsAlpha(c: char) { ('a' <= c <= 'z') || ('A' <= c <= 'Z') }

  function ToLower(c: char): (r: char)
    ensures IsAlpha(c) ==> 'a' <= r <= 'z'
    ensures 'a' <= c <= 'z' ==> r == c
    ensures !IsAlpha(c) ==> r == c
  {
    if 'A' <= c <= 'Z' then (c as int + 32) as char else c
  }

  function Lowercase(s: seq<char>): (r: seq<char>)
    ensures |r| == |s|
    ensures forall i :: 0 <= i < |s| ==> r[i] == ToLower(s[i])
  {
    seq(|s|, i requires 0 <= i < |s| => ToLower(s[i]))
  }

  /** The character a single-character token is written as. */
  function Symbol(t: Token): char
    requires t.IsPunctuation()
  {
    match t
    case Comma => ','
    case Plus => '+'
    case Slash => '/'
    case Minus => '-'
    case Star => '*'
    case LeftParen => '('
    case RightParen => ')'
  }

  /** `TryFrom<char> for Token`: punctuation maps to its token, any other
      character is an `InvalidCell` error naming it. */
  function FromChar(c: char): (r: Result<Token>)
    ensures r.Ok? <==> c in "+-/*(),"
    ensures r.Ok? ==> r.value.IsPunctuation() && Symbol(r.value) == c
    ensures r.Err? ==> r.error == InvalidCell("Unknown character encountered: " + [c])
  {
    match c
    case '+' => Ok(Plus)
    case '-' => Ok(Minus)
    case '/' => Ok(Slash)
    case '*' => Ok(Star)
    case '(' => Ok(LeftParen)
    case ')' => Ok(RightParen)
    case ',' => Ok(Comma)
    case _ => Err(InvalidCell("Unknown character encountered: " + [c]))
  }

  /** Every single-character token is recovered from the character it is
      written as. */
  lemma FromSymbol(t: Token)
    requires t.IsPunctuation()
    ensures FromChar(Symbol(t)) == Ok(t)
  {
  }
}
