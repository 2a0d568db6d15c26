/** The lexer (src/tokenizer.rs:58-238). The pure functions below say what
    each step of the tokenizer does to the remaining input; the class
    `Tokenizer` performs the same steps by shrinking its `source` field and
    each of its methods is proved to agree with the function of the same
    step. */
module Lexer {
  import opened Errors
  import opened Tokens

  /** Length of the longest prefix of `s` whose characters satisfy `p`. */
  function Span(s: seq<char>, p: char -> bool): (n: nat)
    ensures n <= |s|
    ensures forall i :: 0 <= i < n ==> p(s[i])
    ensures n < |s| ==> !p(s[n])
  {
    if s == [] || !p(s[0]) then 0 else 1 + Span(s[1..], p)
  }

  /** A prefix of `n` characters satisfying `p` and followed by the end of
      the input or by a character failing `p` is exactly the span. */
  lemma {:induction false} SpanIs(s: seq<char>, p: char -> bool, n: nat)
    requires n <= |s|
    requires forall i :: 0 <= i < n ==> p(s[i])
    requires n < |s| ==> !p(s[n])
    ensures Span(s, p) == n
  {
    if n > 0 {
      SpanIs(s[1..], p, n - 1);
    }
  }

  function Pow(base: nat, exp: nat): (r: nat)
    ensures base > 0 ==> r > 0
  {
    if exp == 0 then 1 else base * Pow(base, exp - 1)
  }

  /** `c.to_ascii_lowercase() as usize - 96` for a letter; the decoding loop
      skips any other character, which is the same as counting it as 0. */
  function LetterValue(c: char): (v: nat)
    ensures IsAlpha(c) ==> 1 <= v <= 26
    ensures !IsAlpha(c) ==> v == 0
  {
    if IsAlpha(c) then ToLower(c) as int - 96 else 0
  }

  /** The 1-indexed base-26 column number written by `letters`, most
      significant letter first (`a` is 1, `z` is 26, `aa` is 27). */
  function ColumnNumber(letters: seq<char>): (n: nat)
    ensures letters != [] && IsAlpha(letters[|letters| - 1]) ==> n >= 1
  {
    if letters == [] then 0
    else 26 * ColumnNumber(letters[..|letters| - 1]) + LetterValue(letters[|letters| - 1])
  }

  function DigitValue(c: char): nat {
    if IsDigit(c) then c as int - '0' as int else 0
  }

  /** The natural number written by a run of decimal digits. */
  function DigitsValue(ds: seq<char>): nat {
    if ds == [] then 0 else 10 * DigitsValue(ds[..|ds| - 1]) + DigitValue(ds[|ds| - 1])
  }

  /** The decimal-literal recogniser standing in for `BigDecimal::from_str`:
      a run of digits, optionally a '.' and another run of digits, with at
      least one digit in all. */
  function ParseDecimal(text: string): Option<real> {
    var k := Span(text, IsDigit);
    if k == |text| then
      if k == 0 then None else Some(DigitsValue(text) as real)
    else if text[k] != '.' then None
    else
      var trail := text[k + 1..];
      if Span(trail, IsDigit) == |trail| && k + |trail| > 0 then
        Some(DigitsValue(text[..k] + trail) as real / Pow(10, |trail|) as real)
      else None
  }

  function DecimalToken(text: string): Result<Token> {
    match ParseDecimal(text)
    case None => Err(InvalidCell("Could not format " + text + " as a valid number"))
    case Some(d) => Ok(Number(d))
  }

  const BadReference := InvalidCell("Could not parse cell reference")
  const BadRange := InvalidCell("Invalid cell range")

  /** `strip_left`: the input without its leading whitespace. */
  function Stripped(s: seq<char>): seq<char> {
    s[Span(s, IsWhitespace)..]
  }

  /** `number`: a digit run, then optionally '.' and a second digit run. */
  function LexNumber(s: seq<char>): (r: (Result<Token>, seq<char>))
    ensures |r.1| <= |s|
    ensures s != [] && IsDigit(s[0]) ==> |r.1| < |s|
  {
    var n := Span(s, IsDigit);
    var whole := s[..n];
    var s1 := s[n..];
    if s1 != [] && s1[0] == '.' then
      var m := Span(s1[1..], IsDigit);
      (DecimalToken(whole + "." + s1[1..][..m]), s1[1..][m..])
    else
      (DecimalToken(whole), s1)
  }

  /** `parse_cell_reference`: letters decoded as a base-26 column, then a
      digit run decoded as a row; both 1-indexed in the text and returned
      0-indexed. Characters consumed before an error stay consumed. */
  function LexCellPosition(s: seq<char>): (r: (Result<(nat, nat)>, seq<char>))
    ensures |r.1| <= |s|
    ensures s != [] && IsAlpha(s[0]) ==> |r.1| < |s|
  {
    var n := Span(s, IsAlpha);
    if n == 0 then (Err(BadReference), s)
    else
      var col := ColumnNumber(s[..n]);
      var s1 := s[n..];
      var m := Span(s1, IsDigit);
      if m == 0 then (Err(BadReference), s1)
      else
        var row := DigitsValue(s1[..m]);
        if row == 0 then (Err(BadReference), s1[m..])
        else (Ok((col - 1, row - 1)), s1[m..])
  }

  /** `cell_reference`: one reference, or two joined by ':' giving a range
      whose bounds run from the first corner to one past the second. */
  function LexCellReference(s: seq<char>): (r: (Result<Token>, seq<char>))
    ensures |r.1| <= |s|
    ensures s != [] && IsAlpha(s[0]) ==> |r.1| < |s|
  {
    var (first, s1) := LexCellPosition(s);
    if first.Err? then (Err(first.error), s1)
    else if !(s1 != [] && s1[0] == ':') then (Ok(CellRef(first.value.0, first.value.1)), s1)
    else
      var (second, s2) := LexCellPosition(s1[1..]);
      if second.Err? then (Err(BadRange), s2)
      else
        var (col, row) := first.value;
        var (nextCol, nextRow) := second.value;
        (Ok(CellRange(Range(col, nextCol + 1), Range(row, nextRow + 1))), s2)
  }

  /** `literal`: an alphabetic run spelling `sum` in any case is the builtin
      function; anything else is read again as a cell reference. */
  function LexLiteral(s: seq<char>): (r: (Result<Token>, seq<char>))
    ensures |r.1| <= |s|
    ensures s != [] && IsAlpha(s[0]) ==> |r.1| < |s|
  {
    var n := Span(s, IsAlpha);
    if Lowercase(s[..n]) == "sum" then (Ok(Sum), s[n..])
    else LexCellReference(s)
  }

  /** `next_token`: skip whitespace; at the end there is no token; otherwise
      one token, or one error, and every token consumes input. */
  function LexNext(s: seq<char>): (r: (Option<Result<Token>>, seq<char>))
    ensures r.0.None? <==> forall i :: 0 <= i < |s| ==> IsWhitespace(s[i])
    ensures r.0.Some? ==> |r.1| < |s|
  {
    var t := Stripped(s);
    if t == [] then (None, t)
    else if IsAlpha(t[0]) then
      var (tok, rest) := LexLiteral(t);
      (Some(tok), rest)
    else if IsDigit(t[0]) then
      var (tok, rest) := LexNumber(t);
      (Some(tok), rest)
    else (Some(FromChar(t[0])), t[1..])
  }

  /** The whole token stream the tokenizer yields as an iterator. */
  function Lex(s: seq<char>): seq<Result<Token>>
    decreases |s|
  {
    var (t, rest) := LexNext(s);
    match t
    case None => []
    case Some(x) => [x] + Lex(rest)
  }

  predicate IsColon(c: char) { c == ':' }

  class Tokenizer {
    var source: seq<char>

    constructor (source: seq<char>)
      ensures this.source == source
    {
      this.source := source;
    }

    method AtEnd() returns (b: bool)
      ensures b <==> source == []
    {
      b := source == [];
    }

    method PeekWhile(p: char -> bool) returns (n: nat)
      ensures n == Span(source, p)
    {
      n := 0;
      while n < |source| && p(source[n])
        invariant n <= |source|
        invariant forall i :: 0 <= i < n ==> p(source[i])
      {
        n := n + 1;
      }
      SpanIs(source, p, n);
    }

    method Chop(n: nat) returns (result: seq<char>)
      requires n <= |source|
      modifies this
      ensures result == old(source)[..n] && source == old(source)[n..]
    {
      result := source[..n];
      source := source[n..];
    }

    method ChopWhile(p: char -> bool) returns (result: seq<char>)
      modifies this
      ensures result == old(source)[..Span(old(source), p)]
      ensures source == old(source)[Span(old(source), p)..]
    {
      var n := PeekWhile(p);
      result := Chop(n);
    }

    method ChopWhileOrElse(p: char -> bool, err: TableError) returns (r: Result<seq<char>>)
      modifies this
      ensures Span(old(source), p) == 0 ==> r == Err(err) && source == old(source)
      ensures Span(old(source), p) > 0 ==>
        r == Ok(old(source)[..Span(old(source), p)]) && source == old(source)[Span(old(source), p)..]
    {
      var n := PeekWhile(p);
      if n == 0 {
        return Err(err);
      }
      var chopped := Chop(n);
      r := Ok(chopped);
    }

    method StripLeft()
      modifies this
      ensures source == Stripped(old(source))
    {
      var _ := ChopWhile(IsWhitespace);
    }

    method PeekMatch(p: char -> bool) returns (b: bool)
      ensures b == (source != [] && p(source[0]))
    {
      var end := AtEnd();
      b := if end then false else p(source[0]);
    }

    method Number() returns (r: Result<Token>)
      modifies this
      ensures (r, source) == LexNumber(old(source))
    {
      var digits := ChopWhile(IsDigit);
      var text := digits;
      var end := AtEnd();
      if !end && source[0] == '.' {
        var _ := Chop(1);
        var fraction := ChopWhile(IsDigit);
        text := text + "." + fraction;
      }
      r := DecimalToken(text);
    }

    method ParseCellReference() returns (r: Result<(nat, nat)>)
      modifies this
      ensures (r, source) == LexCellPosition(old(source))
    {
      var columnSlice := ChopWhileOrElse(IsAlpha, BadReference);
      if columnSlice.Err? {
        return Err(columnSlice.error);
      }
      var col := DecodeColumn(columnSlice.value);
      var rowSlice := ChopWhileOrElse(IsDigit, BadReference);
      if rowSlice.Err? {
        return Err(rowSlice.error);
      }
      var row := DigitsValue(rowSlice.value);
      if row == 0 {
        return Err(BadReference);
      }
      r := Ok((col - 1, row - 1));
    }

    /** The column loop of `parse_cell_reference`: letters are weighted by
        powers of 26 from the last one backwards. */
    static method DecodeColumn(letters: seq<char>) returns (col: nat)
      ensures col == ColumnNumber(letters)
    {
      col := 0;
      for i := 0 to |letters|
        invariant col == ColumnNumber(letters[|letters| - i..])
      {
        var c := letters[|letters| - 1 - i];
        ColumnNumberPrepend(c, letters[|letters| - i..]);
        assert letters[|letters| - 1 - i..] == [c] + letters[|letters| - i..];
        if IsAlpha(c) {
          col := col + LetterValue(c) * Pow(26, i);
        }
      }
      assert letters[|letters| - |letters|..] == letters;
    }

    method CellReference() returns (r: Result<Token>)
      modifies this
      ensures (r, source) == LexCellReference(old(source))
    {
      ghost var start := source;
      var first := ParseCellReference();
      if first.Err? {
        return Err(first.error);
      }
      ghost var afterFirst := source;
      var (col, row) := first.value;
      var colon := PeekMatch(IsColon);
      if !colon {
        return Ok(CellRef(col, row));
      }
      var _ := Chop(1);
      assert source == afterFirst[1..];
      var second := ParseCellReference();
      if second.Err? {
        RangeError(start, afterFirst);
        return Err(BadRange);
      }
      var (nextCol, nextRow) := second.value;
      r := Ok(CellRange(Range(col, nextCol + 1), Range(row, nextRow + 1)));
      RangeOk(start, afterFirst, col, row, nextCol, nextRow, source);
    }

    method Literal() returns (r: Result<Token>)
      modifies this
      ensures (r, source) == LexLiteral(old(source))
    {
      var n := PeekWhile(IsAlpha);
      if Lowercase(source[..n]) == "sum" {
        var _ := Chop(n);
        r := Ok(Sum);
      } else {
        r := CellReference();
      }
    }

    method NextToken() returns (r: Option<Result<Token>>)
      modifies this
      ensures (r, source) == LexNext(old(source))
    {
      StripLeft();
      var end := AtEnd();
      if end {
        return None;
      }
      var token;
      if IsAlpha(source[0]) {
        token := Literal();
      } else if IsDigit(source[0]) {
        token := Number();
      } else {
        token := FromChar(source[0]);
        source := source[1..];
      }
      r := Some(token);
    }

    /** Drains the iterator: the tokens it yields are exactly `Lex` of the
        input it started from. */
    method Collect() returns (tokens: seq<Result<Token>>)
      modifies this
      ensures tokens == Lex(old(source))
    {
      tokens := [];
      while true
        invariant Lex(old(source)) == tokens + Lex(source)
        decreases |source|
      {
        var t := NextToken();
        match t {
          case None =>
            return;
          case Some(x) =>
            tokens := tokens + [x];
        }
      }
    }
  }

  /** A range whose second corner does not decode is the error
      "Invalid cell range", and lexing resumes where that corner stopped. */
  lemma RangeError(s: seq<char>, s1: seq<char>)
    requires LexCellPosition(s).0.Ok? && LexCellPosition(s).1 == s1
    requires s1 != [] && s1[0] == ':' && LexCellPosition(s1[1..]).0.Err?
    ensures LexCellReference(s) == (Err(BadRange), LexCellPosition(s1[1..]).1)
  {
  }

  /** Two positions joined by ':' give the range from the first corner to
      one past the second, in each dimension, with no reordering. */
  lemma RangeOk(s: seq<char>, s1: seq<char>, col: nat, row: nat, nextCol: nat, nextRow: nat, s2: seq<char>)
    requires LexCellPosition(s) == (Ok((col, row)), s1)
    requires s1 != [] && s1[0] == ':' && LexCellPosition(s1[1..]) == (Ok((nextCol, nextRow)), s2)
    ensures LexCellReference(s) == (Ok(CellRange(Range(col, nextCol + 1), Range(row, nextRow + 1))), s2)
  {
    var (first, t1) := LexCellPosition(s);
    assert first.Ok? && t1 == s1;
    var (second, t2) := LexCellPosition(t1[1..]);
    assert second == Ok((nextCol, nextRow)) && t2 == s2;
  }

  /** Prepending a letter to a column adds its value at the next power of 26. */
  lemma {:induction false} ColumnNumberPrepend(c: char, t: seq<char>)
    ensures ColumnNumber([c] + t) == LetterValue(c) * Pow(26, |t|) + ColumnNumber(t)
  {
    if t == [] {
      assert ([c] + t)[..0] == [];
    } else {
      var t' := t[..|t| - 1];
      var last := t[|t| - 1];
      assert ([c] + t)[..|t|] == [c] + t';
      assert ([c] + t)[|t|] == last;
      assert ColumnNumber([c] + t) == 26 * ColumnNumber([c] + t') + LetterValue(last);
      assert ColumnNumber(t) == 26 * ColumnNumber(t') + LetterValue(last);
      assert Pow(26, |t|) == 26 * Pow(26, |t'|);
      ColumnNumberPrepend(c, t');
      ShiftDigit(LetterValue(c), Pow(26, |t'|), ColumnNumber(t'), LetterValue(last));
    }
  }

  /** The arithmetic step of `ColumnNumberPrepend`. */
  lemma ShiftDigit(v: nat, p: nat, n: nat, d: nat)
    ensures 26 * (v * p + n) + d == v * (26 * p) + (26 * n + d)
  {
  }
}
