/** Properties of the lexer: column and row decoding, references and ranges,
    the `sum` keyword, whitespace, punctuation, numbers and progress. The
    encoders `ColumnLetters` and `DecimalDigits` are the inverses the
    decoders are checked against. */
module LexerProperties {
  import opened Errors
  import opened Tokens
  import opened Lexer

  predicate AllAlpha(s: seq<char>) { forall i :: 0 <= i < |s| ==> IsAlpha(s[i]) }

  predicate AllDigits(s: seq<char>) { forall i :: 0 <= i < |s| ==> IsDigit(s[i]) }

  predicate AllWhitespace(s: seq<char>) { forall i :: 0 <= i < |s| ==> IsWhitespace(s[i]) }

  function Letter(v: nat): (c: char)
    requires 1 <= v <= 26
    ensures 'a' <= c <= 'z' && LetterValue(c) == v
  {
    (96 + v) as char
  }

  /** The letters naming the 1-indexed column `n` (`1` is "a", `27` is "aa"). */
  function ColumnLetters(n: nat): (s: seq<char>)
    requires n >= 1
    ensures s != [] && forall i :: 0 <= i < |s| ==> 'a' <= s[i] <= 'z'
    decreases n
  {
    if n <= 26 then [Letter(n)]
    else ColumnLetters((n - 1) / 26) + [Letter((n - 1) % 26 + 1)]
  }

  /** The decimal digits of `n`, without leading zeros. */
  function DecimalDigits(n: nat): (s: seq<char>)
    ensures s != [] && AllDigits(s)
    ensures n > 0 ==> s[0] != '0'
  {
    if n < 10 then ['0' + n as char]
    else DecimalDigits(n / 10) + ['0' + (n % 10) as char]
  }

  /** How a reference to 0-indexed column `col` and row `row` is written. */
  function RefText(col: nat, row: nat): seq<char> {
    ColumnLetters(col + 1) + DecimalDigits(row + 1)
  }

  // ---- column decoding ----

  /** Decoding the letters of a column gives the column back. */
  lemma {:induction false} ColumnNumberOfLetters(n: nat)
    requires n >= 1
    ensures ColumnNumber(ColumnLetters(n)) == n
    decreases n
  {
    var s := ColumnLetters(n);
    if n <= 26 {
      assert s[..0] == [];
    } else {
      var p := ColumnLetters((n - 1) / 26);
      assert s[..|s| - 1] == p;
      ColumnNumberOfLetters((n - 1) / 26);
    }
  }

  /** Encoding a decoded column gives its letters back, in lower case. */
  lemma {:induction false} LettersOfColumnNumber(s: seq<char>)
    requires s != [] && AllAlpha(s)
    ensures ColumnLetters(ColumnNumber(s)) == Lowercase(s)
    decreases |s|
  {
    var p, c := s[..|s| - 1], s[|s| - 1];
    var v := LetterValue(c);
    LowercaseLast(s);
    assert Letter(v) == ToLower(c);
    if p == [] {
      assert ColumnNumber(s) == v;
    } else {
      LettersOfColumnNumber(p);
      assert ColumnNumber(s) == 26 * ColumnNumber(p) + v;
      ColumnLettersStep(ColumnNumber(p), v);
    }
  }

  lemma LowercaseLast(s: seq<char>)
    requires s != []
    ensures Lowercase(s) == Lowercase(s[..|s| - 1]) + [ToLower(s[|s| - 1])]
  {
  }

  /** One more base-26 digit appends one letter. */
  lemma ColumnLettersStep(m: nat, v: int)
    requires m >= 1 && 1 <= v <= 26
    ensures ColumnLetters(26 * m + v) == ColumnLetters(m) + [Letter(v)]
  {
    DigitSplit(m, v);
  }

  /** Base-26 digits from 1 to 26: the last digit and the rest come back. */
  lemma DigitSplit(m: nat, v: int)
    requires m >= 1 && 1 <= v <= 26
    ensures 26 * m + v > 26
    ensures (26 * m + v - 1) / 26 == m && (26 * m + v - 1) % 26 + 1 == v
  {
  }

  /** Column decoding is injective up to letter case: two runs of letters
      naming the same column are the same letters. */
  lemma ColumnNumberInjective(s: seq<char>, t: seq<char>)
    requires s != [] && AllAlpha(s) && t != [] && AllAlpha(t)
    requires ColumnNumber(s) == ColumnNumber(t)
    ensures Lowercase(s) == Lowercase(t)
  {
    LettersOfColumnNumber(s);
    LettersOfColumnNumber(t);
  }

  /** `a` is column 0, `z` column 25 and `aa` column 26 once made 0-indexed;
      letter case does not matter. */
  lemma ColumnExamples()
    ensures ColumnNumber("a") - 1 == 0
    ensures ColumnNumber("z") - 1 == 25
    ensures ColumnNumber("aa") - 1 == 26
    ensures ColumnNumber("AA") - 1 == 26
  {
    assert "aa"[..1] == "a";
    assert "AA"[..1] == "A";
  }

  // ---- row decoding ----

  lemma {:induction false} DigitsValueOfDigits(n: nat)
    ensures DigitsValue(DecimalDigits(n)) == n
  {
    var s := DecimalDigits(n);
    if n >= 10 {
      assert s[..|s| - 1] == DecimalDigits(n / 10);
      DigitsValueOfDigits(n / 10);
    } else {
      assert s[..0] == [];
    }
  }

  lemma {:induction false} ZerosValue(zeros: seq<char>)
    requires forall i :: 0 <= i < |zeros| ==> zeros[i] == '0'
    ensures DigitsValue(zeros) == 0
  {
    if zeros != [] {
      ZerosValue(zeros[..|zeros| - 1]);
    }
  }

  // ---- spans over concatenations ----

  lemma {:induction false} SpanAppend(a: seq<char>, b: seq<char>, p: char -> bool)
    requires forall i :: 0 <= i < |a| ==> p(a[i])
    ensures Span(a + b, p) == |a| + Span(b, p)
  {
    var n := |a| + Span(b, p);
    assert forall i :: |a| <= i < n ==> (a + b)[i] == b[i - |a|];
    SpanIs(a + b, p, n);
  }

  lemma SpanStop(a: seq<char>, b: seq<char>, p: char -> bool)
    requires forall i :: 0 <= i < |a| ==> p(a[i])
    requires b == [] || !p(b[0])
    ensures Span(a + b, p) == |a|
  {
    SpanAppend(a, b, p);
  }

  // ---- references and ranges ----

  /** A run of letters naming column `col + 1` followed by a run of digits
      of value `row + 1` is the position `(col, row)`, and nothing after the
      digits is consumed. */
  lemma CellPositionOfRuns(letters: seq<char>, digits: seq<char>, rest: seq<char>, col: nat, row: nat)
    requires letters != [] && AllAlpha(letters) && ColumnNumber(letters) == col + 1
    requires digits != [] && AllDigits(digits) && DigitsValue(digits) == row + 1
    requires rest == [] || !IsDigit(rest[0])
    ensures LexCellPosition(letters + digits + rest) == (Ok((col, row)), rest)
  {
    var s := letters + digits + rest;
    var s1 := digits + rest;
    assert s == letters + s1;
    SpanStop(letters, s1, IsAlpha);
    var n := Span(s, IsAlpha);
    assert s[..n] == letters;
    assert s[n..] == s1;
    SpanStop(digits, rest, IsDigit);
    var m := Span(s1, IsDigit);
    assert s1[..m] == digits;
    assert s1[m..] == rest;
    assert ColumnNumber(s[..n]) == col + 1;
    assert DigitsValue(s1[..m]) == row + 1;
    assert LexCellPosition(s).0.Ok?;
    assert LexCellPosition(s).0.value.0 == col;
    assert LexCellPosition(s).0.value.1 == row;
  }

  /** A written reference decodes to the column and row it was written for,
      consuming exactly its own characters. */
  lemma CellPositionOfRefText(col: nat, row: nat, rest: seq<char>)
    requires rest == [] || !IsDigit(rest[0])
    ensures LexCellPosition(RefText(col, row) + rest) == (Ok((col, row)), rest)
  {
    var L, D := ColumnLetters(col + 1), DecimalDigits(row + 1);
    assert AllAlpha(L);
    ColumnNumberOfLetters(col + 1);
    DigitsValueOfDigits(row + 1);
    CellPositionOfRuns(L, D, rest, col, row);
  }

  /** A reference whose letters do not spell `sum`, followed by something
      that cannot continue it, is lexed to exactly that `CellRef`. */
  lemma LexRefText(col: nat, row: nat, rest: seq<char>)
    requires ColumnLetters(col + 1) != "sum"
    requires rest == [] || !(IsDigit(rest[0]) || rest[0] == ':')
    ensures LexNext(RefText(col, row) + rest) == (Some(Ok(CellRef(col, row))), rest)
  {
    var L := ColumnLetters(col + 1);
    var s := RefText(col, row) + rest;
    assert s == L + (DecimalDigits(row + 1) + rest);
    ColumnStartsReference(col + 1, DecimalDigits(row + 1) + rest);
    CellPositionOfRefText(col, row, rest);
  }

  /** The letters of a column other than `sum`, followed by a non-letter,
      start a reference. */
  lemma ColumnStartsReference(n: nat, tail: seq<char>)
    requires n >= 1 && ColumnLetters(n) != "sum"
    requires tail == [] || !IsAlpha(tail[0])
    ensures var s := ColumnLetters(n) + tail;
      LexNext(s) == (Some(LexCellReference(s).0), LexCellReference(s).1)
  {
    var L := ColumnLetters(n);
    var s := L + tail;
    SpanStop(L, tail, IsAlpha);
    assert s[..|L|] == L;
    assert Lowercase(L) == L;
    LexNextReference(s, |L|);
  }

  /** Input starting with a letter run that does not spell `sum` is lexed
      as a reference or a range. */
  lemma LexNextReference(s: seq<char>, n: nat)
    requires s != [] && IsAlpha(s[0])
    requires Span(s, IsAlpha) == n && Lowercase(s[..n]) != "sum"
    ensures LexNext(s) == (Some(LexCellReference(s).0), LexCellReference(s).1)
  {
    SpanStop([], s, IsWhitespace);
    assert Stripped(s) == s;
  }


  lemma RangeOfRefTexts(c1: nat, r1: nat, c2: nat, r2: nat, rest: seq<char>)
    requires rest == [] || !IsDigit(rest[0])
    ensures LexCellReference(RefText(c1, r1) + ":" + RefText(c2, r2) + rest)
         == (Ok(CellRange(Range(c1, c2 + 1), Range(r1, r2 + 1))), rest)
  {
    var second := RefText(c2, r2) + rest;
    var tail := ":" + second;
    var s := RefText(c1, r1) + tail;
    assert s == RefText(c1, r1) + ":" + RefText(c2, r2) + rest;
    CellPositionOfRefText(c1, r1, tail);
    assert tail[1..] == second;
    CellPositionOfRefText(c2, r2, rest);
    RangeOk(s, tail, c1, r1, c2, r2, rest);
  }

  /** At the start of the input (after whitespace), a range is one token. */
  lemma LexRangeText(c1: nat, r1: nat, c2: nat, r2: nat, rest: seq<char>)
    requires ColumnLetters(c1 + 1) != "sum"
    requires rest == [] || !IsDigit(rest[0])
    ensures LexNext(RefText(c1, r1) + ":" + RefText(c2, r2) + rest)
         == (Some(Ok(CellRange(Range(c1, c2 + 1), Range(r1, r2 + 1)))), rest)
  {
    var tail := DecimalDigits(r1 + 1) + ":" + RefText(c2, r2) + rest;
    var s := RefText(c1, r1) + ":" + RefText(c2, r2) + rest;
    assert s == ColumnLetters(c1 + 1) + tail;
    ColumnStartsReference(c1 + 1, tail);
    RangeOfRefTexts(c1, r1, c2, r2, rest);
  }

  /** A range whose second corner is not a reference is the error
      "Invalid cell range". */
  lemma BadSecondCorner(col: nat, row: nat, t: seq<char>)
    requires LexCellPosition(t).0.Err?
    ensures LexCellReference(RefText(col, row) + ":" + t).0 == Err(BadRange)
  {
    var tail := ":" + t;
    assert RefText(col, row) + ":" + t == RefText(col, row) + tail;
    CellPositionOfRefText(col, row, tail);
    assert tail[1..] == t;
  }

  /** Row 0, a missing row and a missing column are all rejected as an
      invalid cell reference. */
  lemma CellPositionErrors(letters: seq<char>, zeros: seq<char>, rest: seq<char>)
    requires letters != [] && AllAlpha(letters)
    requires zeros != [] && forall i :: 0 <= i < |zeros| ==> zeros[i] == '0'
    requires rest == [] || !(IsAlpha(rest[0]) || IsDigit(rest[0]))
    ensures LexCellPosition(letters + zeros + rest).0 == Err(BadReference)
    ensures LexCellPosition(letters + rest) == (Err(BadReference), rest)
    ensures LexCellPosition(rest) == (Err(BadReference), rest)
  {
    var s := letters + zeros + rest;
    assert s == letters + (zeros + rest);
    SpanStop(letters, zeros + rest, IsAlpha);
    assert s[|letters|..] == zeros + rest;
    SpanStop(zeros, rest, IsDigit);
    assert (zeros + rest)[..|zeros|] == zeros;
    ZerosValue(zeros);
    SpanStop(letters, rest, IsAlpha);
    assert (letters + rest)[|letters|..] == rest;
  }

  // ---- keyword, whitespace, punctuation, numbers ----

  /** An alphabetic run spelling `sum` in any letter case is the builtin
      function token and is consumed whole. */
  lemma LexSumKeyword(word: seq<char>, rest: seq<char>)
    requires |word| == 3 && Lowercase(word) == "sum"
    requires rest == [] || !IsAlpha(rest[0])
    ensures LexLiteral(word + rest) == (Ok(Sum), rest)
  {
    assert AllAlpha(word) by {
      forall i | 0 <= i < 3 ensures IsAlpha(word[i]) {
        assert ToLower(word[i]) == "sum"[i];
      }
    }
    SpanStop(word, rest, IsAlpha);
    assert (word + rest)[..3] == word && (word + rest)[3..] == rest;
  }

  /** Leading whitespace never changes the next token or what follows it. */
  lemma LexNextSkipsWhitespace(w: seq<char>, s: seq<char>)
    requires AllWhitespace(w)
    ensures LexNext(w + s) == LexNext(s)
  {
    SpanAppend(w, s, IsWhitespace);
    assert (w + s)[|w| + Span(s, IsWhitespace)..] == s[Span(s, IsWhitespace)..];
  }

  lemma LexSkipsWhitespace(w: seq<char>, s: seq<char>)
    requires AllWhitespace(w)
    ensures Lex(w + s) == Lex(s)
  {
    LexNextSkipsWhitespace(w, s);
  }

  /** A character that is neither whitespace, a letter nor a digit is one
      token (or one `InvalidCell` error) and consumes only itself. */
  lemma LexSingleCharacter(c: char, s: seq<char>)
    requires !IsWhitespace(c) && !IsAlpha(c) && !IsDigit(c)
    ensures LexNext([c] + s) == (Some(FromChar(c)), s)
  {
    SpanStop([], [c] + s, IsWhitespace);
    assert ([c] + s)[1..] == s;
  }

  /** The text the lexer hands to the decimal parser is always accepted: a
      number token never carries an error. */
  lemma LexedNumbersParse(s: seq<char>)
    requires s != [] && IsDigit(s[0])
    ensures LexNumber(s).0.Ok?
  {
    var n := Span(s, IsDigit);
    var whole := s[..n];
    var s1 := s[n..];
    if s1 != [] && s1[0] == '.' {
      var m := Span(s1[1..], IsDigit);
      var frac := s1[1..][..m];
      var text := whole + "." + frac;
      assert text == whole + ("." + frac);
      SpanStop(whole, "." + frac, IsDigit);
      assert text[n + 1..] == frac;
      SpanStop(frac, [], IsDigit);
      assert frac + [] == frac;
    } else {
      SpanStop(whole, [], IsDigit);
      assert whole + [] == whole;
    }
  }

  /** A natural number written in decimal lexes to that number. */
  lemma LexDecimalDigits(n: nat, rest: seq<char>)
    requires rest == [] || !(IsDigit(rest[0]) || rest[0] == '.')
    ensures LexNumber(DecimalDigits(n) + rest) == (Ok(Number(n as real)), rest)
  {
    var D := DecimalDigits(n);
    SpanStop(D, rest, IsDigit);
    assert (D + rest)[..|D|] == D && (D + rest)[|D|..] == rest;
    SpanStop(D, [], IsDigit);
    assert D + [] == D;
    DigitsValueOfDigits(n);
  }

  /** ... and so is the next token of input starting with them. */
  lemma LexNextDigits(n: nat, rest: seq<char>)
    requires rest == [] || !(IsDigit(rest[0]) || rest[0] == '.')
    ensures LexNext(DecimalDigits(n) + rest) == (Some(Ok(Number(n as real))), rest)
  {
    var s := DecimalDigits(n) + rest;
    SpanStop([], s, IsWhitespace);
    assert Stripped(s) == s;
    LexDecimalDigits(n, rest);
  }

  // ---- progress ----

  /** Every token consumes input, so there are never more tokens than
      characters. */
  lemma {:induction false} LexIsShort(s: seq<char>)
    ensures |Lex(s)| <= |s|
    decreases |s|
  {
    var (t, rest) := LexNext(s);
    if t.Some? {
      LexIsShort(rest);
    }
  }

  // ---- the examples of the tokenizer's own tests ----

  /** The stream is the next token followed by the stream of the rest. */
  lemma LexCons(s: seq<char>, t: Result<Token>, rest: seq<char>)
    requires LexNext(s) == (Some(t), rest)
    ensures Lex(s) == [t] + Lex(rest)
  {
  }

  lemma LexSingle(s: seq<char>, t: Result<Token>)
    requires LexNext(s) == (Some(t), [])
    ensures Lex(s) == [t]
  {
    LexCons(s, t, []);
    assert LexNext([]).0 == None;
  }

  lemma LexTwo(s: seq<char>, t1: Token, r1: seq<char>, t2: Token)
    requires LexNext(s) == (Some(Ok(t1)), r1)
    requires LexNext(r1) == (Some(Ok(t2)), [])
    ensures Lex(s) == [Ok(t1), Ok(t2)]
  {
    LexSingle(r1, Ok(t2));
    LexCons(s, Ok(t1), r1);
    assert [Ok(t1)] + [Ok(t2)] == [Ok(t1), Ok(t2)];
  }

  /** Three tokens in a row make the stream `[t1, t2, t3]`. */
  lemma LexThree(s: seq<char>, t1: Token, r1: seq<char>, t2: Token, r2: seq<char>, t3: Token)
    requires LexNext(s) == (Some(Ok(t1)), r1)
    requires LexNext(r1) == (Some(Ok(t2)), r2)
    requires LexNext(r2) == (Some(Ok(t3)), [])
    ensures Lex(s) == [Ok(t1), Ok(t2), Ok(t3)]
  {
    LexTwo(r1, t2, r2, t3);
    LexCons(s, Ok(t1), r1);
    assert [Ok(t1)] + [Ok(t2), Ok(t3)] == [Ok(t1), Ok(t2), Ok(t3)];
  }

  /** " aa12" is column 26, row 11. */
  lemma LexExampleReference()
    ensures Lex(" aa12") == [Ok(CellRef(26, 11))]
  {
    assert Stripped(" aa12") == "aa12" by {
      SpanStop(" ", "aa12", IsWhitespace);
      assert " " + "aa12" == " aa12";
      assert " aa12"[1..] == "aa12";
    }
    LexNextOfStripped(" aa12");
    LexReferenceAA12();
    LexSingle(" aa12", Ok(CellRef(26, 11)));
  }

  lemma LexReferenceAA12()
    ensures LexNext("aa12") == (Some(Ok(CellRef(26, 11))), [])
  {
    ReferenceText();
    LexRefText(26, 11, []);
  }

  lemma ReferenceText()
    ensures ColumnLetters(27) == "aa"
    ensures RefText(26, 11) + [] == "aa12"
  {
    assert ColumnLetters(27) == "aa";
    assert DecimalDigits(12) == "12";
  }

  lemma LexNextColumnRange()
    ensures LexNext("a1:a5") == (Some(Ok(CellRange(Range(0, 1), Range(0, 5)))), [])
  {
    ColumnRangeReference();
    SpanStop("a", "1:a5", IsAlpha);
    assert "a" + "1:a5" == "a1:a5";
    LexNextReference("a1:a5", 1);
  }

  lemma ColumnRangeReference()
    ensures LexCellReference("a1:a5") == (Ok(CellRange(Range(0, 1), Range(0, 5))), [])
  {
    ColumnRangeFirst();
    ColumnRangeSecond();
    assert ":a5"[1..] == "a5";
    RangeOk("a1:a5", ":a5", 0, 0, 0, 4, []);
  }

  lemma ColumnRangeFirst()
    ensures LexCellPosition("a1:a5") == (Ok((0, 0)), ":a5")
  {
    assert ColumnNumber("a") == 1 by { assert "a"[..0] == []; }
    assert DigitsValue("1") == 1 by { assert "1"[..0] == []; }
    assert "a" + "1" + ":a5" == "a1:a5";
    CellPositionOfRuns("a", "1", ":a5", 0, 0);
  }

  lemma ColumnRangeSecond()
    ensures LexCellPosition("a5") == (Ok((0, 4)), [])
  {
    assert ColumnNumber("a") == 1 by { assert "a"[..0] == []; }
    assert DigitsValue("5") == 5 by { assert "5"[..0] == []; }
    assert "a" + "5" + [] == "a5";
    CellPositionOfRuns("a", "5", [], 0, 4);
  }

  /** "a1:a5" spans one column and rows 0 to 5 (exclusive). */
  lemma LexExampleColumnRange()
    ensures Lex("  a1:a5") == [Ok(CellRange(Range(0, 1), Range(0, 5)))]
  {
    ColumnRangeAfterBlanks();
    LexSingle("  a1:a5", Ok(CellRange(Range(0, 1), Range(0, 5))));
  }

  lemma ColumnRangeAfterBlanks()
    ensures LexNext("  a1:a5") == (Some(Ok(CellRange(Range(0, 1), Range(0, 5)))), [])
  {
    assert Stripped("  a1:a5") == "a1:a5" by {
      SpanStop("  ", "a1:a5", IsWhitespace);
      assert "  " + "a1:a5" == "  a1:a5";
      assert "  a1:a5"[2..] == "a1:a5";
    }
    LexNextOfStripped("  a1:a5");
    LexNextColumnRange();
  }

  /** The next token depends only on the input past its leading whitespace. */
  lemma LexNextOfStripped(s: seq<char>)
    ensures LexNext(s) == LexNext(Stripped(s))
  {
    SpanStop([], Stripped(s), IsWhitespace);
    assert Stripped(Stripped(s)) == Stripped(s);
  }

  /** "a1:b22" spans columns 0 to 2 and rows 0 to 22 (exclusive). */
  lemma LexExampleBlockRange()
    ensures Lex("a1:b22") == [Ok(CellRange(Range(0, 2), Range(0, 22)))]
  {
    assert ColumnLetters(1) == "a" && ColumnLetters(2) == "b";
    assert DecimalDigits(1) == "1";
    assert DecimalDigits(22) == "22";
    assert RefText(0, 0) + ":" + RefText(1, 21) + [] == "a1:b22";
    LexRangeText(0, 0, 1, 21, []);
    LexSingle("a1:b22", Ok(CellRange(Range(0, 2), Range(0, 22))));
  }

  /** " 1.2" is the decimal 1.2. */
  lemma LexExampleDecimal()
    ensures Lex(" 1.2") == [Ok(Number(1.2))]
  {
    assert Stripped(" 1.2") == "1.2" by {
      SpanStop(" ", "1.2", IsWhitespace);
      assert " " + "1.2" == " 1.2";
      assert " 1.2"[1..] == "1.2";
    }
    LexNextOfStripped(" 1.2");
    LexDecimalOneTwo();
    LexSingle(" 1.2", Ok(Number(1.2)));
  }

  lemma LexDecimalOneTwo()
    ensures LexNext("1.2") == (Some(Ok(Number(1.2))), [])
  {
    assert LexNumber("1.2") == (Ok(Number(1.2)), []) by {
      DecimalOneTwo();
    }
    SpanStop([], "1.2", IsWhitespace);
    assert Stripped("1.2") == "1.2";
  }

  lemma DecimalOneTwo()
    ensures LexNumber("1.2") == (Ok(Number(1.2)), [])
  {
    SpanStop("1", ".2", IsDigit);
    assert "1.2" == "1" + ".2";
    assert "1.2"[..1] == "1" && "1.2"[1..] == ".2";
    SpanStop("2", [], IsDigit);
    assert ".2"[1..] == "2" + [];
    assert "1" + "." + "2" == "1.2";
    assert DigitsValue("12") == 12 by { assert "12"[..1] == "1"; }
    assert ParseDecimal("1.2") == Some(1.2) by {
      assert "1.2"[2..] == "2";
      assert "1.2"[..1] + "2" == "12";
    }
  }

  /** Because `sum` is tried first, a column spelled `sum` cannot be
      referenced: `sum1` is the builtin followed by the number 1. */
  lemma SumShadowsColumn()
    ensures Lex("sum1") == [Ok(Sum), Ok(Number(1.0))]
  {
    SpanStop([], "sum1", IsWhitespace);
    LexSumKeyword("sum", "1");
    assert "sum" + "1" == "sum1";
    SpanStop([], "1", IsWhitespace);
    LexDecimalDigits(1, []);
    assert DecimalDigits(1) + [] == "1";
    assert Lex("sum1") == [Ok(Sum)] + Lex("1");
    assert Lex("1") == [Ok(Number(1.0))] + Lex([]);
  }

  // ---- the operator and `sum` examples ----

  /** `sum` followed by a non-letter is the builtin token. */
  lemma LexNextSum(rest: seq<char>)
    requires rest == [] || !IsAlpha(rest[0])
    ensures LexNext("sum" + rest) == (Some(Ok(Sum)), rest)
  {
    SpanStop([], "sum" + rest, IsWhitespace);
    assert Stripped("sum" + rest) == "sum" + rest;
    LexSumKeyword("sum", rest);
  }

  /** After blanks, a reference that nothing continues is one `CellRef`. */
  lemma LexNextRefAfter(w: seq<char>, col: nat, row: nat, rest: seq<char>)
    requires AllWhitespace(w)
    requires ColumnLetters(col + 1) != "sum"
    requires rest == [] || !(IsDigit(rest[0]) || rest[0] == ':')
    ensures LexNext(w + RefText(col, row) + rest) == (Some(Ok(CellRef(col, row))), rest)
  {
    assert w + RefText(col, row) + rest == w + (RefText(col, row) + rest);
    LexNextSkipsWhitespace(w, RefText(col, row) + rest);
    LexRefText(col, row, rest);
  }

  lemma ExampleRefTexts()
    ensures RefText(0, 0) == "a1" && RefText(1, 2) == "b3"
    ensures RefText(1, 21) == "b22" && RefText(2, 2) == "c3"
    ensures ColumnLetters(1) == "a" && ColumnLetters(2) == "b" && ColumnLetters(3) == "c"
  {
    assert DecimalDigits(22) == "22";
  }

  /** `a1 op b3` after blanks is the reference a1, the operator and the
      reference b3, for each of the four arithmetic operators. */
  lemma LexCellOpCell(op: char)
    requires op == '+' || op == '-' || op == '/' || op == '*'
    ensures Lex("  a1 " + [op] + " b3") == [Ok(CellRef(0, 0)), FromChar(op), Ok(CellRef(1, 2))]
    ensures FromChar(op) == Ok(if op == '+' then Plus else if op == '-' then Minus
                               else if op == '/' then Slash else Star)
  {
    var t := if op == '+' then Plus else if op == '-' then Minus else if op == '/' then Slash else Star;
    var r1 := " " + [op] + " b3";
    OperatorText(op, t);
    LexNextBlankA1(r1);
    LexNextBlankOp(op, t);
    LexNextBlankB3();
    LexThree("  a1 " + [op] + " b3", CellRef(0, 0), r1, t, " b3", CellRef(1, 2));
  }

  lemma OperatorText(op: char, t: Token)
    requires op == '+' || op == '-' || op == '/' || op == '*'
    requires t == if op == '+' then Plus else if op == '-' then Minus else if op == '/' then Slash else Star
    ensures t.IsPunctuation() && Symbol(t) == op && FromChar(op) == Ok(t)
    ensures "  a1" + (" " + [op] + " b3") == "  a1 " + [op] + " b3"
  {
  }

  lemma LexNextBlankOp(op: char, t: Token)
    requires t.IsPunctuation() && Symbol(t) == op
    ensures LexNext(" " + [op] + " b3") == (Some(Ok(t)), " b3")
  {
    assert " " + [op] + " b3" == " " + ([op] + " b3");
    LexNextSkipsWhitespace(" ", [op] + " b3");
    LexNextPunctuation(op, t, " b3");
  }

  lemma LexNextBlankA1(rest: seq<char>)
    requires rest == [] || !(IsDigit(rest[0]) || rest[0] == ':')
    ensures LexNext("  a1" + rest) == (Some(Ok(CellRef(0, 0))), rest)
  {
    ExampleRefTexts();
    assert "  a1" + rest == "  " + RefText(0, 0) + rest;
    LexNextRefAfter("  ", 0, 0, rest);
  }

  lemma LexNextBlankB3()
    ensures LexNext(" b3") == (Some(Ok(CellRef(1, 2))), [])
  {
    ExampleRefTexts();
    assert " b3" == " " + RefText(1, 2) + [];
    LexNextRefAfter(" ", 1, 2, []);
  }

  /** A closing parenthesis, a plus and a reference: the common tail of
      the two `sum` examples. */
  lemma LexCloseAddRef(col: nat, row: nat)
    requires ColumnLetters(col + 1) != "sum"
    ensures Lex(")+" + RefText(col, row)) == [Ok(RightParen), Ok(Plus), Ok(CellRef(col, row))]
  {
    var r2 := RefText(col, row);
    assert ")+" + r2 == [Symbol(RightParen)] + ("+" + r2);
    LexNextPunctuation(')', RightParen, "+" + r2);
    assert "+" + r2 == [Symbol(Plus)] + r2;
    LexNextPunctuation('+', Plus, r2);
    LexNextRefAlone(col, row);
    LexThree(")+" + r2, RightParen, "+" + r2, Plus, r2, CellRef(col, row));
  }

  lemma LexNextRefAlone(col: nat, row: nat)
    requires ColumnLetters(col + 1) != "sum"
    ensures LexNext(RefText(col, row)) == (Some(Ok(CellRef(col, row))), [])
  {
    assert RefText(col, row) + [] == RefText(col, row);
    LexRefText(col, row, []);
  }

  /** Two tokens in a row are the head of the stream. */
  lemma LexConsTwo(s: seq<char>, t1: Result<Token>, r1: seq<char>, t2: Result<Token>, r2: seq<char>)
    requires LexNext(s) == (Some(t1), r1)
    requires LexNext(r1) == (Some(t2), r2)
    ensures Lex(s) == [t1, t2] + Lex(r2)
  {
    LexCons(r1, t2, r2);
    LexCons(s, t1, r1);
    ConsTwo(t1, t2, Lex(r2));
  }

  lemma ConsTwo<T>(a: T, b: T, x: seq<T>)
    ensures [a] + ([b] + x) == [a, b] + x
  {
  }

  /** After blanks, `sum(` is the builtin and an opening parenthesis. */
  lemma LexSumParen(w: seq<char>, rest: seq<char>)
    requires AllWhitespace(w)
    ensures Lex(w + "sum(" + rest) == [Ok(Sum), Ok(LeftParen)] + Lex(rest)
  {
    LexNextBlankSum(w, "(" + rest);
    assert w + "sum" + ("(" + rest) == w + "sum(" + rest;
    LexNextOpen(rest);
    LexConsTwo(w + "sum(" + rest, Ok(Sum), "(" + rest, Ok(LeftParen), rest);
  }

  lemma LexNextBlankSum(w: seq<char>, rest: seq<char>)
    requires AllWhitespace(w)
    requires rest == [] || !IsAlpha(rest[0])
    ensures LexNext(w + "sum" + rest) == (Some(Ok(Sum)), rest)
  {
    assert w + "sum" + rest == w + ("sum" + rest);
    LexNextSkipsWhitespace(w, "sum" + rest);
    LexNextSum(rest);
  }

  /** A single punctuation character as the next token. */
  lemma LexNextPunctuation(c: char, t: Token, rest: seq<char>)
    requires t.IsPunctuation() && Symbol(t) == c
    ensures LexNext([c] + rest) == (Some(Ok(t)), rest)
  {
    FromSymbol(t);
    LexSingleCharacter(c, rest);
  }

  lemma LexNextOpen(rest: seq<char>)
    ensures LexNext("(" + rest) == (Some(Ok(LeftParen)), rest)
  {
    assert "(" == [Symbol(LeftParen)];
    LexNextPunctuation('(', LeftParen, rest);
  }

  /** `sum(` over a range, then `)+` and a reference, after blanks. */
  lemma LexSumRangePlus(w: seq<char>, c1: nat, r1: nat, c2: nat, r2: nat, c3: nat, r3: nat)
    requires AllWhitespace(w)
    requires ColumnLetters(c1 + 1) != "sum" && ColumnLetters(c3 + 1) != "sum"
    ensures Lex(w + "sum(" + (RefText(c1, r1) + ":" + RefText(c2, r2) + (")+" + RefText(c3, r3))))
         == [Ok(Sum), Ok(LeftParen), Ok(CellRange(Range(c1, c2 + 1), Range(r1, r2 + 1))),
             Ok(RightParen), Ok(Plus), Ok(CellRef(c3, r3))]
  {
    var tail := ")+" + RefText(c3, r3);
    var inner := RefText(c1, r1) + ":" + RefText(c2, r2) + tail;
    var range := Ok(CellRange(Range(c1, c2 + 1), Range(r1, r2 + 1)));
    LexSumParen(w, inner);
    LexRangeText(c1, r1, c2, r2, tail);
    LexCons(inner, range, tail);
    LexCloseAddRef(c3, r3);
    SpliceSix(Ok(Sum), Ok(LeftParen), range, Ok(RightParen), Ok(Plus), Ok(CellRef(c3, r3)), Lex(inner));
  }

  /** `sum(` over a reference, a comma, blanks and a reference, then `)+`
      and a reference, after blanks. */
  lemma LexSumValuesPlus(w: seq<char>, v: seq<char>, c1: nat, r1: nat, c2: nat, r2: nat, c3: nat, r3: nat)
    requires AllWhitespace(w) && AllWhitespace(v)
    requires ColumnLetters(c1 + 1) != "sum" && ColumnLetters(c2 + 1) != "sum"
    requires ColumnLetters(c3 + 1) != "sum"
    ensures Lex(w + "sum(" + (RefText(c1, r1) + "," + (v + RefText(c2, r2) + (")+" + RefText(c3, r3)))))
         == [Ok(Sum), Ok(LeftParen), Ok(CellRef(c1, r1)), Ok(Comma), Ok(CellRef(c2, r2)),
             Ok(RightParen), Ok(Plus), Ok(CellRef(c3, r3))]
  {
    var inner := RefText(c1, r1) + "," + (v + RefText(c2, r2) + (")+" + RefText(c3, r3)));
    LexSumParen(w, inner);
    LexValuesPlus(v, c1, r1, c2, r2, c3, r3);
    SpliceTwo(Ok(Sum), Ok(LeftParen), Ok(CellRef(c1, r1)), Ok(Comma), Ok(CellRef(c2, r2)),
              Ok(RightParen), Ok(Plus), Ok(CellRef(c3, r3)), Lex(inner));
  }

  /** The arguments and the tail of the second `sum` example. */
  lemma LexValuesPlus(v: seq<char>, c1: nat, r1: nat, c2: nat, r2: nat, c3: nat, r3: nat)
    requires AllWhitespace(v)
    requires ColumnLetters(c1 + 1) != "sum" && ColumnLetters(c2 + 1) != "sum"
    requires ColumnLetters(c3 + 1) != "sum"
    ensures Lex(RefText(c1, r1) + "," + (v + RefText(c2, r2) + (")+" + RefText(c3, r3))))
         == [Ok(CellRef(c1, r1)), Ok(Comma), Ok(CellRef(c2, r2)), Ok(RightParen), Ok(Plus), Ok(CellRef(c3, r3))]
  {
    var tail := ")+" + RefText(c3, r3);
    var second := v + RefText(c2, r2) + tail;
    var s := RefText(c1, r1) + "," + second;
    LexNextRefComma(c1, r1, second);
    assert "," + second == [Symbol(Comma)] + second;
    LexNextPunctuation(',', Comma, second);
    LexConsTwo(s, Ok(CellRef(c1, r1)), "," + second, Ok(Comma), second);
    LexNextRefAfter(v, c2, r2, tail);
    LexCons(second, Ok(CellRef(c2, r2)), tail);
    LexCloseAddRef(c3, r3);
    SpliceSix(Ok(CellRef(c1, r1)), Ok(Comma), Ok(CellRef(c2, r2)), Ok(RightParen), Ok(Plus), Ok(CellRef(c3, r3)), Lex(second));
  }

  lemma LexNextRefComma(col: nat, row: nat, rest: seq<char>)
    requires ColumnLetters(col + 1) != "sum"
    ensures LexNext(RefText(col, row) + "," + rest) == (Some(Ok(CellRef(col, row))), "," + rest)
  {
    assert RefText(col, row) + "," + rest == RefText(col, row) + ("," + rest);
    LexRefText(col, row, "," + rest);
  }

  lemma SpliceTwo<T>(a: T, b: T, c: T, d: T, e: T, f: T, g: T, h: T, y: seq<T>)
    requires y == [c, d, e, f, g, h]
    ensures [a, b] + y == [a, b, c, d, e, f, g, h]
  {
  }

  lemma SpliceSix<T>(a: T, b: T, c: T, d: T, e: T, f: T, y: seq<T>)
    requires y == [c] + [d, e, f]
    ensures [a, b] + y == [a, b, c, d, e, f]
  {
  }

  /** "  sum(a1:b22)+c3" is sum, (, the range a1:b22, ), + and c3. */
  lemma LexExampleSumRange()
    ensures Lex("  sum(a1:b22)+c3")
         == [Ok(Sum), Ok(LeftParen), Ok(CellRange(Range(0, 2), Range(0, 22))),
             Ok(RightParen), Ok(Plus), Ok(CellRef(2, 2))]
  {
    ExampleRefTexts();
    assert "  sum(a1:b22)+c3" == "  " + "sum(" + (RefText(0, 0) + ":" + RefText(1, 21) + (")+" + RefText(2, 2)));
    LexSumRangePlus("  ", 0, 0, 1, 21, 2, 2);
  }

  /** "  sum(a1, b22)+c3" is sum, (, a1, the comma, b22, ), + and c3. */
  lemma LexExampleSumValues()
    ensures Lex("  sum(a1, b22)+c3")
         == [Ok(Sum), Ok(LeftParen), Ok(CellRef(0, 0)), Ok(Comma), Ok(CellRef(1, 21)),
             Ok(RightParen), Ok(Plus), Ok(CellRef(2, 2))]
  {
    ExampleRefTexts();
    assert "  sum(a1, b22)+c3" == "  " + "sum(" + (RefText(0, 0) + "," + (" " + RefText(1, 21) + (")+" + RefText(2, 2))));
    LexSumValuesPlus("  ", " ", 0, 0, 1, 21, 2, 2);
  }
}
