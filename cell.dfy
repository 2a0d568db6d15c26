/** Cells: what one `|`-separated field of the sheet's text becomes
    (src/cell.rs). The first character decides the kind: nothing at all is an
    empty cell, `=` starts a formula, a digit starts a number. A formula is
    read with the restricted parser of src/ast.rs (no call level), because
    that is the parser src/cell.rs imports. */
module Cells {
  import opened Errors
  import Tokens
  import Lexer
  import Ast
  import ParserSpec
  import LexerProperties
  import ParserProperties

  /** `CellKind`: a formula carries its cached result, `None` until the
      table evaluates it. */
  datatype CellKind =
    | Empty
    | Expr(expr: Ast.Expr, result: Option<Result<real>>)
    | Number(value: real)

  /** A cell keeps the text it was read from. */
  datatype Cell = Cell(source: string, kind: CellKind)

  /** `parse_expr`: tokenize and parse the text after `=`; the result is not
      yet evaluated. */
  function ParseFormula(text: seq<char>): (r: Result<CellKind>)
    ensures r.Ok? ==> r.value.Expr? && r.value.result == None
    ensures r.Ok? ==> ParserSpec.WellFormed(r.value.expr, false)
    ensures r.Err? <==> ParserSpec.Parse(Lexer.Lex(text), false).Err?
  {
    match ParserSpec.Parse(Lexer.Lex(text), false)
    case Err(e) => Err(e)
    case Ok(e) => Ok(Expr(e, None))
  }

  /** `parse_number`: the whole text must be a decimal number. */
  function ParseNumber(text: seq<char>): (r: Result<CellKind>)
    ensures r.Ok? <==> Lexer.ParseDecimal(text).Some?
    ensures r.Ok? ==> r.value == Number(Lexer.ParseDecimal(text).value)
    ensures r.Err? ==> r.error == InvalidCell("Could not format " + text + " as a valid number")
  {
    match Lexer.ParseDecimal(text)
    case None => Err(InvalidCell("Could not format " + text + " as a valid number"))
    case Some(d) => Ok(Number(d))
  }

  /** `Cell::new_expr`. A leading character that is neither `=` nor a digit
      is not implemented by the source; here it is the error
      `UnimplementedCellKind`. */
  function NewCell(source: string): (r: Result<Cell>)
    ensures r.Ok? ==> r.value.source == source
    ensures r.Ok? && r.value.kind.Empty? <==> source == []
    ensures r.Ok? && r.value.kind.Expr? ==>
      source[0] == '=' && r.value.kind.result == None
      && ParserSpec.Parse(Lexer.Lex(source[1..]), false) == Ok(r.value.kind.expr)
    ensures r.Ok? && r.value.kind.Number? ==>
      Tokens.IsDigit(source[0]) && Lexer.ParseDecimal(source) == Some(r.value.kind.value)
    ensures source != [] && source[0] == '=' ==>
      (r.Err? <==> ParserSpec.Parse(Lexer.Lex(source[1..]), false).Err?)
    ensures source != [] && source[0] != '=' && !Tokens.IsDigit(source[0]) ==>
      r == Err(UnimplementedCellKind)
  {
    if source == [] then Ok(Cell(source, Empty))
    else
      var kind :=
        if source[0] == '=' then ParseFormula(source[1..])
        else if Tokens.IsDigit(source[0]) then ParseNumber(source)
        else Err(UnimplementedCellKind);
      match kind
      case Err(e) => Err(e)
      case Ok(k) => Ok(Cell(source, k))
  }

  /** `Display for Cell`: the source text, whatever the kind. */
  function Display(cell: Cell): string {
    cell.source
  }

  /** Displaying a freshly built cell gives back the text it was built
      from. */
  lemma DisplayRoundTrip(source: string)
    requires NewCell(source).Ok?
    ensures Display(NewCell(source).value) == source
  {
  }

  /** A formula cell holds a tree with no call in it and whose operators
      are all arithmetic. */
  lemma FormulaIsRestricted(source: string)
    requires NewCell(source).Ok? && NewCell(source).value.kind.Expr?
    ensures ParserSpec.WellFormed(NewCell(source).value.kind.expr, false)
  {
    var k := ParseFormula(source[1..]);
  }

  /** The digits of any natural number make a number cell of that value. */
  lemma NumberCell(n: nat)
    ensures NewCell(LexerProperties.DecimalDigits(n))
         == Ok(Cell(LexerProperties.DecimalDigits(n), Number(n as real)))
  {
    var D := LexerProperties.DecimalDigits(n);
    LexerProperties.SpanStop(D, [], Tokens.IsDigit);
    assert D + [] == D;
    LexerProperties.DigitsValueOfDigits(n);
    assert Lexer.ParseDecimal(D) == Some(n as real);
  }

  /** `=1+2` is the formula `1 + 2`, not yet evaluated, and it evaluates to
      3 whatever the other cells hold. */
  lemma FormulaExample(lookup: Ast.Lookup)
    ensures NewCell("=1+2") == Ok(Cell("=1+2", Expr(
      Ast.Binary(Ast.Literal(Tokens.Number(1.0)), Tokens.Plus, Ast.Literal(Tokens.Number(2.0))), None)))
    ensures Ast.Eval(NewCell("=1+2").value.kind.expr, lookup) == Ok(3.0)
  {
    var one := Ast.Literal(Tokens.Number(1.0));
    var two := Ast.Literal(Tokens.Number(2.0));
    LexOnePlusTwo();
    ParserProperties.ParseSimpleOperation(Tokens.Number(1.0), Tokens.Plus, Tokens.Number(2.0), false);
    assert "=1+2"[1..] == "1+2";
    assert Ast.Eval(Ast.Binary(one, Tokens.Plus, two), lookup) == Ok(3.0);
  }

  lemma LexOnePlusTwo()
    ensures Lexer.Lex("1+2") == ParserProperties.Items([Tokens.Number(1.0), Tokens.Plus, Tokens.Number(2.0)])
  {
    LexOneOfOnePlusTwo();
    LexerProperties.LexSingleCharacter('+', "2");
    assert ['+'] + "2" == "+2";
    LexLoneTwo();
    LexerProperties.LexThree("1+2", Tokens.Number(1.0), "+2", Tokens.Plus, "2", Tokens.Number(2.0));
    ParserProperties.ItemsOfThree(Tokens.Number(1.0), Tokens.Plus, Tokens.Number(2.0));
  }

  lemma LexOneOfOnePlusTwo()
    ensures Lexer.LexNext("1+2") == (Some(Ok(Tokens.Number(1.0))), "+2")
  {
    assert LexerProperties.DecimalDigits(1) + "+2" == "1+2";
    LexerProperties.LexNextDigits(1, "+2");
  }

  lemma LexLoneTwo()
    ensures Lexer.LexNext("2") == (Some(Ok(Tokens.Number(2.0))), [])
  {
    assert LexerProperties.DecimalDigits(2) + [] == "2";
    LexerProperties.LexNextDigits(2, []);
  }

  /** A formula cannot call `sum`: the parser cells use has no call level,
      so the keyword cannot start an expression. */
  lemma FormulaCannotCall(tail: seq<char>)
    requires tail == [] || !Tokens.IsAlpha(tail[0])
    ensures NewCell("=sum" + tail) == Err(ParserSpec.InvalidPrimary)
  {
    var text := "sum" + tail;
    assert ("=sum" + tail)[1..] == text;
    LexerProperties.SpanStop([], text, Tokens.IsWhitespace);
    LexerProperties.LexSumKeyword("sum", tail);
    var (t, rest) := Lexer.LexNext(text);
    assert t == Some(Ok(Tokens.Sum)) && rest == tail;
    assert Lexer.Lex(text) == [Ok(Tokens.Sum)] + Lexer.Lex(tail);
    ParserProperties.InvalidFirstToken(Tokens.Sum, Lexer.Lex(tail), false);
  }
}
