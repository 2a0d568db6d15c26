/** Properties of cell evaluation in a table (src/table.rs:52-87), stated
    on `TableSpec.Outcome` of the grid `Tables.Table.EvaluateCell` is called
    on, which is the value that method is proved to return. A formula is written here as the tree the parser builds; a
    reference `CellRef(c, r)` names grid row `c` and grid column `r`. */
module TableProperties {
  import opened Errors
  import opened Tokens
  import opened Ast
  import opened Grids
  import Cells
  import opened TableSpec
  import Tables
  import Lexer
  import ParserSpec
  import LexerProperties
  import ParserProperties

  /** The slot of a formula that has not been evaluated. */
  function Formula(source: string, e: Expr): Slot {
    Ok(Cells.Cell(source, Cells.CellKind.Expr(e, None)))
  }

  /** A formula without a result, outside the chain, is its tree
      evaluated with the cell added to the chain. */
  lemma OutcomeOfFormula(slots: seq<Slot>, rows: nat, cols: nat, chain: set<(nat, nat)>, p: (nat, nat), source: string, e: Expr)
    requires |slots| == rows * cols && p.0 < rows && p.1 < cols && p !in chain
    requires SlotAt(slots, rows, cols, p) == Formula(source, e)
    ensures Outcome(slots, rows, cols, chain, p.0, p.1) == Eval(e, CellLookup(slots, rows, cols, chain + {p}))
  {
    assert (p.0, p.1) == p;
  }

  /** Any other slot outside the chain is its own value. */
  lemma OutcomeOfValue(slots: seq<Slot>, rows: nat, cols: nat, chain: set<(nat, nat)>, p: (nat, nat))
    requires |slots| == rows * cols && p.0 < rows && p.1 < cols && p !in chain
    requires !Uncached(SlotAt(slots, rows, cols, p))
    ensures var s := SlotAt(slots, rows, cols, p);
      Outcome(slots, rows, cols, chain, p.0, p.1)
        == if s.Err? then Err(s.error)
           else match s.value.kind
             case Empty => Err(EmptyCellEvaluation)
             case Number(d) => Ok(d)
             case Expr(_, v) => v.value
  {
    assert (p.0, p.1) == p;
  }

  /** A formula that names its own cell is a cycle, reported at that cell. */
  lemma SelfReference(slots: seq<Slot>, rows: nat, cols: nat, row: nat, col: nat, source: string)
    requires |slots| == rows * cols && row < rows && col < cols
    requires SlotAt(slots, rows, cols, (row, col)) == Formula(source, Literal(CellRef(row, col)))
    ensures Outcome(slots, rows, cols, {}, row, col) == Err(RecursiveCellExpr(row, col))
  {
    var l := CellLookup(slots, rows, cols, {(row, col)});
    assert l(row, col) == Err(RecursiveCellExpr(row, col));
  }

  /** Two formulas naming each other: evaluating the first reaches the
      second, which finds the first already in the chain. */
  lemma MutualReference(slots: seq<Slot>, rows: nat, cols: nat, x: (nat, nat), y: (nat, nat), sx: string, sy: string)
    requires |slots| == rows * cols && x.0 < rows && x.1 < cols && y.0 < rows && y.1 < cols
    requires x != y
    requires SlotAt(slots, rows, cols, x) == Formula(sx, Literal(CellRef(y.0, y.1)))
    requires SlotAt(slots, rows, cols, y) == Formula(sy, Literal(CellRef(x.0, x.1)))
    ensures Outcome(slots, rows, cols, {}, x.0, x.1) == Err(RecursiveCellExpr(x.0, x.1))
  {
    OutcomeOfFormula(slots, rows, cols, {x}, y, sy, Literal(CellRef(x.0, x.1)));
    assert x in {x} + {y} && (x.0, x.1) == x;
    assert Outcome(slots, rows, cols, {x}, y.0, y.1) == Err(RecursiveCellExpr(x.0, x.1));
    OutcomeOfFormula(slots, rows, cols, {}, x, sx, Literal(CellRef(y.0, y.1)));
    assert {} + {x} == {x};
  }

  /** The same cycle under `run`, which evaluates the formula of `x` with an
      empty chain without putting `x` on it: what `x` stores is the cycle
      found at `y`. */
  lemma RunMutualReference(slots: seq<Slot>, rows: nat, cols: nat, x: (nat, nat), y: (nat, nat), sx: string, sy: string)
    requires |slots| == rows * cols && x.0 < rows && x.1 < cols && y.0 < rows && y.1 < cols
    requires x != y
    requires SlotAt(slots, rows, cols, x) == Formula(sx, Literal(CellRef(y.0, y.1)))
    requires SlotAt(slots, rows, cols, y) == Formula(sy, Literal(CellRef(x.0, x.1)))
    ensures Single(Evaluate(Literal(CellRef(y.0, y.1)), CellLookup(slots, rows, cols, {}))) == Err(RecursiveCellExpr(y.0, y.1))
  {
    MutualReference(slots, rows, cols, y, x, sy, sx);
  }

  /** A stored error can depend on the chain it was found under. After
      `evaluate_cell(x, {})` on a two-cell cycle both cells hold the error
      found at `x`; evaluating `y` then returns that stored error, while the
      grid before gives the cycle found at `y`. */
  lemma StoredCycleError(slots: seq<Slot>, rows: nat, cols: nat, x: (nat, nat), y: (nat, nat), sx: string, sy: string)
    requires |slots| == rows * cols && x.0 < rows && x.1 < cols && y.0 < rows && y.1 < cols
    requires x != y
    requires SlotAt(slots, rows, cols, x) == Formula(sx, Literal(CellRef(y.0, y.1)))
    requires SlotAt(slots, rows, cols, y) == Formula(sy, Literal(CellRef(x.0, x.1)))
    ensures FlatIndex(cols, x.0, x.1) < |slots| && FlatIndex(cols, y.0, y.1) < |slots|
    ensures var e := Err(RecursiveCellExpr(x.0, x.1));
      var b := slots[FlatIndex(cols, x.0, x.1) := Cached(SlotAt(slots, rows, cols, x), e)]
                    [FlatIndex(cols, y.0, y.1) := Cached(SlotAt(slots, rows, cols, y), e)];
      Outcome(slots, rows, cols, {}, y.0, y.1) == Err(RecursiveCellExpr(y.0, y.1))
      && Outcome(b, rows, cols, {}, y.0, y.1) == e
      && e != Err(RecursiveCellExpr(y.0, y.1))
  {
    IndexInBounds(rows, cols, x.0, x.1);
    IndexInBounds(rows, cols, y.0, y.1);
    MutualReference(slots, rows, cols, y, x, sy, sx);
    var e := Err(RecursiveCellExpr(x.0, x.1));
    var b := slots[FlatIndex(cols, x.0, x.1) := Cached(SlotAt(slots, rows, cols, x), e)]
                  [FlatIndex(cols, y.0, y.1) := Cached(SlotAt(slots, rows, cols, y), e)];
    assert SlotAt(b, rows, cols, y) == Cached(SlotAt(slots, rows, cols, y), e);
    OutcomeOfValue(b, rows, cols, {}, y);
  }

  /** Every lookup gets a chain of its own: a formula that names the same
      cell twice evaluates it twice without seeing a cycle. */
  lemma RepeatedReference(slots: seq<Slot>, rows: nat, cols: nat, x: (nat, nat), y: (nat, nat), sx: string, sy: string, d: real)
    requires |slots| == rows * cols && x.0 < rows && x.1 < cols && y.0 < rows && y.1 < cols
    requires x != y
    requires SlotAt(slots, rows, cols, x)
          == Formula(sx, Binary(Literal(CellRef(y.0, y.1)), Plus, Literal(CellRef(y.0, y.1))))
    requires SlotAt(slots, rows, cols, y) == Formula(sy, Literal(Number(d)))
    ensures Outcome(slots, rows, cols, {}, x.0, x.1) == Ok(d + d)
  {
    OutcomeOfFormula(slots, rows, cols, {x}, y, sy, Literal(Number(d)));
    assert Outcome(slots, rows, cols, {x}, y.0, y.1) == Ok(d);
    OutcomeOfFormula(slots, rows, cols, {}, x, sx, Binary(Literal(CellRef(y.0, y.1)), Plus, Literal(CellRef(y.0, y.1))));
  }

  /** A formula whose first operand names an empty cell fails with
      `EmptyCellEvaluation`, whatever the rest of it is. */
  lemma ReferenceToEmpty(slots: seq<Slot>, rows: nat, cols: nat, x: (nat, nat), y: (nat, nat), sx: string, op: Token, rhs: Expr)
    requires |slots| == rows * cols && x.0 < rows && x.1 < cols && y.0 < rows && y.1 < cols
    requires x != y
    requires SlotAt(slots, rows, cols, x) == Formula(sx, Binary(Literal(CellRef(y.0, y.1)), op, rhs))
    requires SlotAt(slots, rows, cols, y) == Ok(Cells.Cell("", Cells.CellKind.Empty))
    ensures Outcome(slots, rows, cols, {}, x.0, x.1) == Err(EmptyCellEvaluation)
  {
    OutcomeOfValue(slots, rows, cols, {x}, y);
    OutcomeOfFormula(slots, rows, cols, {}, x, sx, Binary(Literal(CellRef(y.0, y.1)), op, rhs));
  }

  /** A construction error in a cell reaches every formula that uses it. */
  lemma ReferenceToBadCell(slots: seq<Slot>, rows: nat, cols: nat, x: (nat, nat), y: (nat, nat), sx: string, e: TableError)
    requires |slots| == rows * cols && x.0 < rows && x.1 < cols && y.0 < rows && y.1 < cols
    requires x != y
    requires SlotAt(slots, rows, cols, x) == Formula(sx, Unary(Minus, Literal(CellRef(y.0, y.1))))
    requires SlotAt(slots, rows, cols, y) == Err(e)
    ensures Outcome(slots, rows, cols, {}, x.0, x.1) == Err(e)
  {
    OutcomeOfValue(slots, rows, cols, {x}, y);
    OutcomeOfFormula(slots, rows, cols, {}, x, sx, Unary(Minus, Literal(CellRef(y.0, y.1))));
  }

  lemma NewNumberCell(n: nat, text: string)
    requires text == LexerProperties.DecimalDigits(n)
    ensures Cells.NewCell(text) == Ok(Cells.Cell(text, Cells.CellKind.Number(n as real)))
  {
    Cells.NumberCell(n);
  }

  lemma NewSumOfReferences()
    ensures Cells.NewCell("=a1+a2") == Ok(Cells.Cell("=a1+a2", Cells.CellKind.Expr(
      Binary(Literal(CellRef(0, 0)), Plus, Literal(CellRef(0, 1))), None)))
  {
    LexSumOfReferences();
    ParserProperties.ParseSimpleOperation(CellRef(0, 0), Plus, CellRef(0, 1), false);
    assert "=a1+a2"[1..] == "a1+a2";
  }

  lemma LexSumOfReferences()
    ensures Lexer.Lex("a1+a2") == ParserProperties.Items([CellRef(0, 0), Plus, CellRef(0, 1)])
  {
    LexA1();
    LexerProperties.LexSingleCharacter('+', "a2");
    assert ['+'] + "a2" == "+a2";
    LexA2();
    LexerProperties.LexThree("a1+a2", CellRef(0, 0), "+a2", Plus, "a2", CellRef(0, 1));
    ParserProperties.ItemsOfThree(CellRef(0, 0), Plus, CellRef(0, 1));
  }

  lemma LexA1()
    ensures Lexer.LexNext("a1+a2") == (Some(Ok(CellRef(0, 0))), "+a2")
  {
    assert LexerProperties.ColumnLetters(1) == "a" && LexerProperties.DecimalDigits(1) == "1";
    assert LexerProperties.RefText(0, 0) + "+a2" == "a1+a2";
    LexerProperties.LexRefText(0, 0, "+a2");
  }

  lemma LexA2()
    ensures Lexer.LexNext("a2") == (Some(Ok(CellRef(0, 1))), [])
  {
    assert LexerProperties.ColumnLetters(1) == "a" && LexerProperties.DecimalDigits(2) == "2";
    assert LexerProperties.RefText(0, 1) + [] == "a2";
    LexerProperties.LexRefText(0, 1, []);
  }

  lemma NewReferencePlusThree()
    ensures Cells.NewCell("=b1+3") == Ok(Cells.Cell("=b1+3", Cells.CellKind.Expr(
      Binary(Literal(CellRef(1, 0)), Plus, Literal(Number(3.0))), None)))
  {
    LexReferencePlusThree();
    ParserProperties.ParseSimpleOperation(CellRef(1, 0), Plus, Number(3.0), false);
    assert "=b1+3"[1..] == "b1+3";
  }

  lemma LexReferencePlusThree()
    ensures Lexer.Lex("b1+3") == ParserProperties.Items([CellRef(1, 0), Plus, Number(3.0)])
  {
    LexB1();
    LexerProperties.LexSingleCharacter('+', "3");
    assert ['+'] + "3" == "+3";
    LexThreeDigit();
    LexerProperties.LexThree("b1+3", CellRef(1, 0), "+3", Plus, "3", Number(3.0));
    ParserProperties.ItemsOfThree(CellRef(1, 0), Plus, Number(3.0));
  }

  lemma LexB1()
    ensures Lexer.LexNext("b1+3") == (Some(Ok(CellRef(1, 0))), "+3")
  {
    assert LexerProperties.ColumnLetters(2) == "b" && LexerProperties.DecimalDigits(1) == "1";
    assert LexerProperties.RefText(1, 0) + "+3" == "b1+3";
    LexerProperties.LexRefText(1, 0, "+3");
  }

  lemma LexThreeDigit()
    ensures Lexer.LexNext("3") == (Some(Ok(Number(3.0))), [])
  {
    assert LexerProperties.DecimalDigits(3) + [] == "3";
    LexerProperties.LexNextDigits(3, []);
  }

  /** The two-by-two sheet `1|2` over `=a1+a2|=b1+3`. */
  const Sheet: seq<seq<string>> := [["1", "2"], ["=a1+a2", "=b1+3"]]

  function SheetSlots(): (slots: seq<Slot>)
    ensures |slots| == 2 * 2
  {
    Tables.FlattenShape(Sheet, 2);
    Tables.Flatten(Sheet)
  }

  /** Rows pushed one after the other, as `new_interpet` does. */
  lemma TwoByTwoLayout(a: string, b: string, c: string, d: string)
    ensures Tables.Flatten([[a, b], [c, d]])
         == [Cells.NewCell(a), Cells.NewCell(b), Cells.NewCell(c), Cells.NewCell(d)]
  {
    var sheet := [[a, b], [c, d]];
    assert Tables.Flatten([[a, b]]) == [Cells.NewCell(a), Cells.NewCell(b)] by {
      FlattenSnoc([], [a, b]);
      assert [] + [[a, b]] == [[a, b]];
      RowOfTwo(a, b);
    }
    assert Tables.Flatten(sheet) == Tables.Flatten([[a, b]]) + Tables.RowCells([c, d]) by {
      FlattenSnoc([[a, b]], [c, d]);
      assert [[a, b]] + [[c, d]] == sheet;
    }
    RowOfTwo(c, d);
    JoinPairs(Cells.NewCell(a), Cells.NewCell(b), Cells.NewCell(c), Cells.NewCell(d));
  }

  lemma JoinPairs<T>(p: T, q: T, r: T, t: T)
    ensures [p, q] + [r, t] == [p, q, r, t]
  {
  }

  lemma RowOfTwo(x: string, y: string)
    ensures Tables.RowCells([x, y]) == [Cells.NewCell(x), Cells.NewCell(y)]
  {
  }

  lemma FlattenSnoc(source: seq<seq<string>>, row: seq<string>)
    ensures Tables.Flatten(source + [row]) == Tables.Flatten(source) + Tables.RowCells(row)
  {
    assert (source + [row])[..|source|] == source;
  }

  lemma SheetCells()
    ensures SheetSlots() == [
      Ok(Cells.Cell("1", Cells.CellKind.Number(1.0))),
      Ok(Cells.Cell("2", Cells.CellKind.Number(2.0))),
      Formula("=a1+a2", Binary(Literal(CellRef(0, 0)), Plus, Literal(CellRef(0, 1)))),
      Formula("=b1+3", Binary(Literal(CellRef(1, 0)), Plus, Literal(Number(3.0))))]
  {
    TwoByTwoLayout("1", "2", "=a1+a2", "=b1+3");
    NewNumberCell(1, "1");
    NewNumberCell(2, "2");
    NewSumOfReferences();
    NewReferencePlusThree();
  }

  /** The values of the two formulas of any grid laid out as the sheet. */
  lemma SheetFormulas(s: seq<Slot>, one: string, two: string, sum: string, plus: string)
    requires s == SheetLayout(one, two, sum, plus)
    ensures |s| == 2 * 2
    ensures Outcome(s, 2, 2, {}, 1, 0) == Ok(3.0)
    ensures Outcome(s, 2, 2, {}, 1, 1) == Ok(6.0)
  {
    SheetSum(s, one, two, sum, plus, {});
    SheetPlus(s, one, two, sum, plus);
  }

  function SheetLayout(one: string, two: string, sum: string, plus: string): (s: seq<Slot>)
    ensures |s| == 2 * 2
  {
    [Ok(Cells.Cell(one, Cells.CellKind.Number(1.0))),
     Ok(Cells.Cell(two, Cells.CellKind.Number(2.0))),
     Formula(sum, Binary(Literal(CellRef(0, 0)), Plus, Literal(CellRef(0, 1)))),
     Formula(plus, Binary(Literal(CellRef(1, 0)), Plus, Literal(Number(3.0))))]
  }

  /** `=a1+a2` at grid row 1, column 0 adds the two numbers of row 0. */
  lemma SheetSum(s: seq<Slot>, one: string, two: string, sum: string, plus: string, chain: set<(nat, nat)>)
    requires s == SheetLayout(one, two, sum, plus)
    requires (1, 0) !in chain && (0, 0) !in chain && (0, 1) !in chain
    ensures Outcome(s, 2, 2, chain, 1, 0) == Ok(3.0)
  {
    assert SlotAt(s, 2, 2, (0, 0)) == s[0] && SlotAt(s, 2, 2, (0, 1)) == s[1];
    assert SlotAt(s, 2, 2, (1, 0)) == s[2];
    OutcomeOfValue(s, 2, 2, chain + {(1, 0)}, (0, 0));
    OutcomeOfValue(s, 2, 2, chain + {(1, 0)}, (0, 1));
    OutcomeOfFormula(s, 2, 2, chain, (1, 0), sum, Binary(Literal(CellRef(0, 0)), Plus, Literal(CellRef(0, 1))));
  }

  /** `=b1+3` at grid row 1, column 1 reads grid row 1, column 0. */
  lemma SheetPlus(s: seq<Slot>, one: string, two: string, sum: string, plus: string)
    requires s == SheetLayout(one, two, sum, plus)
    ensures Outcome(s, 2, 2, {}, 1, 1) == Ok(6.0)
  {
    assert SlotAt(s, 2, 2, (1, 1)) == s[3];
    SheetSum(s, one, two, sum, plus, {(1, 1)});
    OutcomeOfFormula(s, 2, 2, {}, (1, 1), plus, Binary(Literal(CellRef(1, 0)), Plus, Literal(Number(3.0))));
    assert {} + {(1, 1)} == {(1, 1)};
  }

  /** In the sheet above, `a2` names grid row 0, column 1 (the `2`), so
      `=a1+a2` is 3; and `b1` names grid row 1, column 0 (the cell holding
      `=a1+a2`, not the `2`), so `=b1+3` is 6. */
  lemma SheetValues()
    ensures Outcome(SheetSlots(), 2, 2, {}, 1, 0) == Ok(3.0)
    ensures Outcome(SheetSlots(), 2, 2, {}, 1, 1) == Ok(6.0)
  {
    SheetCells();
    SheetFormulas(SheetSlots(), "1", "2", "=a1+a2", "=b1+3");
  }
}
