/** The table driver (src/table.rs): building the grid of cells from the
    sheet's rows, evaluating one cell with memoisation and cycle detection,
    and evaluating every formula of the sheet.

    `EvaluateCell` and `EvalExpr` call each other as `evaluate_cell` and
    the lookup it hands to `Expr::eval` do: `EvalExpr` walks a formula in
    the order `Ast.Eval` does and evaluates a reference by calling
    `EvaluateCell` with the reference's first component as the row. Every
    method is proved to return the value `TableSpec.Outcome` assigns in the
    grid it is called on, and the same value in the grid it leaves behind;
    it changes the grid only by storing results in formulas that had none,
    and after a value every result it stored is sound (`TableSpec.Sound`),
    so no cell that can still be reached has changed its value. */
module Tables {
  import opened Errors
  import opened Tokens
  import opened Ast
  import opened Grids
  import Cells
  import opened TableSpec

  /** One cell per field, the rows one after the other: the order in which
      `new_interpet` pushes them. */
  function RowCells(row: seq<string>): (cells: seq<Slot>)
    ensures |cells| == |row|
    ensures forall j :: 0 <= j < |row| ==> cells[j] == Cells.NewCell(row[j])
  {
    seq(|row|, j requires 0 <= j < |row| => Cells.NewCell(row[j]))
  }

  function Flatten(source: seq<seq<string>>): seq<Slot> {
    if source == [] then []
    else Flatten(source[..|source| - 1]) + RowCells(source[|source| - 1])
  }

  /** Every row has as many fields as the first. */
  predicate Uniform(source: seq<seq<string>>) {
    forall i :: 0 <= i < |source| ==> |source[i]| == |source[0]|
  }

  /** A formula has the same value in a soundly evolved grid. */
  lemma SoundEval(e: Expr, a: seq<Slot>, b: seq<Slot>, rows: nat, cols: nat, chain: set<(nat, nat)>)
    requires |a| == rows * cols && Evolves(a, b) && Sound(a, b, rows, cols, chain)
    ensures Eval(e, CellLookup(b, rows, cols, chain)) == Eval(e, CellLookup(a, rows, cols, chain))
  {
    var lb, la := CellLookup(b, rows, cols, chain), CellLookup(a, rows, cols, chain);
    forall q: (nat, nat)
      ensures lb(q.0, q.1) == la(q.0, q.1)
    {
      SoundAgrees(a, b, rows, cols, chain, chain, q.0, q.1);
    }
    EvalLocal(e, lb, la);
  }

  /** Cells pushed row by row sit where the grid looks for them: the cell
      of field `c` of row `r` is at `(r, c)`. */
  lemma {:induction false} FlattenShape(source: seq<seq<string>>, cols: nat)
    requires forall i :: 0 <= i < |source| ==> |source[i]| == cols
    ensures |Flatten(source)| == |source| * cols
    ensures forall r, c :: 0 <= r < |source| && 0 <= c < cols ==>
      FlatIndex(cols, r, c) < |Flatten(source)| && Flatten(source)[FlatIndex(cols, r, c)] == Cells.NewCell(source[r][c])
  {
    if source != [] {
      var n := |source| - 1;
      FlattenShape(source[..n], cols);
      forall r, c | 0 <= r < |source| && 0 <= c < cols
        ensures FlatIndex(cols, r, c) < |Flatten(source)|
        ensures Flatten(source)[FlatIndex(cols, r, c)] == Cells.NewCell(source[r][c])
      {
        FlattenSlot(source, cols, r, c);
      }
      FlattenLength(source, cols);
    }
  }

  /** The step of `FlattenShape`: the length after one more row. */
  lemma FlattenLength(source: seq<seq<string>>, cols: nat)
    requires source != [] && |source[|source| - 1]| == cols
    requires |Flatten(source[..|source| - 1])| == (|source| - 1) * cols
    ensures |Flatten(source)| == |source| * cols
  {
    RowsTimesColumns(|source| - 1, cols);
  }

  /** The step of `FlattenShape`: a slot of an earlier row is where it
      was, and a slot of the new row is in the block appended last. */
  lemma FlattenSlot(source: seq<seq<string>>, cols: nat, r: nat, c: nat)
    requires source != [] && r < |source| && c < cols
    requires forall i :: 0 <= i < |source| ==> |source[i]| == cols
    requires var init := source[..|source| - 1];
      |Flatten(init)| == |init| * cols
      && forall r', c' :: 0 <= r' < |init| && 0 <= c' < cols ==>
        FlatIndex(cols, r', c') < |Flatten(init)| && Flatten(init)[FlatIndex(cols, r', c')] == Cells.NewCell(init[r'][c'])
    ensures FlatIndex(cols, r, c) < |Flatten(source)|
    ensures Flatten(source)[FlatIndex(cols, r, c)] == Cells.NewCell(source[r][c])
  {
    var n := |source| - 1;
    var init := source[..n];
    FlattenUnfold(source);
    AppendedSlot(Flatten(init), RowCells(source[n]), n, cols, r, c);
    if r < n {
      assert init[r] == source[r];
    }
  }

  lemma FlattenUnfold(source: seq<seq<string>>)
    requires source != []
    ensures Flatten(source) == Flatten(source[..|source| - 1]) + RowCells(source[|source| - 1])
  {
  }

  /** Where `(r, c)` lands once a row of `cols` slots is appended to `n`
      full rows. */
  lemma AppendedSlot<T>(front: seq<T>, last: seq<T>, n: nat, cols: nat, r: nat, c: nat)
    requires |front| == n * cols && |last| == cols && r <= n && c < cols
    ensures FlatIndex(cols, r, c) < |front + last|
    ensures r < n ==> FlatIndex(cols, r, c) < |front| && (front + last)[FlatIndex(cols, r, c)] == front[FlatIndex(cols, r, c)]
    ensures r == n ==> (front + last)[FlatIndex(cols, r, c)] == last[c]
  {
    if r < n {
      IndexInBounds(n, cols, r, c);
    } else {
      assert FlatIndex(cols, r, c) == |front| + c;
    }
  }

  lemma RowsTimesColumns(n: nat, cols: nat)
    ensures (n + 1) * cols == n * cols + cols
  {
  }

  class Table {
    const grid: Grid<Slot>

    constructor(grid: Grid<Slot>)
      ensures this.grid == grid
    {
      this.grid := grid;
    }

    /** The grid has its shape and every reference a formula can reach
        names a pair inside it. */
    predicate Valid()
      reads this, grid
    {
      grid.Shaped() && WellReferenced(grid.internal, grid.rows, grid.cols)
    }

    /** `new_interpet`, over the sheet already split into rows of fields:
        no rows is `EmptyTable`, a row whose width differs from the first
        row's is `MismatchedColumns`, otherwise the table of all cells. */
    static method NewInterpret(source: seq<seq<string>>) returns (r: Result<Table>)
      ensures source == [] ==> r == Err(EmptyTable)
      ensures source != [] && !Uniform(source) ==> r == Err(MismatchedColumns)
      ensures source != [] && Uniform(source) ==>
        r.Ok? && fresh(r.value) && fresh(r.value.grid)
        && r.value.grid.rows == |source| && r.value.grid.cols == |source[0]|
        && r.value.grid.internal == Flatten(source) && r.value.grid.Shaped()
    {
      var cells: seq<Slot> := [];
      var rows := 0;
      var previous: Option<nat> := None;
      for i := 0 to |source|
        invariant rows == i
        invariant cells == Flatten(source[..i])
        invariant previous == if i == 0 then None else Some(|source[0]|)
        invariant forall k :: 0 <= k < i ==> |source[k]| == |source[0]|
      {
        var row := source[i];
        var current := 0;
        for j := 0 to |row|
          invariant current == j
          invariant cells == Flatten(source[..i]) + RowCells(row[..j])
        {
          assert RowCells(row[..j + 1]) == RowCells(row[..j]) + [Cells.NewCell(row[j])];
          cells := cells + [Cells.NewCell(row[j])];
          current := current + 1;
        }
        assert row[..|row|] == row;
        assert source[..i + 1][..i] == source[..i];
        match previous {
          case None =>
            previous := Some(current);
          case Some(p) =>
            if p != current {
              return Err(MismatchedColumns);
            }
        }
        rows := rows + 1;
      }
      assert source[..|source|] == source;
      match previous
      case None =>
        r := Err(EmptyTable);
      case Some(cols) =>
        FlattenShape(source, cols);
        var g := new Grid(rows, cols, cells);
        var t := new Table(g);
        r := Ok(t);
    }

    /** `evaluate_cell`. */
    method EvaluateCell(row: nat, col: nat, chain: set<(nat, nat)>) returns (r: Result<real>)
      requires Valid()
      requires row < grid.rows && col < grid.cols
      modifies grid
      ensures Valid()
      ensures Evolves(old(grid.internal), grid.internal)
      ensures Frozen(old(grid.internal), grid.internal, grid.rows, grid.cols, chain)
      ensures Settled(grid.internal, grid.rows, grid.cols, chain, (row, col))
      ensures r == Outcome(old(grid.internal), grid.rows, grid.cols, chain, row, col)
      ensures r.Ok? ==> Sound(old(grid.internal), grid.internal, grid.rows, grid.cols, chain)
      ensures r == Outcome(grid.internal, grid.rows, grid.cols, chain, row, col)
      ensures var s := SlotAt(old(grid.internal), grid.rows, grid.cols, (row, col));
        (row, col) in chain || !Uncached(s) ==> grid.internal == old(grid.internal)
      ensures var s := SlotAt(old(grid.internal), grid.rows, grid.cols, (row, col));
        (row, col) !in chain && Uncached(s) ==>
          SlotAt(grid.internal, grid.rows, grid.cols, (row, col)) == Cached(s, r)
          && r == Single(Evaluate(s.value.kind.expr, CellLookup(grid.internal, grid.rows, grid.cols, chain + {(row, col)})))
      decreases |Pairs(grid.rows, grid.cols) - chain|, 0
    {
      SoundReflexive(grid.internal, grid.rows, grid.cols, chain);
      if (row, col) in chain {
        return Err(RecursiveCellExpr(row, col));
      }
      IndexInBounds(grid.rows, grid.cols, row, col);
      var slot := grid.Get(row, col);
      if slot.Err? {
        return Err(slot.error);
      }
      var cell := slot.value;
      match cell.kind
      case Empty =>
        r := Err(EmptyCellEvaluation);
      case Number(d) =>
        r := Ok(d);
      case Expr(e, result) =>
        if result.None? {
          var chain' := chain + {(row, col)};
          assert |Pairs(grid.rows, grid.cols) - chain'| < |Pairs(grid.rows, grid.cols) - chain| by {
            assert (row, col) in Pairs(grid.rows, grid.cols) - chain;
            assert Pairs(grid.rows, grid.cols) - chain' == (Pairs(grid.rows, grid.cols) - chain) - {(row, col)};
          }
          var rs := EvaluateExpr(e, chain');
          var res := if |rs| == 1 then rs[0] else Err(MultipleCellReturn);
          ghost var before, mid := old(grid.internal), grid.internal;
          ghost var i := FlatIndex(grid.cols, row, col);
          assert (row, col) in chain';
          assert mid[i] == slot;
          grid.Set(row, col, Ok(Cells.Cell(cell.source, Cells.CellKind.Expr(e, Some(res)))));
          if res.Ok? {
            CachingSound(before, mid, grid.rows, grid.cols, chain, (row, col), res);
          }
          CachingEvolves(before, mid, i, res);
          CachingEvolves(mid, mid, i, res);
          EvolvesWellReferenced(before, grid.internal, grid.rows, grid.cols);
          EvalStable(e, mid, grid.internal, grid.rows, grid.cols, chain');
          FrozenWrite(before, mid, grid.rows, grid.cols, chain, (row, col), grid.internal[i]);
          return res;
        }
        r := result.value;
    }

    /** `Evaluate::evaluate` on a formula of the table, with the lookup
        `evaluate_cell` builds. */
    method EvaluateExpr(e: Expr, chain: set<(nat, nat)>) returns (rs: seq<Result<real>>)
      requires Valid()
      requires RefsWithin(e, grid.rows, grid.cols)
      modifies grid
      ensures Valid()
      ensures Evolves(old(grid.internal), grid.internal)
      ensures Frozen(old(grid.internal), grid.internal, grid.rows, grid.cols, chain)
      ensures rs == Evaluate(e, CellLookup(old(grid.internal), grid.rows, grid.cols, chain))
      ensures rs[0].Ok? ==> Sound(old(grid.internal), grid.internal, grid.rows, grid.cols, chain)
      ensures rs == Evaluate(e, CellLookup(grid.internal, grid.rows, grid.cols, chain))
      ensures forall p :: p in Lookups(e, CellLookup(grid.internal, grid.rows, grid.cols, chain)) ==>
        Settled(grid.internal, grid.rows, grid.cols, chain, p)
      decreases |Pairs(grid.rows, grid.cols) - chain|, Size(e) + 1
    {
      var v := EvalExpr(e, chain);
      rs := [v];
    }

    /** `Expr::eval` with the table's lookup: operands left to right, the
        first error wins, a reference evaluates the cell it names. */
    method EvalExpr(e: Expr, chain: set<(nat, nat)>) returns (r: Result<real>)
      requires Valid()
      requires RefsWithin(e, grid.rows, grid.cols)
      modifies grid
      ensures Valid()
      ensures Evolves(old(grid.internal), grid.internal)
      ensures Frozen(old(grid.internal), grid.internal, grid.rows, grid.cols, chain)
      ensures r == Eval(e, CellLookup(old(grid.internal), grid.rows, grid.cols, chain))
      ensures r.Ok? ==> Sound(old(grid.internal), grid.internal, grid.rows, grid.cols, chain)
      ensures r == Eval(e, CellLookup(grid.internal, grid.rows, grid.cols, chain))
      ensures forall p :: p in Lookups(e, CellLookup(grid.internal, grid.rows, grid.cols, chain)) ==>
        Settled(grid.internal, grid.rows, grid.cols, chain, p)
      decreases |Pairs(grid.rows, grid.cols) - chain|, Size(e)
    {
      match e
      case Binary(l, op, right) =>
        var lv := EvalExpr(l, chain);
        if lv.Err? {
          return lv;
        }
        ghost var mid := grid.internal;
        var rv := EvalExpr(right, chain);
        EvalStable(l, mid, grid.internal, grid.rows, grid.cols, chain);
        EvolvesTransitive(old(grid.internal), mid, grid.internal);
        SoundEval(right, old(grid.internal), mid, grid.rows, grid.cols, chain);
        if rv.Ok? {
          SoundCompose(old(grid.internal), mid, grid.internal, grid.rows, grid.cols, chain);
        }
        if rv.Err? {
          return rv;
        }
        r := Apply(op, lv.value, rv.value);
      case Grouping(inner) =>
        r := EvalExpr(inner, chain);
      case Literal(t) =>
        match t {
          case Number(d) =>
            r := Ok(d);
            EvolvesReflexive(grid.internal);
            SoundReflexive(grid.internal, grid.rows, grid.cols, chain);
          case CellRef(c, rw) =>
            r := EvaluateCell(c, rw, chain);
          case _ =>
            r := Err(BadLiteral);
            EvolvesReflexive(grid.internal);
        }
      case Unary(op, right) =>
        var rv := EvalExpr(right, chain);
        if rv.Err? {
          return rv;
        }
        if op.Minus? {
          r := Ok(-rv.value);
        } else {
          r := Err(BadUnaryOperator);
        }
      case Call(_, _) =>
        r := Err(NoCallEvaluation);
        EvolvesReflexive(grid.internal);
    }

    /** The body of `run` for the cell at `(row, col)`: a formula without a
        result is evaluated, each reference with a chain of its own that
        starts empty (the cell itself is not put in it), and the result is
        stored; any other slot is left alone. */
    method RunCell(row: nat, col: nat)
      requires Valid()
      requires row < grid.rows && col < grid.cols
      modifies grid
      ensures Valid()
      ensures Evolves(old(grid.internal), grid.internal)
      ensures !Uncached(SlotAt(grid.internal, grid.rows, grid.cols, (row, col)))
      ensures !Uncached(SlotAt(old(grid.internal), grid.rows, grid.cols, (row, col))) ==>
        grid.internal == old(grid.internal)
      ensures var s := SlotAt(old(grid.internal), grid.rows, grid.cols, (row, col));
        Uncached(s) ==>
          SlotAt(grid.internal, grid.rows, grid.cols, (row, col))
            == Cached(s, Single(Evaluate(s.value.kind.expr, CellLookup(old(grid.internal), grid.rows, grid.cols, {}))))
      ensures var s := SlotAt(old(grid.internal), grid.rows, grid.cols, (row, col));
        Uncached(s) && (row, col) !in Refs(s.value.kind.expr) ==>
          SlotAt(grid.internal, grid.rows, grid.cols, (row, col))
            == Cached(s, Single(Evaluate(s.value.kind.expr, CellLookup(grid.internal, grid.rows, grid.cols, {}))))
    {
      IndexInBounds(grid.rows, grid.cols, row, col);
      var slot := grid.Get(row, col);
      if slot.Ok? && slot.value.kind.Expr? && slot.value.kind.result.None? {
        var e := slot.value.kind.expr;
        var rs := EvaluateExpr(e, {});
        var res := if |rs| == 1 then rs[0] else Err(MultipleCellReturn);
        ghost var before, mid := old(grid.internal), grid.internal;
        grid.Set(row, col, Ok(Cells.Cell(slot.value.source, Cells.CellKind.Expr(e, Some(res)))));
        CachingEvolves(before, mid, FlatIndex(grid.cols, row, col), res);
        EvolvesWellReferenced(before, grid.internal, grid.rows, grid.cols);
        if (row, col) !in Refs(e) {
          var la, lb := CellLookup(mid, grid.rows, grid.cols, {}), CellLookup(grid.internal, grid.rows, grid.cols, {});
          LookupsInRefs(e, la);
          forall p | p in Lookups(e, la)
            ensures la(p.0, p.1) == lb(p.0, p.1)
          {
            ReadAfterWrite(mid, grid.rows, grid.cols, row, col, grid.internal[FlatIndex(grid.cols, row, col)], p.0, p.1);
            SettledSameSlot(mid, grid.internal, grid.rows, grid.cols, {}, p);
          }
          EvalLocal(e, la, lb);
        }
      }
    }

    /** `run`: columns in the outer loop, rows in the inner one. Afterwards
        every formula has a result, and nothing else has changed. */
    method Run()
      requires Valid()
      modifies grid
      ensures Valid()
      ensures Evolves(old(grid.internal), grid.internal)
      ensures forall i :: 0 <= i < |grid.internal| ==> !Uncached(grid.internal[i])
    {
      EvolvesReflexive(grid.internal);
      for col := 0 to grid.cols
        invariant Valid()
        invariant Evolves(old(grid.internal), grid.internal)
        invariant DoneBefore(grid.internal, grid.rows, grid.cols, col, 0)
      {
        for row := 0 to grid.rows
          invariant Valid()
          invariant Evolves(old(grid.internal), grid.internal)
          invariant DoneBefore(grid.internal, grid.rows, grid.cols, col, row)
        {
          ghost var before := grid.internal;
          RunCell(row, col);
          EvolvesTransitive(old(grid.internal), before, grid.internal);
          DoneStep(before, grid.internal, grid.rows, grid.cols, col, row);
        }
        DoneColumn(grid.internal, grid.rows, grid.cols, col);
      }
      DoneAll(grid.internal, grid.rows, grid.cols);
    }
  }
}
