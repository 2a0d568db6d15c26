/** What evaluating a cell of the table means, as functions of the grid's
    slots (src/table.rs:52-115).

    A reference's first component picks the grid row and its second the
    grid column: `Ast.Eval` hands a reference `(col, row)` to its lookup,
    and the lookup src/table.rs builds passes its two arguments on as the
    `row` and `col` of `evaluate_cell`. `CellLookup` keeps that order. */
module TableSpec {
  import opened Errors
  import opened Ast
  import opened Grids
  import opened Cells

  /** A grid slot: a cell, or the error building it produced. */
  type Slot = Result<Cell>

  /** The pairs `evaluate_cell` may be called with. */
  function Pairs(rows: nat, cols: nat): set<(nat, nat)> {
    set r: nat, c: nat | r < rows && c < cols :: (r, c)
  }

  /** Stands for the index panic of a reference outside the grid; the
      table's invariant keeps every reference inside, so it is never
      produced. */
  const OutsideGrid := RuntimeError("cell reference outside the grid")

  /** A formula whose result has not been computed. */
  predicate Uncached(s: Slot) {
    s.Ok? && s.value.kind.Expr? && s.value.kind.result.None?
  }

  /** The result kept for a formula: the single value evaluation yields,
      or `MultipleCellReturn` if it yields any other number of values. */
  function Single(rs: seq<Result<real>>): (r: Result<real>)
    ensures |rs| == 1 ==> r == rs[0]
    ensures |rs| != 1 ==> r == Err(MultipleCellReturn)
  {
    if |rs| == 1 then rs[0] else Err(MultipleCellReturn)
  }

  /** The slot after its formula's result `v` has been stored: same source,
      same tree. */
  function Cached(s: Slot, v: Result<real>): (t: Slot)
    requires s.Ok? && s.value.kind.Expr?
    ensures t.Ok? && t.value.source == s.value.source
    ensures t.value.kind == CellKind.Expr(s.value.kind.expr, Some(v))
  {
    Ok(Cell(s.value.source, CellKind.Expr(s.value.kind.expr, Some(v))))
  }

  /** The value of the cell at `(row, col)` when the cells in `chain` are
      being evaluated: a cell already in the chain is a cycle; a construction
      error, an empty cell, a number and a stored result are returned as
      they are; a formula without a result is evaluated, every reference in
      it being the value of the cell it names with this cell added to the
      chain. */
  function Outcome(slots: seq<Slot>, rows: nat, cols: nat, chain: set<(nat, nat)>, row: nat, col: nat): Result<real>
    requires |slots| == rows * cols
    decreases |Pairs(rows, cols) - chain|
  {
    if (row, col) in chain then Err(RecursiveCellExpr(row, col))
    else if !(row < rows && col < cols) then Err(OutsideGrid)
    else
      IndexInBounds(rows, cols, row, col);
      var s := slots[FlatIndex(cols, row, col)];
      if s.Err? then Err(s.error)
      else
        match s.value.kind
        case Empty => Err(EmptyCellEvaluation)
        case Number(d) => Ok(d)
        case Expr(e, Some(v)) => v
        case Expr(e, None) =>
          var chain' := chain + {(row, col)};
          assert |Pairs(rows, cols) - chain'| < |Pairs(rows, cols) - chain| by {
            assert (row, col) in Pairs(rows, cols) - chain;
            assert Pairs(rows, cols) - chain' == (Pairs(rows, cols) - chain) - {(row, col)};
          }
          Single(Evaluate(e, (a: nat, b: nat) => Outcome(slots, rows, cols, chain', a, b)))
  }

  /** The lookup a formula evaluated under `chain` sees. */
  function CellLookup(slots: seq<Slot>, rows: nat, cols: nat, chain: set<(nat, nat)>): Lookup
    requires |slots| == rows * cols
  {
    (a: nat, b: nat) => Outcome(slots, rows, cols, chain, a, b)
  }

  /** The slot at `p`, for a pair inside the grid. */
  function SlotAt(slots: seq<Slot>, rows: nat, cols: nat, p: (nat, nat)): Slot
    requires |slots| == rows * cols && p.0 < rows && p.1 < cols
  {
    IndexInBounds(rows, cols, p.0, p.1);
    slots[FlatIndex(cols, p.0, p.1)]
  }

  /** A pair whose value no later caching can change: it is in the chain,
      or its slot is not a formula waiting for a result. */
  predicate Settled(slots: seq<Slot>, rows: nat, cols: nat, chain: set<(nat, nat)>, p: (nat, nat))
    requires |slots| == rows * cols
  {
    p in chain || (p.0 < rows && p.1 < cols && !Uncached(SlotAt(slots, rows, cols, p)))
  }

  /** What evaluation does to one slot: nothing, or it stores a result in a
      formula that had none, keeping its source and tree. */
  predicate SlotEvolves(s: Slot, t: Slot) {
    s == t
    || (Uncached(s) && t.Ok? && t.value.kind.Expr? && t.value.kind.result.Some?
        && t == Cached(s, t.value.kind.result.value))
  }

  predicate Evolves(a: seq<Slot>, b: seq<Slot>) {
    |a| == |b| && forall i :: 0 <= i < |a| ==> SlotEvolves(a[i], b[i])
  }

  /** The slots of the pairs in `chain` are the same in `a` and `b`. */
  predicate Frozen(a: seq<Slot>, b: seq<Slot>, rows: nat, cols: nat, chain: set<(nat, nat)>)
    requires |a| == rows * cols && |b| == rows * cols
  {
    forall p :: p in chain && p.0 < rows && p.1 < cols ==> SlotAt(a, rows, cols, p) == SlotAt(b, rows, cols, p)
  }

  /** Every reference every formula can reach names a pair inside the
      grid (row component first, see the module comment). */
  predicate WellReferenced(slots: seq<Slot>, rows: nat, cols: nat) {
    forall i :: 0 <= i < |slots| && slots[i].Ok? && slots[i].value.kind.Expr? ==>
      RefsWithin(slots[i].value.kind.expr, rows, cols)
  }

  lemma EvolvesReflexive(a: seq<Slot>)
    ensures Evolves(a, a)
  {
  }

  lemma EvolvesTransitive(a: seq<Slot>, b: seq<Slot>, c: seq<Slot>)
    requires Evolves(a, b) && Evolves(b, c)
    ensures Evolves(a, c)
  {
    forall i | 0 <= i < |a|
      ensures SlotEvolves(a[i], c[i])
    {
      if a[i] != b[i] {
        assert !Uncached(b[i]);
      }
    }
  }

  /** Evolving keeps every formula's tree, so it keeps the references in
      bounds. */
  lemma EvolvesWellReferenced(a: seq<Slot>, b: seq<Slot>, rows: nat, cols: nat)
    requires Evolves(a, b) && WellReferenced(a, rows, cols)
    ensures WellReferenced(b, rows, cols)
  {
    forall i | 0 <= i < |b| && b[i].Ok? && b[i].value.kind.Expr?
      ensures RefsWithin(b[i].value.kind.expr, rows, cols)
    {
      assert SlotEvolves(a[i], b[i]);
    }
  }

  /** A settled pair keeps its value, and stays settled, however the grid
      evolves: its value depends on its own slot alone, which evolving
      leaves alone. */
  lemma SettledStable(a: seq<Slot>, b: seq<Slot>, rows: nat, cols: nat, chain: set<(nat, nat)>, p: (nat, nat))
    requires |a| == rows * cols && Evolves(a, b)
    requires Settled(a, rows, cols, chain, p)
    ensures Settled(b, rows, cols, chain, p)
    ensures Outcome(a, rows, cols, chain, p.0, p.1) == Outcome(b, rows, cols, chain, p.0, p.1)
  {
    if p !in chain {
      IndexInBounds(rows, cols, p.0, p.1);
      var i := FlatIndex(cols, p.0, p.1);
      assert SlotEvolves(a[i], b[i]);
      assert a[i] == b[i];
    }
  }

  /** The value of a settled pair depends on its own slot alone. */
  lemma SettledSameSlot(a: seq<Slot>, b: seq<Slot>, rows: nat, cols: nat, chain: set<(nat, nat)>, p: (nat, nat))
    requires |a| == rows * cols && |b| == rows * cols
    requires Settled(a, rows, cols, chain, p)
    requires p !in chain ==> SlotAt(a, rows, cols, p) == SlotAt(b, rows, cols, p)
    ensures Settled(b, rows, cols, chain, p)
    ensures Outcome(a, rows, cols, chain, p.0, p.1) == Outcome(b, rows, cols, chain, p.0, p.1)
  {
  }

  /** Settled lookups make the value of a formula, and the cells it looks
      up, survive any evolution of the grid. */
  lemma EvalStable(e: Expr, a: seq<Slot>, b: seq<Slot>, rows: nat, cols: nat, chain: set<(nat, nat)>)
    requires |a| == rows * cols && Evolves(a, b)
    requires forall p :: p in Lookups(e, CellLookup(a, rows, cols, chain)) ==> Settled(a, rows, cols, chain, p)
    ensures Eval(e, CellLookup(a, rows, cols, chain)) == Eval(e, CellLookup(b, rows, cols, chain))
    ensures Lookups(e, CellLookup(a, rows, cols, chain)) == Lookups(e, CellLookup(b, rows, cols, chain))
    ensures forall p :: p in Lookups(e, CellLookup(b, rows, cols, chain)) ==> Settled(b, rows, cols, chain, p)
  {
    var la, lb := CellLookup(a, rows, cols, chain), CellLookup(b, rows, cols, chain);
    forall p | p in Lookups(e, la)
      ensures la(p.0, p.1) == lb(p.0, p.1) && Settled(b, rows, cols, chain, p)
    {
      SettledStable(a, b, rows, cols, chain, p);
    }
    EvalLocal(e, la, lb);
  }

  /** Storing a result in a formula that had none, in a grid that has only
      evolved since, is again an evolution. */
  lemma CachingEvolves(a: seq<Slot>, b: seq<Slot>, i: nat, v: Result<real>)
    requires Evolves(a, b) && i < |a| && Uncached(a[i])
    ensures Evolves(a, b[i := Cached(a[i], v)])
  {
  }

  /** Writing the slot of a pair outside `chain` keeps `chain` frozen. */
  lemma FrozenWrite(a: seq<Slot>, m: seq<Slot>, rows: nat, cols: nat, chain: set<(nat, nat)>, p: (nat, nat), v: Slot)
    requires |a| == rows * cols && |m| == rows * cols
    requires p.0 < rows && p.1 < cols && p !in chain
    requires Frozen(a, m, rows, cols, chain + {p})
    ensures FlatIndex(cols, p.0, p.1) < |m|
    ensures Frozen(a, m[FlatIndex(cols, p.0, p.1) := v], rows, cols, chain)
  {
    IndexInBounds(rows, cols, p.0, p.1);
    forall q | q in chain && q.0 < rows && q.1 < cols
      ensures SlotAt(a, rows, cols, q) == SlotAt(m[FlatIndex(cols, p.0, p.1) := v], rows, cols, q)
    {
      ReadAfterWrite(m, rows, cols, p.0, p.1, v, q.0, q.1);
    }
  }

  /** The pairs whose formula is still waiting for a result. */
  function Pending(slots: seq<Slot>, rows: nat, cols: nat): set<(nat, nat)>
    requires |slots| == rows * cols
  {
    set r: nat, c: nat | r < rows && c < cols && Uncached(SlotAt(slots, rows, cols, (r, c))) :: (r, c)
  }

  /** The result stored in an evaluated formula. */
  function Stored(s: Slot): Result<real>
    requires s.Ok? && s.value.kind.Expr? && s.value.kind.result.Some?
  {
    s.value.kind.result.value
  }

  /** Every result that `b` holds and `a` did not is a value, and it is the
      value `Outcome` gives that cell in `a` with the formulas still pending
      in `b` added to the chain. Evaluation that leaves such a grid behind
      has changed the value of no cell that can still be reached. */
  ghost predicate Sound(a: seq<Slot>, b: seq<Slot>, rows: nat, cols: nat, chain: set<(nat, nat)>)
    requires |a| == rows * cols && |b| == rows * cols
  {
    forall p: (nat, nat) :: p.0 < rows && p.1 < cols && Uncached(SlotAt(a, rows, cols, p)) && !Uncached(SlotAt(b, rows, cols, p)) ==>
      var t := SlotAt(b, rows, cols, p);
      t.Ok? && t.value.kind.Expr? && t.value.kind.result.Some? && Stored(t).Ok?
      && Outcome(a, rows, cols, chain + Pending(b, rows, cols), p.0, p.1) == Stored(t)
  }

  /** Adding a pair of the grid that is not on the chain shortens what is
      left to evaluate. */
  lemma ChainGrows(rows: nat, cols: nat, chain: set<(nat, nat)>, p: (nat, nat))
    requires p.0 < rows && p.1 < cols && p !in chain
    ensures |Pairs(rows, cols) - (chain + {p})| < |Pairs(rows, cols) - chain|
  {
    assert p in Pairs(rows, cols) - chain;
    assert Pairs(rows, cols) - (chain + {p}) == (Pairs(rows, cols) - chain) - {p};
  }

  /** A value is reached without meeting any cell of the chain, so it stays
      the same with fewer cells on the chain. */
  lemma {:induction false} ValueShrinkChain(s: seq<Slot>, rows: nat, cols: nat, small: set<(nat, nat)>, large: set<(nat, nat)>, row: nat, col: nat)
    requires |s| == rows * cols && small <= large
    requires Outcome(s, rows, cols, large, row, col).Ok?
    ensures Outcome(s, rows, cols, small, row, col) == Outcome(s, rows, cols, large, row, col)
    decreases |Pairs(rows, cols) - small|
  {
    if (row, col) !in large && row < rows && col < cols {
      IndexInBounds(rows, cols, row, col);
      var slot := s[FlatIndex(cols, row, col)];
      if Uncached(slot) {
        var e := slot.value.kind.expr;
        var small', large' := small + {(row, col)}, large + {(row, col)};
        var ls, ll := CellLookup(s, rows, cols, small'), CellLookup(s, rows, cols, large');
        assert Outcome(s, rows, cols, large, row, col) == Eval(e, ll);
        LookupsSucceed(e, ll);
        ChainGrows(rows, cols, small, (row, col));
        forall p | p in Lookups(e, ll)
          ensures ll(p.0, p.1) == ls(p.0, p.1)
        {
          ValueShrinkChain(s, rows, cols, small', large', p.0, p.1);
        }
        EvalLocal(e, ll, ls);
        assert Outcome(s, rows, cols, small, row, col) == Eval(e, ls);
      }
    }
  }

  /** Evolving only ever takes formulas off the pending set. */
  lemma PendingEvolves(a: seq<Slot>, b: seq<Slot>, rows: nat, cols: nat)
    requires |a| == rows * cols && Evolves(a, b)
    ensures Pending(b, rows, cols) <= Pending(a, rows, cols)
  {
    forall p | p in Pending(b, rows, cols)
      ensures p in Pending(a, rows, cols)
    {
      IndexInBounds(rows, cols, p.0, p.1);
      assert SlotEvolves(a[FlatIndex(cols, p.0, p.1)], b[FlatIndex(cols, p.0, p.1)]);
    }
  }

  /** A settled pair has the same value under any chain that adds only
      pending formulas. */
  lemma SettledAnyChain(s: seq<Slot>, rows: nat, cols: nat, c1: set<(nat, nat)>, c2: set<(nat, nat)>, p: (nat, nat))
    requires |s| == rows * cols && Settled(s, rows, cols, c1, p)
    requires c1 <= c2 && c2 <= c1 + Pending(s, rows, cols)
    ensures Outcome(s, rows, cols, c1, p.0, p.1) == Outcome(s, rows, cols, c2, p.0, p.1)
  {
    if p !in c1 {
      assert p !in Pending(s, rows, cols);
    }
  }

  /** A grid soundly evolved from `a` gives every cell the value it has in
      `a`, under the chain and any pending formulas added to it. */
  lemma {:induction false} SoundAgrees(a: seq<Slot>, b: seq<Slot>, rows: nat, cols: nat, chain: set<(nat, nat)>, d: set<(nat, nat)>, row: nat, col: nat)
    requires |a| == rows * cols && Evolves(a, b)
    requires Sound(a, b, rows, cols, chain)
    requires chain <= d && d <= chain + Pending(b, rows, cols)
    ensures Outcome(b, rows, cols, d, row, col) == Outcome(a, rows, cols, d, row, col)
    decreases |Pairs(rows, cols) - d|
  {
    if (row, col) !in d && row < rows && col < cols {
      IndexInBounds(rows, cols, row, col);
      var i := FlatIndex(cols, row, col);
      assert SlotEvolves(a[i], b[i]);
      if a[i] != b[i] {
        assert SlotAt(a, rows, cols, (row, col)) == a[i] && SlotAt(b, rows, cols, (row, col)) == b[i];
        ValueShrinkChain(a, rows, cols, d, chain + Pending(b, rows, cols), row, col);
      } else if Uncached(b[i]) {
        var e := b[i].value.kind.expr;
        var d' := d + {(row, col)};
        assert (row, col) in Pending(b, rows, cols);
        ChainGrows(rows, cols, d, (row, col));
        var lb, la := CellLookup(b, rows, cols, d'), CellLookup(a, rows, cols, d');
        forall p | p in Lookups(e, lb)
          ensures lb(p.0, p.1) == la(p.0, p.1)
        {
          SoundAgrees(a, b, rows, cols, chain, d', p.0, p.1);
        }
        EvalLocal(e, lb, la);
        assert Outcome(b, rows, cols, d, row, col) == Eval(e, lb);
        assert Outcome(a, rows, cols, d, row, col) == Eval(e, la);
      }
    }
  }

  /** Nothing stored yet is trivially sound. */
  lemma SoundReflexive(a: seq<Slot>, rows: nat, cols: nat, chain: set<(nat, nat)>)
    requires |a| == rows * cols
    ensures Sound(a, a, rows, cols, chain)
  {
  }

  /** Two sound evolutions under the same chain make one. */
  lemma SoundCompose(a: seq<Slot>, m: seq<Slot>, b: seq<Slot>, rows: nat, cols: nat, chain: set<(nat, nat)>)
    requires |a| == rows * cols && Evolves(a, m) && Evolves(m, b)
    requires Sound(a, m, rows, cols, chain) && Sound(m, b, rows, cols, chain)
    ensures Sound(a, b, rows, cols, chain)
  {
    PendingEvolves(m, b, rows, cols);
    forall p: (nat, nat) | p.0 < rows && p.1 < cols && Uncached(SlotAt(a, rows, cols, p)) && !Uncached(SlotAt(b, rows, cols, p))
      ensures var t := SlotAt(b, rows, cols, p);
        t.Ok? && t.value.kind.Expr? && t.value.kind.result.Some? && Stored(t).Ok?
        && Outcome(a, rows, cols, chain + Pending(b, rows, cols), p.0, p.1) == Stored(t)
    {
      IndexInBounds(rows, cols, p.0, p.1);
      var i := FlatIndex(cols, p.0, p.1);
      assert SlotEvolves(m[i], b[i]);
      var d := chain + Pending(b, rows, cols);
      if Uncached(m[i]) {
        SoundAgrees(a, m, rows, cols, chain, d, p.0, p.1);
      } else {
        assert m[i] == b[i];
        ValueShrinkChain(a, rows, cols, d, chain + Pending(m, rows, cols), p.0, p.1);
      }
    }
  }

  /** Storing the value of a formula evaluated with its cell on the chain,
      once every cell it looked up is settled, keeps the evolution sound
      for the chain without that cell. */
  lemma CachingSound(a: seq<Slot>, m: seq<Slot>, rows: nat, cols: nat, chain: set<(nat, nat)>, p: (nat, nat), v: Result<real>)
    requires |a| == rows * cols && Evolves(a, m)
    requires p.0 < rows && p.1 < cols && p !in chain
    requires Uncached(SlotAt(a, rows, cols, p)) && SlotAt(m, rows, cols, p) == SlotAt(a, rows, cols, p)
    requires Sound(a, m, rows, cols, chain + {p})
    requires var e := SlotAt(a, rows, cols, p).value.kind.expr;
      v == Eval(e, CellLookup(a, rows, cols, chain + {p})) && v.Ok?
      && forall q :: q in Lookups(e, CellLookup(m, rows, cols, chain + {p})) ==> Settled(m, rows, cols, chain + {p}, q)
    ensures FlatIndex(cols, p.0, p.1) < |m|
    ensures var b := m[FlatIndex(cols, p.0, p.1) := Cached(SlotAt(a, rows, cols, p), v)];
      Evolves(a, b) && Sound(a, b, rows, cols, chain)
  {
    IndexInBounds(rows, cols, p.0, p.1);
    var i := FlatIndex(cols, p.0, p.1);
    var b := m[i := Cached(SlotAt(a, rows, cols, p), v)];
    CachingEvolves(a, m, i, v);
    CachingEvolves(m, m, i, v);
    PendingEvolves(m, b, rows, cols);
    forall q: (nat, nat) | q.0 < rows && q.1 < cols && Uncached(SlotAt(a, rows, cols, q)) && !Uncached(SlotAt(b, rows, cols, q))
      ensures var t := SlotAt(b, rows, cols, q);
        t.Ok? && t.value.kind.Expr? && t.value.kind.result.Some? && Stored(t).Ok?
        && Outcome(a, rows, cols, chain + Pending(b, rows, cols), q.0, q.1) == Stored(t)
    {
      if q == p {
        assert SlotAt(b, rows, cols, q) == b[i];
        CachedValue(a, m, rows, cols, chain, p, v, chain + Pending(b, rows, cols));
      } else {
        ReadAfterWrite(m, rows, cols, p.0, p.1, b[i], q.0, q.1);
        ValueShrinkChain(a, rows, cols, chain + Pending(b, rows, cols), chain + {p} + Pending(m, rows, cols), q.0, q.1);
      }
    }
  }

  /** The value stored for `p` is its `Outcome` in `a` under any chain
      that adds only pending formulas. */
  lemma CachedValue(a: seq<Slot>, m: seq<Slot>, rows: nat, cols: nat, chain: set<(nat, nat)>, p: (nat, nat), v: Result<real>, d: set<(nat, nat)>)
    requires |a| == rows * cols && Evolves(a, m)
    requires p.0 < rows && p.1 < cols && p !in d
    requires Uncached(SlotAt(a, rows, cols, p))
    requires Sound(a, m, rows, cols, chain + {p})
    requires var e := SlotAt(a, rows, cols, p).value.kind.expr;
      v == Eval(e, CellLookup(a, rows, cols, chain + {p}))
      && forall q :: q in Lookups(e, CellLookup(m, rows, cols, chain + {p})) ==> Settled(m, rows, cols, chain + {p}, q)
    requires chain <= d && d + {p} <= chain + {p} + Pending(m, rows, cols)
    ensures Outcome(a, rows, cols, d, p.0, p.1) == v
  {
    var e := SlotAt(a, rows, cols, p).value.kind.expr;
    var c', d' := chain + {p}, d + {p};
    var la, lm := CellLookup(a, rows, cols, c'), CellLookup(m, rows, cols, c');
    var la', lm' := CellLookup(a, rows, cols, d'), CellLookup(m, rows, cols, d');
    forall q: (nat, nat)
      ensures lm(q.0, q.1) == la(q.0, q.1) && lm'(q.0, q.1) == la'(q.0, q.1)
    {
      SoundAgrees(a, m, rows, cols, c', c', q.0, q.1);
      SoundAgrees(a, m, rows, cols, c', d', q.0, q.1);
    }
    EvalLocal(e, lm, la);
    forall q | q in Lookups(e, lm)
      ensures lm(q.0, q.1) == lm'(q.0, q.1)
    {
      SettledAnyChain(m, rows, cols, c', d', q);
    }
    EvalLocal(e, lm, lm');
    EvalLocal(e, lm', la');
    assert Outcome(a, rows, cols, d, p.0, p.1) == Eval(e, la');
  }

  /** Column-major progress: every pair of the columns before `col`, and of
      the rows before `row` in column `col`, holds no formula waiting for a
      result. */
  predicate DoneBefore(slots: seq<Slot>, rows: nat, cols: nat, col: nat, row: nat)
    requires |slots| == rows * cols
  {
    forall r: nat, c: nat :: r < rows && c < cols && (c < col || (c == col && r < row)) ==>
      !Uncached(SlotAt(slots, rows, cols, (r, c)))
  }

  /** Progress survives evolution and extends by one settled pair. */
  lemma DoneStep(a: seq<Slot>, b: seq<Slot>, rows: nat, cols: nat, col: nat, row: nat)
    requires |a| == rows * cols && Evolves(a, b)
    requires row < rows && col < cols
    requires DoneBefore(a, rows, cols, col, row)
    requires !Uncached(SlotAt(b, rows, cols, (row, col)))
    ensures DoneBefore(b, rows, cols, col, row + 1)
  {
    forall r: nat, c: nat | r < rows && c < cols && (c < col || (c == col && r < row))
      ensures !Uncached(SlotAt(b, rows, cols, (r, c)))
    {
      IndexInBounds(rows, cols, r, c);
      assert SlotEvolves(a[FlatIndex(cols, r, c)], b[FlatIndex(cols, r, c)]);
    }
  }

  /** A finished column moves progress to the top of the next one. */
  lemma DoneColumn(slots: seq<Slot>, rows: nat, cols: nat, col: nat)
    requires |slots| == rows * cols
    requires DoneBefore(slots, rows, cols, col, rows)
    ensures DoneBefore(slots, rows, cols, col + 1, 0)
  {
  }

  /** Once every column is done, no slot holds a formula waiting for a
      result. */
  lemma DoneAll(slots: seq<Slot>, rows: nat, cols: nat)
    requires |slots| == rows * cols
    requires DoneBefore(slots, rows, cols, cols, 0)
    ensures forall i :: 0 <= i < |slots| ==> !Uncached(slots[i])
  {
    forall i | 0 <= i < |slots|
      ensures !Uncached(slots[i])
    {
      IndexOnto(rows, cols, i);
      assert SlotAt(slots, rows, cols, (i / cols, i % cols)) == slots[i];
    }
  }
}
