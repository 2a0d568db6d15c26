/** Formula syntax trees and their evaluation (src/ast.rs:9-101).

    `Eval` takes the caller's cell lookup as a function of `(col, row)`; the
    table supplies one that evaluates other cells. `Lookups` is the ordered
    trace of the lookup calls one evaluation makes, which is what lets the
    table reason about which cells an evaluation depends on. */
module Ast {
  import opened Errors
  import opened Tokens

  datatype Expr =
    | Binary(left: Expr, operator: Token, right: Expr)
    | Grouping(inner: Expr)
    | Literal(token: Token)
    | Unary(operator: Token, right: Expr)
      /** Built by the parser for `sum(...)`; evaluation has no case for it. */
    | Call(callee: Expr, arguments: seq<Expr>)

  type Lookup = (nat, nat) -> Result<real>

  const DivisionByZero := RuntimeError("division by zero")
  const BadBinaryOperator := RuntimeError("invalid token in binary expression")
  const BadLiteral := RuntimeError("invalid token literal")
  const BadUnaryOperator := RuntimeError("invalid token for unary expression")
  const NoCallEvaluation := RuntimeError("function calls cannot be evaluated")

  /** The operators `Binary` can apply. */
  predicate IsArithmetic(t: Token) { t.Plus? || t.Minus? || t.Star? || t.Slash? }

  /** One binary operation on two evaluated operands. */
  function Apply(operator: Token, l: real, r: real): (v: Result<real>)
    ensures v.Err? <==> !IsArithmetic(operator) || (operator.Slash? && r == 0.0)
    ensures operator.Plus? ==> v == Ok(l + r)
    ensures operator.Minus? ==> v == Ok(l - r)
    ensures operator.Star? ==> v == Ok(l * r)
    ensures operator.Slash? && r != 0.0 ==> v.Ok? && v.value * r == l
  {
    match operator
    case Plus => Ok(l + r)
    case Minus => Ok(l - r)
    case Star => Ok(l * r)
    case Slash => if r == 0.0 then Err(DivisionByZero) else Ok(l / r)
    case _ => Err(BadBinaryOperator)
  }

  /** The number of nodes evaluation can visit (a `Call`'s arguments are
      never visited). */
  function Size(e: Expr): (n: nat)
    ensures n >= 1
  {
    match e
    case Binary(l, _, r) => 1 + Size(l) + Size(r)
    case Grouping(inner) => 1 + Size(inner)
    case Literal(_) => 1
    case Unary(_, r) => 1 + Size(r)
    case Call(callee, _) => 1 + Size(callee)
  }

  /** The runtime errors evaluation raises itself. */
  predicate RaisedByEval(err: TableError) {
    err == DivisionByZero || err == BadBinaryOperator || err == BadLiteral
    || err == BadUnaryOperator || err == NoCallEvaluation
  }

  /** `Expr::eval`: operands left to right, the first error wins; an
      operator is checked only once both operands have values. Every error
      is one evaluation raises itself or one the lookup returned for a
      reference written in the formula. */
  function Eval(e: Expr, lookup: Lookup): (r: Result<real>)
    ensures r.Err? ==> RaisedByEval(r.error) || exists p :: p in Refs(e) && lookup(p.0, p.1) == r
  {
    match e
    case Binary(l, op, r) =>
      var lv := Eval(l, lookup);
      if lv.Err? then lv
      else
        var rv := Eval(r, lookup);
        if rv.Err? then rv
        else Apply(op, lv.value, rv.value)
    case Grouping(inner) => Eval(inner, lookup)
    case Literal(t) =>
      (match t
       case Number(d) => Ok(d)
       case CellRef(col, row) =>
         var p := (col, row);
         assert p in Refs(e);
         lookup(p.0, p.1)
       case _ => Err(BadLiteral))
    case Unary(op, r) =>
      var rv := Eval(r, lookup);
      if rv.Err? then rv
      else if op.Minus? then Ok(-rv.value)
      else Err(BadUnaryOperator)
    case Call(_, _) => Err(NoCallEvaluation)
  }

  /** `Evaluate::evaluate`: the single result of a scalar expression. */
  function Evaluate(e: Expr, lookup: Lookup): (rs: seq<Result<real>>)
    ensures |rs| == 1 && rs[0] == Eval(e, lookup)
  {
    [Eval(e, lookup)]
  }

  /** The `(col, row)` arguments of the lookup calls `Eval(e, lookup)`
      makes, in the order it makes them. */
  function Lookups(e: Expr, lookup: Lookup): seq<(nat, nat)> {
    match e
    case Binary(l, _, r) =>
      if Eval(l, lookup).Err? then Lookups(l, lookup)
      else Lookups(l, lookup) + Lookups(r, lookup)
    case Grouping(inner) => Lookups(inner, lookup)
    case Literal(t) => if t.CellRef? then [(t.col, t.row)] else []
    case Unary(_, r) => Lookups(r, lookup)
    case Call(_, _) => []
  }

  /** Every cell reference evaluation can reach names a column below
      `colBound` and a row below `rowBound`. */
  predicate RefsWithin(e: Expr, colBound: nat, rowBound: nat) {
    match e
    case Binary(l, _, r) => RefsWithin(l, colBound, rowBound) && RefsWithin(r, colBound, rowBound)
    case Grouping(inner) => RefsWithin(inner, colBound, rowBound)
    case Literal(t) => t.CellRef? ==> t.col < colBound && t.row < rowBound
    case Unary(_, r) => RefsWithin(r, colBound, rowBound)
    case Call(callee, _) => RefsWithin(callee, colBound, rowBound)
  }

  /** The `(col, row)` of every reference evaluation can reach. */
  function Refs(e: Expr): set<(nat, nat)> {
    match e
    case Binary(l, _, r) => Refs(l) + Refs(r)
    case Grouping(inner) => Refs(inner)
    case Literal(t) => if t.CellRef? then {(t.col, t.row)} else {}
    case Unary(_, r) => Refs(r)
    case Call(callee, _) => Refs(callee)
  }

  /** Whatever the lookup returns, evaluation only looks up references
      written in the expression. */
  lemma {:induction false} LookupsInRefs(e: Expr, lookup: Lookup)
    ensures forall p :: p in Lookups(e, lookup) ==> p in Refs(e)
  {
    match e
    case Binary(l, _, r) =>
      LookupsInRefs(l, lookup);
      LookupsInRefs(r, lookup);
    case Grouping(inner) => LookupsInRefs(inner, lookup);
    case Literal(_) =>
    case Unary(_, r) => LookupsInRefs(r, lookup);
    case Call(callee, _) =>
  }

  /** Evaluation depends on the lookup only at the cells it looks up: two
      lookups that agree there give the same result and the same trace. */
  lemma {:induction false} EvalLocal(e: Expr, l1: Lookup, l2: Lookup)
    requires forall p :: p in Lookups(e, l1) ==> l1(p.0, p.1) == l2(p.0, p.1)
    ensures Eval(e, l1) == Eval(e, l2)
    ensures Lookups(e, l1) == Lookups(e, l2)
  {
    match e
    case Binary(l, _, r) =>
      EvalLocal(l, l1, l2);
      if Eval(l, l1).Ok? {
        EvalLocal(r, l1, l2);
      }
    case Grouping(inner) => EvalLocal(inner, l1, l2);
    case Literal(t) =>
      if t.CellRef? {
        assert (t.col, t.row) in Lookups(e, l1);
      }
    case Unary(_, r) => EvalLocal(r, l1, l2);
    case Call(_, _) =>
  }

  /** A value comes out only when every lookup made on the way gave one. */
  lemma {:induction false} LookupsSucceed(e: Expr, lookup: Lookup)
    requires Eval(e, lookup).Ok?
    ensures forall p :: p in Lookups(e, lookup) ==> lookup(p.0, p.1).Ok?
  {
    match e
    case Binary(l, _, r) =>
      LookupsSucceed(l, lookup);
      LookupsSucceed(r, lookup);
    case Grouping(inner) => LookupsSucceed(inner, lookup);
    case Literal(_) =>
    case Unary(_, r) => LookupsSucceed(r, lookup);
    case Call(_, _) =>
  }

  /** Only references that are in bounds are ever looked up. */
  lemma {:induction false} LookupsWithin(e: Expr, lookup: Lookup, colBound: nat, rowBound: nat)
    requires RefsWithin(e, colBound, rowBound)
    ensures forall p :: p in Lookups(e, lookup) ==> p.0 < colBound && p.1 < rowBound
  {
    match e
    case Binary(l, _, r) =>
      LookupsWithin(l, lookup, colBound, rowBound);
      LookupsWithin(r, lookup, colBound, rowBound);
    case Grouping(inner) => LookupsWithin(inner, lookup, colBound, rowBound);
    case Literal(_) =>
    case Unary(_, r) => LookupsWithin(r, lookup, colBound, rowBound);
    case Call(callee, _) =>
  }

  /** An expression that looks nothing up does not depend on the lookup. */
  lemma LookupFree(e: Expr, l1: Lookup, l2: Lookup)
    requires Lookups(e, l1) == []
    ensures Eval(e, l1) == Eval(e, l2)
  {
    EvalLocal(e, l1, l2);
  }
}
