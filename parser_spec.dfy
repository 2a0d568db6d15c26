/** What the recursive-descent parser computes (src/parser.rs:22-164), as
    functions of its state: the current and previous token and the items
    the tokenizer has not yet delivered. Each parsing method of
    `Parsing.Parser` is proved to agree with the function of the same name.

    `calls` selects the grammar: `true` is src/parser.rs, with a call level
    and a primary that also accepts `sum` and ranges; `false` is the older
    copy in src/ast.rs:103-232, which has no call level and whose primary
    accepts only numbers and cell references. Cells are parsed with the
    latter (src/cell.rs:91-95). */
module ParserSpec {
  import opened Errors
  import opened Tokens
  import opened Ast

  datatype ParserState = ParserState(current: Option<Token>, previous: Option<Token>, rest: seq<Result<Token>>)

  /** Items not yet consumed, counting the current token. */
  function Remaining(st: ParserState): nat {
    |st.rest| + if st.current.Some? then 1 else 0
  }

  predicate IsAdditive(t: Token) { t.Minus? || t.Plus? }
  predicate IsMultiplicative(t: Token) { t.Slash? || t.Star? }
  predicate IsMinus(t: Token) { t.Minus? }
  predicate IsLeftParen(t: Token) { t.LeftParen? }
  predicate IsRightParen(t: Token) { t.RightParen? }
  predicate IsComma(t: Token) { t.Comma? }
  /** What `primary` turns into a literal in src/parser.rs:108-110. */
  predicate IsCallPrimary(t: Token) { t.Number? || t.CellRef? || t.Sum? || t.CellRange? }
  /** What `primary` turns into a literal in src/ast.rs:177. */
  predicate IsPlainPrimary(t: Token) { t.Number? || t.CellRef? }

  function PrimaryTest(calls: bool): Token -> bool {
    if calls then IsCallPrimary else IsPlainPrimary
  }

  const MissingArgumentsParen := ErrorConstructingAst("Expect ')' after arguments")
  const MissingGroupingParen := ErrorConstructingAst("Expected ')' after expression")
  const InvalidPrimary := ErrorConstructingAst("Invalid primary expression token")
  const NoPreviousToken := ErrorConstructingAst("Error returning previous token")

  /** The trees the parser builds: arithmetic operators only, unary minus
      only, literals the primary accepts, and calls (only with the call
      level) that have at least one argument. */
  predicate WellFormed(e: Expr, calls: bool) {
    match e
    case Binary(l, op, r) =>
      (IsAdditive(op) || IsMultiplicative(op)) && WellFormed(l, calls) && WellFormed(r, calls)
    case Grouping(inner) => WellFormed(inner, calls)
    case Literal(t) => PrimaryTest(calls)(t)
    case Unary(op, r) => op.Minus? && WellFormed(r, calls)
    case Call(callee, args) =>
      calls && |args| >= 1 && WellFormed(callee, calls)
      && forall a :: a in args ==> WellFormed(a, calls)
  }

  /** `advance`: the current token becomes the previous one and the next
      item is pulled. A lexer error is returned after the previous token
      has been updated and the item consumed, but before the current token
      is replaced. */
  function Advance(st: ParserState): (r: (Result<()>, ParserState))
    ensures r.1.previous == st.current
    ensures st.current.Some? ==> Remaining(r.1) < Remaining(st)
    ensures Remaining(r.1) <= Remaining(st)
    ensures r.1.rest == if st.rest == [] then [] else st.rest[1..]
    ensures st.rest == [] ==> r == (Ok(()), ParserState(None, st.current, []))
    ensures st.rest != [] && st.rest[0].Ok? ==> r.0.Ok? && r.1.current == Some(st.rest[0].value)
    ensures r.0.Err? <==> st.rest != [] && st.rest[0].Err?
    ensures r.0.Err? ==> r.0.error == st.rest[0].error && r.1.current == st.current
  {
    if st.rest == [] then (Ok(()), ParserState(None, st.current, []))
    else if st.rest[0].Err? then (Err(st.rest[0].error), ParserState(st.current, st.current, st.rest[1..]))
    else (Ok(()), ParserState(Some(st.rest[0].value), st.current, st.rest[1..]))
  }

  /** `advance_match`: advance past the current token when it satisfies
      `p`, reporting whether it did. */
  function AdvanceMatch(st: ParserState, p: Token -> bool): (r: (Result<bool>, ParserState))
    ensures r.0 == Ok(false) <==> !(st.current.Some? && p(st.current.value))
    ensures r.0 == Ok(false) ==> r.1 == st
    ensures r.0 != Ok(false) ==> Remaining(r.1) < Remaining(st) && r.1.previous == st.current
  {
    if st.current.Some? && p(st.current.value) then
      var (a, st1) := Advance(st);
      if a.Err? then (Err(a.error), st1) else (Ok(true), st1)
    else (Ok(false), st)
  }

  /** `consume_or`: advance past the current token when it satisfies `p`,
      otherwise fail with `err`. */
  function ConsumeOr(st: ParserState, p: Token -> bool, err: TableError): (r: (Result<()>, ParserState))
    ensures !(st.current.Some? && p(st.current.value)) ==> r == (Err(err), st)
    ensures st.current.Some? && p(st.current.value) ==> r == Advance(st)
    ensures Remaining(r.1) <= Remaining(st)
  {
    if st.current.Some? && p(st.current.value) then Advance(st) else (Err(err), st)
  }

  /** `get_previous_token`. */
  function GetPrevious(st: ParserState): (r: Result<Token>)
    ensures r.Ok? <==> st.previous.Some?
    ensures r.Ok? ==> r.value == st.previous.value
  {
    if st.previous.Some? then Ok(st.previous.value) else Err(NoPreviousToken)
  }

  /** `ast`: pull the first token, then parse one expression. Whatever
      follows that expression is left unread. */
  function ParseAst(st: ParserState, calls: bool): (r: (Result<Expr>, ParserState))
    ensures Remaining(r.1) <= Remaining(st)
    ensures r.0.Ok? ==> WellFormed(r.0.value, calls)
  {
    var (a, st1) := Advance(st);
    if a.Err? then (Err(a.error), st1) else ParseExpression(st1, calls)
  }

  /** Parse the items the tokenizer delivers, from a fresh parser. */
  function Parse(items: seq<Result<Token>>, calls: bool): (r: Result<Expr>)
    ensures r.Ok? ==> WellFormed(r.value, calls)
  {
    ParseAst(ParserState(None, None, items), calls).0
  }

  function ParseExpression(st: ParserState, calls: bool): (r: (Result<Expr>, ParserState))
    ensures Remaining(r.1) <= Remaining(st)
    ensures r.0.Ok? ==> WellFormed(r.0.value, calls)
    decreases Remaining(st), 11
  {
    ParseTerm(st, calls)
  }

  /** `term`: factors joined left-associatively by `+` and `-`. */
  function ParseTerm(st: ParserState, calls: bool): (r: (Result<Expr>, ParserState))
    ensures Remaining(r.1) <= Remaining(st)
    ensures r.0.Ok? ==> WellFormed(r.0.value, calls)
    decreases Remaining(st), 10
  {
    var (left, st1) := ParseFactor(st, calls);
    if left.Err? then (left, st1) else ParseTermTail(left.value, st1, calls)
  }

  /** The loop of `term`, with `expr` the tree built so far. */
  function ParseTermTail(expr: Expr, st: ParserState, calls: bool): (r: (Result<Expr>, ParserState))
    ensures Remaining(r.1) <= Remaining(st)
    ensures r.0.Ok? && WellFormed(expr, calls) ==> WellFormed(r.0.value, calls)
    decreases Remaining(st), 9
  {
    var (m, st1) := AdvanceMatch(st, IsAdditive);
    if m.Err? then (Err(m.error), st1)
    else if !m.value then (Ok(expr), st1)
    else
      var op := GetPrevious(st1);
      if op.Err? then (Err(op.error), st1)
      else
        var (right, st2) := ParseFactor(st1, calls);
        if right.Err? then (right, st2)
        else ParseTermTail(Binary(expr, op.value, right.value), st2, calls)
  }

  /** `factor`: unary expressions joined left-associatively by `*` and `/`. */
  function ParseFactor(st: ParserState, calls: bool): (r: (Result<Expr>, ParserState))
    ensures Remaining(r.1) <= Remaining(st)
    ensures r.0.Ok? ==> WellFormed(r.0.value, calls)
    decreases Remaining(st), 8
  {
    var (left, st1) := ParseUnary(st, calls);
    if left.Err? then (left, st1) else ParseFactorTail(left.value, st1, calls)
  }

  /** The loop of `factor`, with `expr` the tree built so far. */
  function ParseFactorTail(expr: Expr, st: ParserState, calls: bool): (r: (Result<Expr>, ParserState))
    ensures Remaining(r.1) <= Remaining(st)
    ensures r.0.Ok? && WellFormed(expr, calls) ==> WellFormed(r.0.value, calls)
    decreases Remaining(st), 7
  {
    var (m, st1) := AdvanceMatch(st, IsMultiplicative);
    if m.Err? then (Err(m.error), st1)
    else if !m.value then (Ok(expr), st1)
    else
      var op := GetPrevious(st1);
      if op.Err? then (Err(op.error), st1)
      else
        var (right, st2) := ParseUnary(st1, calls);
        if right.Err? then (right, st2)
        else ParseFactorTail(Binary(expr, op.value, right.value), st2, calls)
  }

  /** `unary`: any number of leading `-`, then a call (or, without the call
      level, a primary). */
  function ParseUnary(st: ParserState, calls: bool): (r: (Result<Expr>, ParserState))
    ensures Remaining(r.1) <= Remaining(st)
    ensures r.0.Ok? ==> WellFormed(r.0.value, calls)
    decreases Remaining(st), 6
  {
    var (m, st1) := AdvanceMatch(st, IsMinus);
    if m.Err? then (Err(m.error), st1)
    else if m.value then
      var op := GetPrevious(st1);
      if op.Err? then (Err(op.error), st1)
      else
        var (right, st2) := ParseUnary(st1, calls);
        if right.Err? then (right, st2) else (Ok(Unary(op.value, right.value)), st2)
    else if calls then ParseCall(st1, calls)
    else ParsePrimary(st1, calls)
  }

  /** `call`: a primary followed by any number of argument lists. */
  function ParseCall(st: ParserState, calls: bool): (r: (Result<Expr>, ParserState))
    requires calls
    ensures Remaining(r.1) <= Remaining(st)
    ensures r.0.Ok? ==> WellFormed(r.0.value, calls)
    decreases Remaining(st), 5
  {
    var (callee, st1) := ParsePrimary(st, calls);
    if callee.Err? then (callee, st1) else ParseCallTail(callee.value, st1, calls)
  }

  /** The loop of `call`, with `expr` the tree built so far. */
  function ParseCallTail(expr: Expr, st: ParserState, calls: bool): (r: (Result<Expr>, ParserState))
    requires calls
    ensures Remaining(r.1) <= Remaining(st)
    ensures r.0.Ok? && WellFormed(expr, calls) ==> WellFormed(r.0.value, calls)
    decreases Remaining(st), 4
  {
    var (m, st1) := AdvanceMatch(st, IsLeftParen);
    if m.Err? then (Err(m.error), st1)
    else if !m.value then (Ok(expr), st1)
    else
      var (call, st2) := GenerateCall(expr, st1, calls);
      if call.Err? then (call, st2) else ParseCallTail(call.value, st2, calls)
  }

  /** `generate_call`: comma-separated arguments (at least one), then `)`. */
  function GenerateCall(callee: Expr, st: ParserState, calls: bool): (r: (Result<Expr>, ParserState))
    requires calls
    ensures Remaining(r.1) <= Remaining(st)
    ensures r.0.Ok? && WellFormed(callee, calls) ==> WellFormed(r.0.value, calls)
    ensures r.0.Ok? ==> r.0.value.Call? && r.0.value.callee == callee
    decreases Remaining(st), 13
  {
    var (args, st1) := ParseArguments([], st, calls);
    if args.Err? then (Err(args.error), st1)
    else
      var (c, st2) := ConsumeOr(st1, IsRightParen, MissingArgumentsParen);
      if c.Err? then (Err(c.error), st2) else (Ok(Call(callee, args.value)), st2)
  }

  /** The argument loop of `generate_call`, with `args` the arguments
      parsed so far. */
  function ParseArguments(args: seq<Expr>, st: ParserState, calls: bool): (r: (Result<seq<Expr>>, ParserState))
    ensures Remaining(r.1) <= Remaining(st)
    ensures r.0.Ok? ==> |r.0.value| > |args| && r.0.value[..|args|] == args
    ensures r.0.Ok? && AllWellFormed(args, calls) ==> AllWellFormed(r.0.value, calls)
    decreases Remaining(st), 12
  {
    var (e, st1) := ParseExpression(st, calls);
    if e.Err? then (Err(e.error), st1)
    else
      var (m, st2) := AdvanceMatch(st1, IsComma);
      AppendArgument(args, e.value, calls);
      if m.Err? then (Err(m.error), st2)
      else if m.value then ParseArguments(args + [e.value], st2, calls)
      else (Ok(args + [e.value]), st2)
  }

  predicate AllWellFormed(args: seq<Expr>, calls: bool) {
    forall a :: a in args ==> WellFormed(a, calls)
  }

  /** What appending one argument keeps: the earlier arguments as a prefix,
      and well-formedness when the new one is well formed. */
  lemma AppendArgument(args: seq<Expr>, e: Expr, calls: bool)
    ensures forall longer: seq<Expr> :: |longer| > |args| + 1 && longer[..|args| + 1] == args + [e] ==> longer[..|args|] == args
    ensures AllWellFormed(args, calls) && WellFormed(e, calls) ==> AllWellFormed(args + [e], calls)
  {
    forall longer: seq<Expr> | |longer| > |args| + 1 && longer[..|args| + 1] == args + [e]
      ensures longer[..|args|] == args
    {
      assert longer[..|args|] == longer[..|args| + 1][..|args|];
      assert (args + [e])[..|args|] == args;
    }
  }

  /** `primary`: a literal token, or a parenthesised expression; anything
      else is an error. */
  function ParsePrimary(st: ParserState, calls: bool): (r: (Result<Expr>, ParserState))
    ensures Remaining(r.1) <= Remaining(st)
    ensures r.0.Ok? ==> WellFormed(r.0.value, calls)
    decreases Remaining(st), 3
  {
    var (lit, st1) := AdvanceMatch(st, PrimaryTest(calls));
    if lit.Err? then (Err(lit.error), st1)
    else if lit.value then
      var t := GetPrevious(st1);
      if t.Err? then (Err(t.error), st1) else (Ok(Literal(t.value)), st1)
    else
      var (open, st2) := AdvanceMatch(st1, IsLeftParen);
      if open.Err? then (Err(open.error), st2)
      else if !open.value then (Err(InvalidPrimary), st2)
      else
        var (inner, st3) := ParseExpression(st2, calls);
        if inner.Err? then (inner, st3)
        else
          var (close, st4) := ConsumeOr(st3, IsRightParen, MissingGroupingParen);
          if close.Err? then (Err(close.error), st4) else (Ok(Grouping(inner.value)), st4)
  }
}
