/** Properties of the parser: the shapes it builds for operator chains,
    precedence and unary minus, calls, its error cases, and what evaluating
    a parsed formula gives. */
module ParserProperties {
  import opened Errors
  import opened Tokens
  import opened Ast
  import opened ParserSpec

  /** Tokens as the tokenizer delivers them when it reports no error. */
  function Items(ts: seq<Token>): (items: seq<Result<Token>>)
    ensures |items| == |ts|
    ensures forall i :: 0 <= i < |ts| ==> items[i] == Ok(ts[i])
  {
    seq(|ts|, i requires 0 <= i < |ts| => Ok(ts[i]))
  }

  lemma ItemsOfThree(t1: Token, t2: Token, t3: Token)
    ensures Items([t1, t2, t3]) == [Ok(t1), Ok(t2), Ok(t3)]
  {
  }

  /** The state `ast` reaches once it has pulled the first item. */
  function Started(t: Token, rest: seq<Result<Token>>): ParserState {
    ParserState(Some(t), None, rest)
  }

  lemma ParseStarts(t: Token, rest: seq<Result<Token>>, calls: bool)
    ensures Parse([Ok(t)] + rest, calls) == ParseExpression(Started(t, rest), calls).0
  {
    assert ([Ok(t)] + rest)[1..] == rest;
  }

  // ---- operands ----

  /** A literal the primary accepts, not followed by `(`, is one operand,
      at the unary level. */
  lemma LiteralUnary(st: ParserState, t: Token, calls: bool)
    requires st.current == Some(t) && PrimaryTest(calls)(t)
    requires st.rest == [] || (st.rest[0].Ok? && !st.rest[0].value.LeftParen?)
    ensures ParseUnary(st, calls) == (Ok(Literal(t)), Advance(st).1)
    ensures Advance(st).1.previous == Some(t)
  {
    var st1 := Advance(st).1;
    assert AdvanceMatch(st, IsMinus) == (Ok(false), st);
    assert AdvanceMatch(st, PrimaryTest(calls)) == (Ok(true), st1);
    assert ParsePrimary(st, calls) == (Ok(Literal(t)), st1);
    if calls {
      assert AdvanceMatch(st1, IsLeftParen) == (Ok(false), st1);
      assert ParseCallTail(Literal(t), st1, calls) == (Ok(Literal(t)), st1);
      assert ParseCall(st, calls) == (Ok(Literal(t)), st1);
    }
  }

  /** ... and, when what follows is not `*` or `/`, at the factor level. */
  lemma LiteralFactor(st: ParserState, t: Token, calls: bool)
    requires st.current == Some(t) && PrimaryTest(calls)(t)
    requires st.rest == [] || (st.rest[0].Ok? && !st.rest[0].value.LeftParen? && !IsMultiplicative(st.rest[0].value))
    ensures ParseFactor(st, calls) == (Ok(Literal(t)), Advance(st).1)
  {
    LiteralUnary(st, t, calls);
  }

  /** A factor not followed by `+` or `-` is the whole expression. */
  lemma ExpressionOfFactor(st: ParserState, calls: bool)
    requires ParseFactor(st, calls).0.Ok?
    requires ParseFactor(st, calls).1.current.None? || !IsAdditive(ParseFactor(st, calls).1.current.value)
    ensures ParseExpression(st, calls) == ParseFactor(st, calls)
  {
    var (f, st1) := ParseFactor(st, calls);
    assert AdvanceMatch(st1, IsAdditive) == (Ok(false), st1);
    assert ParseTermTail(f.value, st1, calls) == (f, st1);
  }

  /** A unary expression not followed by `*` or `/` is the whole factor. */
  lemma FactorOfUnary(st: ParserState, calls: bool)
    requires ParseUnary(st, calls).0.Ok?
    requires ParseUnary(st, calls).1.current.None? || !IsMultiplicative(ParseUnary(st, calls).1.current.value)
    ensures ParseFactor(st, calls) == ParseUnary(st, calls)
  {
    var (u, st1) := ParseUnary(st, calls);
    assert AdvanceMatch(st1, IsMultiplicative) == (Ok(false), st1);
    assert ParseFactorTail(u.value, st1, calls) == (u, st1);
  }

  /** A literal followed by no operator and no `(` is a whole expression. */
  lemma LiteralExpression(st: ParserState, t: Token, calls: bool)
    requires st.current == Some(t) && PrimaryTest(calls)(t)
    requires st.rest == [] || (st.rest[0].Ok? && !st.rest[0].value.LeftParen?
                               && !IsMultiplicative(st.rest[0].value) && !IsAdditive(st.rest[0].value))
    ensures ParseExpression(st, calls) == (Ok(Literal(t)), Advance(st).1)
  {
    LiteralUnary(st, t, calls);
    FactorOfUnary(st, calls);
    ExpressionOfFactor(st, calls);
  }

  // ---- operator chains ----

  /** `op x` pairs following a first operand. */
  predicate IsChain(pairs: seq<(Token, Token)>, ops: Token -> bool, calls: bool) {
    forall i :: 0 <= i < |pairs| ==> ops(pairs[i].0) && PrimaryTest(calls)(pairs[i].1)
  }

  function ChainTokens(pairs: seq<(Token, Token)>): seq<Token> {
    if pairs == [] then [] else [pairs[0].0, pairs[0].1] + ChainTokens(pairs[1..])
  }

  /** The left-nested tree of a chain: `((e op1 x1) op2 x2) ...`. */
  function LeftNested(e: Expr, pairs: seq<(Token, Token)>): Expr
    decreases |pairs|
  {
    if pairs == [] then e else LeftNested(Binary(e, pairs[0].0, Literal(pairs[0].1)), pairs[1..])
  }

  /** The parser state at the start of a chain that ends the input. */
  function ChainState(pairs: seq<(Token, Token)>, previous: Option<Token>): ParserState {
    if pairs == [] then ParserState(None, previous, [])
    else ParserState(Some(pairs[0].0), previous, Items(ChainTokens(pairs))[1..])
  }

  lemma ChainStep(pairs: seq<(Token, Token)>, previous: Option<Token>)
    requires pairs != []
    ensures Advance(ChainState(pairs, previous)).1
         == ParserState(Some(pairs[0].1), Some(pairs[0].0), Items(ChainTokens(pairs[1..])))
    ensures Advance(Advance(ChainState(pairs, previous)).1).1
         == ChainState(pairs[1..], Some(pairs[0].1))
  {
    var rest := ChainTokens(pairs[1..]);
    assert ChainTokens(pairs) == [pairs[0].0, pairs[0].1] + rest;
    assert Items(ChainTokens(pairs))[1..] == [Ok(pairs[0].1)] + Items(rest);
    assert ([Ok(pairs[0].1)] + Items(rest))[1..] == Items(rest);
    if pairs[1..] != [] {
      assert Items(rest)[1..] == Items(ChainTokens(pairs[1..]))[1..];
    }
  }

  /** A chain of `*` and `/` builds the left-nested tree, operator by
      operator, and reads the input to its end. */
  lemma {:induction false} FactorTailChain(e: Expr, pairs: seq<(Token, Token)>, previous: Option<Token>, calls: bool)
    requires IsChain(pairs, IsMultiplicative, calls)
    ensures ParseFactorTail(e, ChainState(pairs, previous), calls).0 == Ok(LeftNested(e, pairs))
    ensures ParseFactorTail(e, ChainState(pairs, previous), calls).1.current == None
    decreases |pairs|
  {
    var st := ChainState(pairs, previous);
    if pairs != [] {
      var (op, x) := pairs[0];
      ChainStep(pairs, previous);
      var st1 := Advance(st).1;
      assert AdvanceMatch(st, IsMultiplicative) == (Ok(true), st1);
      LiteralUnary(st1, x, calls);
      assert IsChain(pairs[1..], IsMultiplicative, calls);
      FactorTailChain(Binary(e, op, Literal(x)), pairs[1..], Some(x), calls);
    }
  }

  /** A chain of `+` and `-` builds the left-nested tree, operator by
      operator, and reads the input to its end. */
  lemma {:induction false} TermTailChain(e: Expr, pairs: seq<(Token, Token)>, previous: Option<Token>, calls: bool)
    requires IsChain(pairs, IsAdditive, calls)
    ensures ParseTermTail(e, ChainState(pairs, previous), calls).0 == Ok(LeftNested(e, pairs))
    decreases |pairs|
  {
    var st := ChainState(pairs, previous);
    if pairs != [] {
      var (op, x) := pairs[0];
      ChainStep(pairs, previous);
      var st1 := Advance(st).1;
      assert AdvanceMatch(st, IsAdditive) == (Ok(true), st1);
      LiteralFactor(st1, x, calls);
      assert IsChain(pairs[1..], IsAdditive, calls);
      TermTailChain(Binary(e, op, Literal(x)), pairs[1..], Some(x), calls);
    }
  }

  /** `x op1 x1 op2 x2 ...` with every operator additive parses to the
      left-nested tree. */
  lemma ParseAdditiveChain(x: Token, pairs: seq<(Token, Token)>, calls: bool)
    requires PrimaryTest(calls)(x) && IsChain(pairs, IsAdditive, calls)
    ensures Parse(Items([x] + ChainTokens(pairs)), calls) == Ok(LeftNested(Literal(x), pairs))
  {
    var items := Items(ChainTokens(pairs));
    assert Items([x] + ChainTokens(pairs)) == [Ok(x)] + items;
    ParseStarts(x, items, calls);
    var st := Started(x, items);
    if pairs != [] {
      assert ChainTokens(pairs)[0] == pairs[0].0;
    }
    assert Advance(st).1 == ChainState(pairs, Some(x));
    LiteralFactor(st, x, calls);
    TermTailChain(Literal(x), pairs, Some(x), calls);
    assert ParseExpression(st, calls).0 == ParseTermTail(Literal(x), ChainState(pairs, Some(x)), calls).0;
  }

  /** `x op1 x1 op2 x2 ...` with every operator multiplicative parses to the
      left-nested tree. */
  lemma ParseMultiplicativeChain(x: Token, pairs: seq<(Token, Token)>, calls: bool)
    requires PrimaryTest(calls)(x) && IsChain(pairs, IsMultiplicative, calls)
    ensures Parse(Items([x] + ChainTokens(pairs)), calls) == Ok(LeftNested(Literal(x), pairs))
  {
    var items := Items(ChainTokens(pairs));
    assert Items([x] + ChainTokens(pairs)) == [Ok(x)] + items;
    ParseStarts(x, items, calls);
    var st := Started(x, items);
    if pairs != [] {
      assert ChainTokens(pairs)[0] == pairs[0].0;
    }
    var st1 := Advance(st).1;
    assert st1 == ChainState(pairs, Some(x));
    LiteralUnary(st, x, calls);
    FactorTailChain(Literal(x), pairs, Some(x), calls);
    assert ParseFactor(st, calls) == ParseFactorTail(Literal(x), st1, calls);
    ExpressionOfFactor(st, calls);
  }

  /** `x op y`, for each of `+ - * /` and any operands the primary accepts,
      is exactly `Binary(Literal x, op, Literal y)`. */
  lemma ParseSimpleOperation(x: Token, op: Token, y: Token, calls: bool)
    requires PrimaryTest(calls)(x) && PrimaryTest(calls)(y)
    requires IsArithmetic(op)
    ensures Parse(Items([x, op, y]), calls) == Ok(Binary(Literal(x), op, Literal(y)))
  {
    var pairs := [(op, y)];
    assert ChainTokens(pairs) == [op, y] by {
      assert ChainTokens(pairs[1..]) == [];
    }
    assert [x] + ChainTokens(pairs) == [x, op, y];
    assert LeftNested(Literal(x), pairs) == Binary(Literal(x), op, Literal(y)) by {
      assert pairs[1..] == [];
    }
    if IsAdditive(op) {
      ParseAdditiveChain(x, pairs, calls);
    } else {
      ParseMultiplicativeChain(x, pairs, calls);
    }
  }

  /** `*` binds tighter than `+` on either side of it. */
  lemma Precedence(a: Token, add: Token, b: Token, mul: Token, c: Token, calls: bool)
    requires PrimaryTest(calls)(a) && PrimaryTest(calls)(b) && PrimaryTest(calls)(c)
    requires IsAdditive(add) && IsMultiplicative(mul)
    ensures Parse(Items([a, add, b, mul, c]), calls)
         == Ok(Binary(Literal(a), add, Binary(Literal(b), mul, Literal(c))))
    ensures Parse(Items([a, mul, b, add, c]), calls)
         == Ok(Binary(Binary(Literal(a), mul, Literal(b)), add, Literal(c)))
  {
    AddThenMultiply(a, add, b, mul, c, calls);
    MultiplyThenAdd(a, add, b, mul, c, calls);
  }

  lemma AddThenMultiply(a: Token, add: Token, b: Token, mul: Token, c: Token, calls: bool)
    requires PrimaryTest(calls)(a) && PrimaryTest(calls)(b) && PrimaryTest(calls)(c)
    requires IsAdditive(add) && IsMultiplicative(mul)
    ensures Parse(Items([a, add, b, mul, c]), calls)
         == Ok(Binary(Literal(a), add, Binary(Literal(b), mul, Literal(c))))
  {
    var st1 := ParserState(Some(add), Some(a), Items([b, mul, c]));
    var st2 := ParserState(Some(b), Some(add), Items([mul, c]));
    FirstFactor(a, [add, b, mul, c], calls);
    assert [a] + [add, b, mul, c] == [a, add, b, mul, c];
    assert [add, b, mul, c][1..] == [b, mul, c];
    TermTailStep(Literal(a), st1, calls);
    AdvanceItems(Some(add), Some(a), [b, mul, c]);
    assert [b, mul, c][1..] == [mul, c];
    ProductOperand(b, mul, c, add, calls);
    var bc := Binary(Literal(b), mul, Literal(c));
    var st4 := ParseFactor(st2, calls).1;
    TermTailStop(Binary(Literal(a), add, bc), st4, calls);
    assert ParseTermTail(Literal(a), st1, calls).0 == Ok(Binary(Literal(a), add, bc));
  }

  /** After `op` and `b`, the factor `b mul c` that ends the input. */
  lemma ProductOperand(b: Token, mul: Token, c: Token, op: Token, calls: bool)
    requires PrimaryTest(calls)(b) && PrimaryTest(calls)(c) && IsMultiplicative(mul)
    ensures ParseFactor(ParserState(Some(b), Some(op), Items([mul, c])), calls).0
         == Ok(Binary(Literal(b), mul, Literal(c)))
    ensures ParseFactor(ParserState(Some(b), Some(op), Items([mul, c])), calls).1.current == None
  {
    var st2 := ParserState(Some(b), Some(op), Items([mul, c]));
    LiteralUnary(st2, b, calls);
    assert Advance(st2).1 == ChainState([(mul, c)], Some(b)) by {
      AdvanceItems(Some(b), Some(op), [mul, c]);
      SingleChain(mul, c);
    }
    FactorTailChain(Literal(b), [(mul, c)], Some(b), calls);
    assert LeftNested(Literal(b), [(mul, c)]) == Binary(Literal(b), mul, Literal(c)) by {
      assert [(mul, c)][1..] == [];
    }
  }

  lemma MultiplyThenAdd(a: Token, add: Token, b: Token, mul: Token, c: Token, calls: bool)
    requires PrimaryTest(calls)(a) && PrimaryTest(calls)(b) && PrimaryTest(calls)(c)
    requires IsAdditive(add) && IsMultiplicative(mul)
    ensures Parse(Items([a, mul, b, add, c]), calls)
         == Ok(Binary(Binary(Literal(a), mul, Literal(b)), add, Literal(c)))
  {
    var ab := Binary(Literal(a), mul, Literal(b));
    var st3 := ParserState(Some(add), Some(b), Items([c]));
    ProductPrefix(a, mul, b, add, c, calls);
    assert st3 == ChainState([(add, c)], Some(b)) by {
      SingleChain(add, c);
    }
    TermTailChain(ab, [(add, c)], Some(b), calls);
    assert LeftNested(ab, [(add, c)]) == Binary(ab, add, Literal(c)) by {
      assert [(add, c)][1..] == [];
    }
  }

  /** `a mul b` in front of `add c` is one factor, and the term loop
      continues at `add`. */
  lemma ProductPrefix(a: Token, mul: Token, b: Token, add: Token, c: Token, calls: bool)
    requires PrimaryTest(calls)(a) && PrimaryTest(calls)(b)
    requires IsAdditive(add) && IsMultiplicative(mul)
    ensures Parse(Items([a, mul, b, add, c]), calls)
         == ParseTermTail(Binary(Literal(a), mul, Literal(b)),
                          ParserState(Some(add), Some(b), Items([c])), calls).0
  {
    var ts := [mul, b, add, c];
    var st1 := ParserState(Some(mul), Some(a), Items([b, add, c]));
    assert [a] + ts == [a, mul, b, add, c];
    assert ParserState(Some(ts[0]), Some(a), Items(ts[1..])) == st1 by {
      assert ts[1..] == [b, add, c];
    }
    FirstUnary(a, ts, calls);
    ProductLoop(a, mul, b, add, c, calls);
  }

  lemma ProductLoop(a: Token, mul: Token, b: Token, add: Token, c: Token, calls: bool)
    requires PrimaryTest(calls)(b)
    requires IsAdditive(add) && IsMultiplicative(mul)
    ensures ParseFactorTail(Literal(a), ParserState(Some(mul), Some(a), Items([b, add, c])), calls)
         == (Ok(Binary(Literal(a), mul, Literal(b))), ParserState(Some(add), Some(b), Items([c])))
  {
    var st1 := ParserState(Some(mul), Some(a), Items([b, add, c]));
    var st2 := ParserState(Some(b), Some(mul), Items([add, c]));
    var st3 := ParserState(Some(add), Some(b), Items([c]));
    assert Items([b, add, c])[0] == Ok(b);
    AdvanceItems(Some(mul), Some(a), [b, add, c]);
    assert [b, add, c][1..] == [add, c];
    LiteralBeforeOperator(b, mul, add, c, calls);
    FactorTailOperand(Literal(a), st1, st2, Literal(b), st3, calls);
    FactorTailStop(Binary(Literal(a), mul, Literal(b)), st3, calls);
  }

  /** A literal followed by an operator and one more token parses alone. */
  lemma LiteralBeforeOperator(b: Token, mul: Token, add: Token, c: Token, calls: bool)
    requires PrimaryTest(calls)(b) && IsAdditive(add)
    ensures ParseUnary(ParserState(Some(b), Some(mul), Items([add, c])), calls)
         == (Ok(Literal(b)), ParserState(Some(add), Some(b), Items([c])))
  {
    assert Items([add, c])[0] == Ok(add);
    LiteralUnary(ParserState(Some(b), Some(mul), Items([add, c])), b, calls);
    AdvanceItems(Some(b), Some(mul), [add, c]);
    assert [add, c][1..] == [c];
  }

  // ---- single steps of the operator loops ----

  /** Pulling the next item of a list of tokens. */
  lemma AdvanceItems(current: Option<Token>, previous: Option<Token>, ts: seq<Token>)
    requires ts != []
    ensures Advance(ParserState(current, previous, Items(ts))).1 == ParserState(Some(ts[0]), current, Items(ts[1..]))
  {
    assert Items(ts)[1..] == Items(ts[1..]);
  }

  lemma SingleChain(op: Token, x: Token)
    ensures ChainState([(op, x)], None) == ParserState(Some(op), None, Items([x]))
    ensures forall p :: ChainState([(op, x)], p) == ParserState(Some(op), p, Items([x]))
  {
    assert ChainTokens([(op, x)]) == [op, x] by {
      assert ChainTokens([(op, x)][1..]) == [];
    }
    assert Items([op, x])[1..] == Items([x]);
  }

  /** A literal operand not followed by `(` or `*`, `/`: the term loop
      starts after it. */
  lemma FirstFactor(a: Token, ts: seq<Token>, calls: bool)
    requires PrimaryTest(calls)(a)
    requires ts != [] && !ts[0].LeftParen? && !IsMultiplicative(ts[0])
    ensures Parse(Items([a] + ts), calls)
         == ParseTermTail(Literal(a), ParserState(Some(ts[0]), Some(a), Items(ts[1..])), calls).0
  {
    assert Items([a] + ts) == [Ok(a)] + Items(ts);
    ParseStarts(a, Items(ts), calls);
    LiteralFactor(Started(a, Items(ts)), a, calls);
    AdvanceItems(Some(a), None, ts);
  }

  /** A literal operand not followed by `(`: the factor loop starts after
      it, and the term loop after that. */
  lemma FirstUnary(a: Token, ts: seq<Token>, calls: bool)
    requires PrimaryTest(calls)(a)
    requires ts != [] && !ts[0].LeftParen?
    ensures var (f, st) := ParseFactorTail(Literal(a), ParserState(Some(ts[0]), Some(a), Items(ts[1..])), calls);
      Parse(Items([a] + ts), calls) == if f.Err? then f else ParseTermTail(f.value, st, calls).0
  {
    assert Items([a] + ts) == [Ok(a)] + Items(ts);
    ParseStarts(a, Items(ts), calls);
    var st0 := Started(a, Items(ts));
    var st1 := ParserState(Some(ts[0]), Some(a), Items(ts[1..]));
    LiteralUnary(st0, a, calls);
    AdvanceItems(Some(a), None, ts);
    assert ParseFactor(st0, calls) == ParseFactorTail(Literal(a), st1, calls);
    var (f, st) := ParseFactorTail(Literal(a), st1, calls);
    assert ParseTerm(st0, calls) == if f.Err? then (f, st) else ParseTermTail(f.value, st, calls);
  }

  /** One round of the term loop, at an additive operator. */
  lemma TermTailStep(e: Expr, st: ParserState, calls: bool)
    requires st.current.Some? && IsAdditive(st.current.value)
    requires st.rest != [] && st.rest[0].Ok?
    ensures var (right, st2) := ParseFactor(Advance(st).1, calls);
      ParseTermTail(e, st, calls)
        == if right.Err? then (right, st2) else ParseTermTail(Binary(e, st.current.value, right.value), st2, calls)
  {
    assert AdvanceMatch(st, IsAdditive) == (Ok(true), Advance(st).1);
  }

  /** The term loop stops at anything but `+` and `-`. */
  lemma TermTailStop(e: Expr, st: ParserState, calls: bool)
    requires st.current.None? || !IsAdditive(st.current.value)
    ensures ParseTermTail(e, st, calls) == (Ok(e), st)
  {
    assert AdvanceMatch(st, IsAdditive) == (Ok(false), st);
  }

  /** One round of the factor loop, at a multiplicative operator. */
  lemma FactorTailStep(e: Expr, st: ParserState, calls: bool)
    requires st.current.Some? && IsMultiplicative(st.current.value)
    requires st.rest != [] && st.rest[0].Ok?
    ensures var (right, st2) := ParseUnary(Advance(st).1, calls);
      ParseFactorTail(e, st, calls)
        == if right.Err? then (right, st2) else ParseFactorTail(Binary(e, st.current.value, right.value), st2, calls)
  {
    assert AdvanceMatch(st, IsMultiplicative) == (Ok(true), Advance(st).1);
  }

  /** One turn of the factor loop whose operand parses. */
  lemma FactorTailOperand(e: Expr, st: ParserState, next: ParserState, right: Expr, st2: ParserState, calls: bool)
    requires st.current.Some? && IsMultiplicative(st.current.value)
    requires st.rest != [] && st.rest[0].Ok?
    requires Advance(st).1 == next && ParseUnary(next, calls) == (Ok(right), st2)
    ensures ParseFactorTail(e, st, calls) == ParseFactorTail(Binary(e, st.current.value, right), st2, calls)
  {
    FactorTailStep(e, st, calls);
  }

  /** The factor loop stops at anything but `*` and `/`. */
  lemma FactorTailStop(e: Expr, st: ParserState, calls: bool)
    requires st.current.None? || !IsMultiplicative(st.current.value)
    ensures ParseFactorTail(e, st, calls) == (Ok(e), st)
  {
    assert AdvanceMatch(st, IsMultiplicative) == (Ok(false), st);
  }

  // ---- unary minus ----

  /** A leading `-` wraps whatever unary expression follows it; without
      one, parsing falls through to the next level. */
  lemma UnaryLevels(st: ParserState, calls: bool)
    requires st.rest == [] || st.rest[0].Ok?
    ensures st.current == Some(Minus) ==>
      var st1 := Advance(st).1;
      var (inner, st2) := ParseUnary(st1, calls);
      ParseUnary(st, calls) == (if inner.Ok? then Ok(Unary(Minus, inner.value)) else inner, st2)
    ensures st.current != Some(Minus) ==>
      ParseUnary(st, calls) == if calls then ParseCall(st, calls) else ParsePrimary(st, calls)
  {
  }

  /** An error at the unary level ends the whole expression with it. */
  lemma UnaryErrorAborts(st: ParserState, calls: bool)
    requires ParseUnary(st, calls).0.Err?
    ensures ParseExpression(st, calls).0 == ParseUnary(st, calls).0
  {
    assert ParseFactor(st, calls).0 == ParseUnary(st, calls).0;
    assert ParseTerm(st, calls).0 == ParseUnary(st, calls).0;
  }

  /** Without a leading `-`, an error of the primary is the error of the
      unary level. */
  lemma PrimaryErrorAborts(st: ParserState, calls: bool)
    requires st.current != Some(Minus)
    requires ParsePrimary(st, calls).0.Err?
    ensures ParseUnary(st, calls).0 == ParsePrimary(st, calls).0
  {
    assert AdvanceMatch(st, IsMinus) == (Ok(false), st);
  }

  /** `- - x` is `Unary(-, Unary(-, x))`, and `- x * y` negates `x` alone. */
  lemma ParseNegations(x: Token, y: Token, calls: bool)
    requires PrimaryTest(calls)(x) && PrimaryTest(calls)(y)
    ensures Parse(Items([Minus, Minus, x]), calls) == Ok(Unary(Minus, Unary(Minus, Literal(x))))
    ensures Parse(Items([Minus, x, Star, y]), calls) == Ok(Binary(Unary(Minus, Literal(x)), Star, Literal(y)))
  {
    DoubleNegation(x, calls);
    NegatedProduct(x, y, calls);
  }

  lemma DoubleNegation(x: Token, calls: bool)
    requires PrimaryTest(calls)(x)
    ensures Parse(Items([Minus, Minus, x]), calls) == Ok(Unary(Minus, Unary(Minus, Literal(x))))
  {
    var st0 := Started(Minus, Items([Minus, x]));
    ParseStarts(Minus, Items([Minus, x]), calls);
    assert Items([Minus, Minus, x]) == [Ok(Minus)] + Items([Minus, x]);
    var st1 := Advance(st0).1;
    assert st1 == ParserState(Some(Minus), Some(Minus), Items([x]));
    var st2 := Advance(st1).1;
    assert st2 == ParserState(Some(x), Some(Minus), []);
    LiteralUnary(st2, x, calls);
    var st3 := Advance(st2).1;
    assert st3.current == None;
    UnaryLevels(st1, calls);
    assert ParseUnary(st1, calls) == (Ok(Unary(Minus, Literal(x))), st3);
    UnaryLevels(st0, calls);
    assert ParseUnary(st0, calls) == (Ok(Unary(Minus, Unary(Minus, Literal(x)))), st3);
    FactorOfUnary(st0, calls);
    ExpressionOfFactor(st0, calls);
  }

  lemma NegatedProduct(x: Token, y: Token, calls: bool)
    requires PrimaryTest(calls)(x) && PrimaryTest(calls)(y)
    ensures Parse(Items([Minus, x, Star, y]), calls) == Ok(Binary(Unary(Minus, Literal(x)), Star, Literal(y)))
  {
    var st0 := Started(Minus, Items([x, Star, y]));
    ParseStarts(Minus, Items([x, Star, y]), calls);
    assert Items([Minus, x, Star, y]) == [Ok(Minus)] + Items([x, Star, y]);
    var nx := Unary(Minus, Literal(x));
    var st2 := ChainState([(Star, y)], Some(x));
    NegatedOperand(x, y, calls);
    FactorTailChain(nx, [(Star, y)], Some(x), calls);
    assert LeftNested(nx, [(Star, y)]) == Binary(nx, Star, Literal(y)) by {
      assert [(Star, y)][1..] == [];
    }
    assert ParseFactor(st0, calls) == ParseFactorTail(nx, st2, calls);
    ExpressionOfFactor(st0, calls);
  }

  /** `- x` in front of `* y` is one unary operand. */
  lemma NegatedOperand(x: Token, y: Token, calls: bool)
    requires PrimaryTest(calls)(x)
    ensures ParseUnary(Started(Minus, Items([x, Star, y])), calls)
         == (Ok(Unary(Minus, Literal(x))), ChainState([(Star, y)], Some(x)))
  {
    var st0 := Started(Minus, Items([x, Star, y]));
    var st1 := ParserState(Some(x), Some(Minus), Items([Star, y]));
    assert Advance(st0).1 == st1 by {
      AdvanceItems(Some(Minus), None, [x, Star, y]);
      assert [x, Star, y][1..] == [Star, y];
    }
    LiteralUnary(st1, x, calls);
    UnaryLevels(st0, calls);
    assert Advance(st1).1 == ChainState([(Star, y)], Some(x)) by {
      AdvanceItems(Some(x), Some(Minus), [Star, y]);
      assert [Star, y][1..] == [y];
      SingleChain(Star, y);
    }
  }

  // ---- calls ----

  /** An argument not followed by `,` is the last one. */
  lemma LastArgument(args: seq<Expr>, st: ParserState, calls: bool)
    requires ParseExpression(st, calls).0.Ok?
    requires ParseExpression(st, calls).1.current != Some(Comma)
    ensures ParseArguments(args, st, calls)
         == (Ok(args + [ParseExpression(st, calls).0.value]), ParseExpression(st, calls).1)
  {
    var (e, st1) := ParseExpression(st, calls);
    assert AdvanceMatch(st1, IsComma) == (Ok(false), st1);
  }

  /** An argument followed by `,` is followed by more. */
  lemma MoreArguments(args: seq<Expr>, st: ParserState, calls: bool)
    requires ParseExpression(st, calls).0.Ok?
    requires ParseExpression(st, calls).1.current == Some(Comma)
    requires var rest := ParseExpression(st, calls).1.rest; rest == [] || rest[0].Ok?
    ensures ParseArguments(args, st, calls)
         == ParseArguments(args + [ParseExpression(st, calls).0.value], Advance(ParseExpression(st, calls).1).1, calls)
  {
    var (e, st1) := ParseExpression(st, calls);
    assert AdvanceMatch(st1, IsComma) == (Ok(true), Advance(st1).1);
  }

  /** A call level whose primary is `sum`, followed by one argument list
      and then nothing that continues it. */
  lemma SumCallLevel(st: ParserState, st2: ParserState, args: seq<Expr>, st3: ParserState)
    requires st.current == Some(Sum) && |st.rest| >= 2 && st.rest[0] == Ok(LeftParen) && st.rest[1].Ok?
    requires st2 == Advance(Advance(st).1).1
    requires ParseArguments([], st2, true) == (Ok(args), st3)
    requires st3.current == Some(RightParen) && (st3.rest == [] || (st3.rest[0].Ok? && !st3.rest[0].value.LeftParen?))
    ensures ParseUnary(st, true) == (Ok(Call(Literal(Sum), args)), Advance(st3).1)
  {
    var st1 := Advance(st).1;
    assert AdvanceMatch(st, IsMinus) == (Ok(false), st);
    assert AdvanceMatch(st, IsCallPrimary) == (Ok(true), st1);
    assert ParsePrimary(st, true) == (Ok(Literal(Sum)), st1);
    assert AdvanceMatch(st1, IsLeftParen) == (Ok(true), st2);
    var st4 := Advance(st3).1;
    assert ConsumeOr(st3, IsRightParen, MissingArgumentsParen) == (Ok(()), st4);
    var call := Call(Literal(Sum), args);
    assert GenerateCall(Literal(Sum), st2, true) == (Ok(call), st4);
    assert AdvanceMatch(st4, IsLeftParen) == (Ok(false), st4);
    assert ParseCallTail(call, st4, true) == (Ok(call), st4);
    assert ParseCallTail(Literal(Sum), st1, true) == (Ok(call), st4);
  }

  /** `sum(x)` with the call level is a one-argument call; without it,
      `sum` is not a primary at all. */
  lemma ParseSumCall(x: Token)
    requires x.Number? || x.CellRef? || x.CellRange?
    ensures Parse(Items([Sum, LeftParen, x, RightParen]), true) == Ok(Call(Literal(Sum), [Literal(x)]))
    ensures Parse(Items([Sum, LeftParen, x, RightParen]), false) == Err(InvalidPrimary)
  {
    SumCallAccepted(x);
    SumCallRejected(x);
  }

  lemma SumCallAccepted(x: Token)
    requires x.Number? || x.CellRef? || x.CellRange?
    ensures Parse(Items([Sum, LeftParen, x, RightParen]), true) == Ok(Call(Literal(Sum), [Literal(x)]))
  {
    var ts := [LeftParen, x, RightParen];
    assert Items([Sum] + ts) == [Ok(Sum)] + Items(ts);
    assert [Sum] + ts == [Sum, LeftParen, x, RightParen];
    ParseStarts(Sum, Items(ts), true);
    var st0 := Started(Sum, Items(ts));
    var st2 := ParserState(Some(x), Some(LeftParen), Items([RightParen]));
    assert Advance(Advance(st0).1).1 == st2 by {
      AdvanceItems(Some(Sum), None, ts);
      assert ts[1..] == [x, RightParen];
      AdvanceItems(Some(LeftParen), Some(Sum), [x, RightParen]);
      assert [x, RightParen][1..] == [RightParen];
    }
    LiteralExpression(st2, x, true);
    var st3 := ParserState(Some(RightParen), Some(x), []);
    assert Advance(st2).1 == st3 by {
      AdvanceItems(Some(x), Some(LeftParen), [RightParen]);
      assert [RightParen][1..] == [];
    }
    LastArgument([], st2, true);
    assert [] + [Literal(x)] == [Literal(x)];
    SumCallLevel(st0, st2, [Literal(x)], st3);
    FactorOfUnary(st0, true);
    ExpressionOfFactor(st0, true);
  }

  lemma SumCallRejected(x: Token)
    ensures Parse(Items([Sum, LeftParen, x, RightParen]), false) == Err(InvalidPrimary)
  {
    var items := Items([LeftParen, x, RightParen]);
    assert Items([Sum, LeftParen, x, RightParen]) == [Ok(Sum)] + items;
    ParseStarts(Sum, items, false);
    var st0 := Started(Sum, items);
    assert ParsePrimary(st0, false) == (Err(InvalidPrimary), st0);
    PrimaryErrorAborts(st0, false);
    UnaryErrorAborts(st0, false);
  }

  /** A call whose arguments are not closed by `)` is an error naming the
      missing parenthesis. */
  lemma MissingCallParen(x: Token)
    requires x.Number? || x.CellRef? || x.CellRange?
    ensures Parse(Items([Sum, LeftParen, x]), true) == Err(MissingArgumentsParen)
  {
    var items := Items([LeftParen, x]);
    assert Items([Sum, LeftParen, x]) == [Ok(Sum)] + items;
    ParseStarts(Sum, items, true);
    var st0 := Started(Sum, items);
    var st1 := Advance(st0).1;
    assert ParsePrimary(st0, true) == (Ok(Literal(Sum)), st1);
    var st2 := Advance(st1).1;
    assert AdvanceMatch(st1, IsLeftParen) == (Ok(true), st2);
    assert st2 == ParserState(Some(x), Some(LeftParen), []);
    LiteralExpression(st2, x, true);
    var st3 := Advance(st2).1;
    LastArgument([], st2, true);
    assert GenerateCall(Literal(Sum), st2, true).0 == Err(MissingArgumentsParen);
    assert ParseCallTail(Literal(Sum), st1, true).0 == Err(MissingArgumentsParen);
    assert AdvanceMatch(st0, IsMinus) == (Ok(false), st0);
    assert ParseUnary(st0, true).0 == Err(MissingArgumentsParen);
    UnaryErrorAborts(st0, true);
  }

  /** The test formula `sum(a1, sum(a1:e2))` as tokens. */
  function SumOfSums(): seq<Token> {
    [Sum, LeftParen, CellRef(0, 0), Comma, Sum, LeftParen,
     CellRange(Range(0, 5), Range(1, 3)), RightParen, RightParen]
  }

  /** The inner `sum(a1:e2)`, parsed up to the final `)`. */
  lemma InnerSum(st: ParserState)
    requires st == ParserState(Some(Sum), Some(Comma),
                               Items([LeftParen, CellRange(Range(0, 5), Range(1, 3)), RightParen, RightParen]))
    ensures ParseExpression(st, true)
         == (Ok(Call(Literal(Sum), [Literal(CellRange(Range(0, 5), Range(1, 3)))])),
             ParserState(Some(RightParen), Some(RightParen), []))
  {
    var range := CellRange(Range(0, 5), Range(1, 3));
    var st2 := Advance(Advance(st).1).1;
    assert st2 == ParserState(Some(range), Some(LeftParen), Items([RightParen, RightParen]));
    LiteralExpression(st2, range, true);
    var st3 := Advance(st2).1;
    assert st3 == ParserState(Some(RightParen), Some(range), Items([RightParen]));
    LastArgument([], st2, true);
    SumCallLevel(st, st2, [Literal(range)], st3);
    assert Advance(st3).1 == ParserState(Some(RightParen), Some(RightParen), []);
    FactorOfUnary(st, true);
    ExpressionOfFactor(st, true);
  }

  /** The first argument of the outer call, `a1`, followed by `,`. */
  lemma OuterFirstArgument(st2: ParserState, st4: ParserState)
    requires st2 == ParserState(Some(CellRef(0, 0)), Some(LeftParen),
                                Items([Comma, Sum, LeftParen, CellRange(Range(0, 5), Range(1, 3)), RightParen, RightParen]))
    requires st4 == ParserState(Some(Sum), Some(Comma),
                                Items([LeftParen, CellRange(Range(0, 5), Range(1, 3)), RightParen, RightParen]))
    ensures ParseArguments([], st2, true) == ParseArguments([Literal(CellRef(0, 0))], st4, true)
  {
    var range := CellRange(Range(0, 5), Range(1, 3));
    var st3 := ParserState(Some(Comma), Some(CellRef(0, 0)), Items([Sum, LeftParen, range, RightParen, RightParen]));
    assert Advance(st2).1 == st3;
    LiteralExpression(st2, CellRef(0, 0), true);
    assert ParseExpression(st2, true) == (Ok(Literal(CellRef(0, 0))), st3);
    assert Advance(st3).1 == st4;
    MoreArguments([], st2, true);
    assert [] + [Literal(CellRef(0, 0))] == [Literal(CellRef(0, 0))];
  }

  /** The second argument of the outer call, the inner call, is the last. */
  lemma OuterSecondArgument(st4: ParserState)
    requires st4 == ParserState(Some(Sum), Some(Comma),
                                Items([LeftParen, CellRange(Range(0, 5), Range(1, 3)), RightParen, RightParen]))
    ensures ParseArguments([Literal(CellRef(0, 0))], st4, true)
         == (Ok([Literal(CellRef(0, 0)), Call(Literal(Sum), [Literal(CellRange(Range(0, 5), Range(1, 3)))])]),
             ParserState(Some(RightParen), Some(RightParen), []))
  {
    InnerSum(st4);
    var inner := Call(Literal(Sum), [Literal(CellRange(Range(0, 5), Range(1, 3)))]);
    LastArgument([Literal(CellRef(0, 0))], st4, true);
    assert [Literal(CellRef(0, 0))] + [inner] == [Literal(CellRef(0, 0)), inner];
  }

  /** `sum(a1, sum(a1:e2))` parses to a call of `sum` whose second
      argument is itself a call. */
  lemma ParseSumOfSums()
    ensures Parse(Items(SumOfSums()), true)
         == Ok(Call(Literal(Sum), [Literal(CellRef(0, 0)),
                                   Call(Literal(Sum), [Literal(CellRange(Range(0, 5), Range(1, 3)))])]))
  {
    var ts := SumOfSums();
    var args := [Literal(CellRef(0, 0)), Call(Literal(Sum), [Literal(CellRange(Range(0, 5), Range(1, 3)))])];
    assert Items(ts) == [Ok(Sum)] + Items(ts[1..]);
    ParseStarts(Sum, Items(ts[1..]), true);
    var st0 := Started(Sum, Items(ts[1..]));
    var st2 := ParserState(Some(CellRef(0, 0)), Some(LeftParen), Items(ts[3..]));
    assert Advance(Advance(st0).1).1 == st2 by {
      AdvanceItems(Some(Sum), None, ts[1..]);
      assert ts[1..][1..] == ts[2..];
      AdvanceItems(Some(LeftParen), Some(Sum), ts[2..]);
      assert ts[2..][1..] == ts[3..];
    }
    assert ts[3..] == [Comma, Sum, LeftParen, CellRange(Range(0, 5), Range(1, 3)), RightParen, RightParen];
    var st4 := ParserState(Some(Sum), Some(Comma),
                           Items([LeftParen, CellRange(Range(0, 5), Range(1, 3)), RightParen, RightParen]));
    OuterFirstArgument(st2, st4);
    OuterSecondArgument(st4);
    var st5 := ParserState(Some(RightParen), Some(RightParen), []);
    SumCallLevel(st0, st2, args, st5);
    FactorOfUnary(st0, true);
    ExpressionOfFactor(st0, true);
  }

  // ---- errors ----

  /** A first token that can start nothing is an invalid primary, and so
      is an empty stream. */
  lemma InvalidFirstToken(t: Token, rest: seq<Result<Token>>, calls: bool)
    requires !t.Minus? && !t.LeftParen? && !PrimaryTest(calls)(t)
    ensures Parse([Ok(t)] + rest, calls) == Err(InvalidPrimary)
    ensures Parse([], calls) == Err(InvalidPrimary)
  {
    ParseStarts(t, rest, calls);
    var st := Started(t, rest);
    assert ParsePrimary(st, calls) == (Err(InvalidPrimary), st);
    PrimaryErrorAborts(st, calls);
    UnaryErrorAborts(st, calls);
    var empty := ParserState(None, None, []);
    assert ParsePrimary(empty, calls) == (Err(InvalidPrimary), empty);
    PrimaryErrorAborts(empty, calls);
    UnaryErrorAborts(empty, calls);
  }

  /** A parenthesised expression that is not closed is an error naming the
      missing parenthesis. */
  lemma UnclosedGrouping(x: Token, calls: bool)
    requires PrimaryTest(calls)(x)
    ensures Parse(Items([LeftParen, x]), calls) == Err(MissingGroupingParen)
  {
    assert Items([LeftParen, x]) == [Ok(LeftParen)] + Items([x]);
    ParseStarts(LeftParen, Items([x]), calls);
    var st0 := Started(LeftParen, Items([x]));
    var st1 := Advance(st0).1;
    assert st1 == ParserState(Some(x), Some(LeftParen), []);
    assert AdvanceMatch(st0, PrimaryTest(calls)) == (Ok(false), st0);
    assert AdvanceMatch(st0, IsLeftParen) == (Ok(true), st1);
    LiteralExpression(st1, x, calls);
    var st2 := Advance(st1).1;
    assert ConsumeOr(st2, IsRightParen, MissingGroupingParen) == (Err(MissingGroupingParen), st2);
    assert ParsePrimary(st0, calls) == (Err(MissingGroupingParen), st2);
    PrimaryErrorAborts(st0, calls);
    UnaryErrorAborts(st0, calls);
  }

  /** A lexer error aborts the parse with that same error, whether it is
      the first item or the one pulled after the first operand. */
  lemma LexerErrorAborts(e: TableError, x: Token, rest: seq<Result<Token>>, calls: bool)
    requires PrimaryTest(calls)(x)
    ensures Parse([Err(e)] + rest, calls) == Err(e)
    ensures Parse([Ok(x), Err(e)] + rest, calls) == Err(e)
  {
    ParseStarts(x, [Err(e)] + rest, calls);
    assert [Ok(x), Err(e)] + rest == [Ok(x)] + ([Err(e)] + rest);
    var st0 := Started(x, [Err(e)] + rest);
    assert AdvanceMatch(st0, PrimaryTest(calls)).0 == Err(e);
    assert ParsePrimary(st0, calls).0 == Err(e);
    PrimaryErrorAborts(st0, calls);
    UnaryErrorAborts(st0, calls);
  }

  /** `ast` stops after one expression: input after it is never read, even
      a lexer error. */
  lemma TrailingInputIgnored(x: Token, y: Token, rest: seq<Result<Token>>, calls: bool)
    requires PrimaryTest(calls)(x) && PrimaryTest(calls)(y)
    ensures Parse([Ok(x), Ok(y)] + rest, calls) == Ok(Literal(x))
  {
    ParseStarts(x, [Ok(y)] + rest, calls);
    assert [Ok(x), Ok(y)] + rest == [Ok(x)] + ([Ok(y)] + rest);
    LiteralExpression(Started(x, [Ok(y)] + rest), x, calls);
  }

  // ---- parsed formulas evaluated ----

  /** A formula parsed by the restricted grammar cannot fail for a reason
      of its own shape: any error is a division by zero or the error of a
      lookup it made. */
  lemma {:induction false} ParsedFormulaErrors(e: Expr, lookup: Lookup)
    requires WellFormed(e, false)
    ensures Eval(e, lookup).Err? ==>
      Eval(e, lookup).error == DivisionByZero
      || exists p :: p in Lookups(e, lookup) && lookup(p.0, p.1) == Eval(e, lookup)
  {
    match e
    case Binary(l, op, r) =>
      ParsedFormulaErrors(l, lookup);
      ParsedFormulaErrors(r, lookup);
      if Eval(l, lookup).Err? {
        if Eval(l, lookup).error != DivisionByZero {
          var p :| p in Lookups(l, lookup) && lookup(p.0, p.1) == Eval(l, lookup);
          assert p in Lookups(e, lookup);
        }
      } else if Eval(r, lookup).Err? {
        if Eval(r, lookup).error != DivisionByZero {
          var p :| p in Lookups(r, lookup) && lookup(p.0, p.1) == Eval(r, lookup);
          assert Lookups(e, lookup) == Lookups(l, lookup) + Lookups(r, lookup);
          assert p in Lookups(e, lookup);
        }
      }
    case Grouping(inner) => ParsedFormulaErrors(inner, lookup);
    case Literal(t) =>
      if t.CellRef? {
        assert (t.col, t.row) in Lookups(e, lookup);
      }
    case Unary(_, r) => ParsedFormulaErrors(r, lookup);
  }

  /** Parsing `a op b` over two numbers and evaluating it applies `op`;
      nothing is looked up. */
  lemma ParseThenEvaluate(a: real, op: Token, b: real, lookup: Lookup)
    requires IsArithmetic(op)
    ensures Parse(Items([Number(a), op, Number(b)]), false).Ok?
    ensures Eval(Parse(Items([Number(a), op, Number(b)]), false).value, lookup) == Apply(op, a, b)
  {
    ParseSimpleOperation(Number(a), op, Number(b), false);
  }
}
