/** The recursive-descent parser as the source writes it: an object whose
    methods move through the token stream by updating the current and
    previous token (src/parser.rs:7-164, and the older copy at
    src/ast.rs:103-232 when `calls` is false). The stream is the sequence of
    items the tokenizer has yet to deliver. Every method is proved to leave
    the parser exactly where the function of the same name in `ParserSpec`
    says, with the same result. */
module Parsing {
  import opened Errors
  import opened Tokens
  import opened Ast
  import opened ParserSpec

  class Parser {
    var current: Option<Token>
    var previous: Option<Token>
    var rest: seq<Result<Token>>
    const calls: bool

    function State(): ParserState
      reads this
    {
      ParserState(current, previous, rest)
    }

    constructor(items: seq<Result<Token>>, calls: bool)
      ensures State() == ParserState(None, None, items)
      ensures this.calls == calls
    {
      current := None;
      previous := None;
      rest := items;
      this.calls := calls;
    }

    method Advance() returns (r: Result<()>)
      modifies this
      ensures (r, State()) == ParserSpec.Advance(old(State()))
    {
      previous := current;
      if rest == [] {
        current := None;
        return Ok(());
      }
      var item := rest[0];
      rest := rest[1..];
      if item.Err? {
        return Err(item.error);
      }
      current := Some(item.value);
      r := Ok(());
    }

    method AdvanceMatch(p: Token -> bool) returns (r: Result<bool>)
      modifies this
      ensures (r, State()) == ParserSpec.AdvanceMatch(old(State()), p)
    {
      if current.Some? && p(current.value) {
        var a := Advance();
        if a.Err? {
          return Err(a.error);
        }
        return Ok(true);
      }
      r := Ok(false);
    }

    method ConsumeOr(p: Token -> bool, err: TableError) returns (r: Result<()>)
      modifies this
      ensures (r, State()) == ParserSpec.ConsumeOr(old(State()), p, err)
    {
      if current.Some? && p(current.value) {
        r := Advance();
      } else {
        r := Err(err);
      }
    }

    method GetPreviousToken() returns (r: Result<Token>)
      ensures r == GetPrevious(State())
    {
      if previous.Some? {
        r := Ok(previous.value);
      } else {
        r := Err(NoPreviousToken);
      }
    }

    method Ast() returns (r: Result<Expr>)
      modifies this
      ensures (r, State()) == ParseAst(old(State()), calls)
    {
      var a := Advance();
      if a.Err? {
        return Err(a.error);
      }
      r := Expression();
    }

    method Expression() returns (r: Result<Expr>)
      modifies this
      ensures (r, State()) == ParseExpression(old(State()), calls)
      decreases Remaining(State()), 11
    {
      r := Term();
    }

    method Term() returns (r: Result<Expr>)
      modifies this
      ensures (r, State()) == ParseTerm(old(State()), calls)
      decreases Remaining(State()), 10
    {
      var left := Factor();
      if left.Err? {
        return left;
      }
      var expr := left.value;
      while true
        invariant ParseTerm(old(State()), calls) == ParseTermTail(expr, State(), calls)
        invariant Remaining(State()) <= Remaining(old(State()))
        decreases Remaining(State())
      {
        var m := AdvanceMatch(IsAdditive);
        if m.Err? {
          return Err(m.error);
        }
        if !m.value {
          return Ok(expr);
        }
        var op := GetPreviousToken();
        if op.Err? {
          return Err(op.error);
        }
        var right := Factor();
        if right.Err? {
          return right;
        }
        expr := Binary(expr, op.value, right.value);
      }
    }

    method Factor() returns (r: Result<Expr>)
      modifies this
      ensures (r, State()) == ParseFactor(old(State()), calls)
      decreases Remaining(State()), 8
    {
      var left := Unary();
      if left.Err? {
        return left;
      }
      var expr := left.value;
      while true
        invariant ParseFactor(old(State()), calls) == ParseFactorTail(expr, State(), calls)
        invariant Remaining(State()) <= Remaining(old(State()))
        decreases Remaining(State())
      {
        var m := AdvanceMatch(IsMultiplicative);
        if m.Err? {
          return Err(m.error);
        }
        if !m.value {
          return Ok(expr);
        }
        var op := GetPreviousToken();
        if op.Err? {
          return Err(op.error);
        }
        var right := Unary();
        if right.Err? {
          return right;
        }
        expr := Binary(expr, op.value, right.value);
      }
    }

    method Unary() returns (r: Result<Expr>)
      modifies this
      ensures (r, State()) == ParseUnary(old(State()), calls)
      decreases Remaining(State()), 6
    {
      var m := AdvanceMatch(IsMinus);
      if m.Err? {
        return Err(m.error);
      }
      if m.value {
        var op := GetPreviousToken();
        if op.Err? {
          return Err(op.error);
        }
        var right := Unary();
        if right.Err? {
          return right;
        }
        return Ok(Expr.Unary(op.value, right.value));
      }
      if calls {
        r := Call();
      } else {
        r := Primary();
      }
    }

    method Call() returns (r: Result<Expr>)
      requires calls
      modifies this
      ensures (r, State()) == ParseCall(old(State()), calls)
      decreases Remaining(State()), 5
    {
      var callee := Primary();
      if callee.Err? {
        return callee;
      }
      var expr := callee.value;
      while true
        invariant ParseCall(old(State()), calls) == ParseCallTail(expr, State(), calls)
        invariant Remaining(State()) <= Remaining(old(State()))
        decreases Remaining(State())
      {
        var m := AdvanceMatch(IsLeftParen);
        if m.Err? {
          return Err(m.error);
        }
        if !m.value {
          return Ok(expr);
        }
        var call := GenerateCall(expr);
        if call.Err? {
          return call;
        }
        expr := call.value;
      }
    }

    method GenerateCall(callee: Expr) returns (r: Result<Expr>)
      requires calls
      modifies this
      ensures (r, State()) == ParserSpec.GenerateCall(callee, old(State()), calls)
      decreases Remaining(State()), 13
    {
      var arguments: seq<Expr> := [];
      while true
        invariant ParseArguments([], old(State()), calls) == ParseArguments(arguments, State(), calls)
        invariant Remaining(State()) <= Remaining(old(State()))
        decreases Remaining(State())
      {
        var e := Expression();
        if e.Err? {
          return Err(e.error);
        }
        arguments := arguments + [e.value];
        var m := AdvanceMatch(IsComma);
        if m.Err? {
          return Err(m.error);
        }
        if !m.value {
          assert ParseArguments([], old(State()), calls) == (Ok(arguments), State());
          break;
        }
      }
      var c := ConsumeOr(IsRightParen, MissingArgumentsParen);
      if c.Err? {
        return Err(c.error);
      }
      r := Ok(Expr.Call(callee, arguments));
    }

    method Primary() returns (r: Result<Expr>)
      modifies this
      ensures (r, State()) == ParsePrimary(old(State()), calls)
      decreases Remaining(State()), 3
    {
      var literal := AdvanceMatch(PrimaryTest(calls));
      if literal.Err? {
        return Err(literal.error);
      }
      if literal.value {
        var t := GetPreviousToken();
        if t.Err? {
          return Err(t.error);
        }
        return Ok(Literal(t.value));
      }
      var open := AdvanceMatch(IsLeftParen);
      if open.Err? {
        return Err(open.error);
      }
      if !open.value {
        return Err(InvalidPrimary);
      }
      var inner := Expression();
      if inner.Err? {
        return inner;
      }
      var close := ConsumeOr(IsRightParen, MissingGroupingParen);
      if close.Err? {
        return Err(close.error);
      }
      r := Ok(Grouping(inner.value));
    }
  }
}
