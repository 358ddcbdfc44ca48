/**
 * The `Parser` class of frontend/parser/parser.ts: a token field that the
 * parse levels shift from the front. Each level is proved to return what
 * the matching function of `Grammar` gives for the tokens it started from,
 * and to leave exactly that function's leftover tokens in the field.
 */
module Parser {
  import opened Wrappers
  import T = Tokens
  import Numbers
  import opened Ast
  import G = Grammar
  import Lexer

  /**
   * A level's result and the token field after it match the grammar's
   * answer `spec`; after an error the tokens no longer matter, since the
   * source stops there.
   */
  predicate Agrees(r: Result<Node, G.ParseError>, now: seq<T.Token>, spec: G.Parsed) {
    match spec
    case Ok((n, rest)) => r == Ok(n) && now == rest
    case Err(e) => r == Err(e)
  }

  class Parser {
    var tokens: seq<T.Token>

    constructor()
      ensures tokens == []
    {
      tokens := [];
    }

    /** advance: shift the front token off; `undefined` (None) when there is none. */
    method Advance() returns (t: Option<T.Token>)
      modifies this
      ensures old(tokens) == [] ==> t == None && tokens == []
      ensures old(tokens) != [] ==> t == Some(old(tokens)[0]) && tokens == old(tokens)[1..]
    {
      if tokens == [] {
        t := None;
      } else {
        t := Some(tokens[0]);
        tokens := tokens[1..];
      }
    }

    /** at: the front token; `undefined` (None) when there is none. */
    function At(): (t: Option<T.Token>)
      reads this
      ensures t.Some? <==> tokens != []
      ensures t.Some? ==> t.value == tokens[0]
    {
      if tokens == [] then None else Some(tokens[0])
    }

    /** not_eof: reading the kind of a missing front token throws. */
    function NotEof(): (r: Result<bool, G.ParseError>)
      reads this
      ensures r.Err? <==> tokens == []
      ensures r.Ok? ==> (r.value <==> tokens[0].kind != T.EOF)
    {
      if tokens == [] then Err(G.TokensExhausted) else Ok(tokens[0].kind != T.EOF)
    }

    /** Parse: lex the text, then read statements until the front token is EOF. */
    method Parse(rawSrc: string) returns (r: Result<Program, G.ParseError>)
      modifies this
      ensures r == G.ProgramOf(Lexer.Tokenize(rawSrc))
    {
      tokens := Lexer.ToTokens(rawSrc);
      var body: seq<Node> := [];
      ghost var start := tokens;
      while true
        invariant G.ProgramFrom(start, []) == G.ProgramFrom(tokens, body)
        decreases |tokens|
      {
        var notEof :- NotEof();
        if !notEof {
          break;
        }
        var before := |tokens|;
        var stmt :- ParseStmt();
        var front := At();
        if front.None? {
          return Err(G.TokensExhausted);
        }
        if front.value.kind == T.EOL {
          var _ := Advance();
        }
        // The source repeats a round that read no token for ever.
        if |tokens| == before {
          return Err(G.NoProgress);
        }
        body := body + [stmt];
      }
      return Ok(Program(Block(body)));
    }

    /** parse_stmt */
    method ParseStmt() returns (r: Result<Node, G.ParseError>)
      modifies this
      decreases |tokens|, 24
      ensures Agrees(r, tokens, G.Stmt(old(tokens)))
    {
      r := ParseComment();
    }

    /** parse_comment */
    method ParseComment() returns (r: Result<Node, G.ParseError>)
      modifies this
      decreases |tokens|, 23
      ensures Agrees(r, tokens, G.CommentLevel(old(tokens)))
    {
      var front := At();
      if front.None? {
        return Err(G.TokensExhausted);
      }
      if front.value.kind == T.Comment {
        var _ := Advance();
        return Ok(Comment(front.value.value));
      }
      r := ParseAssignment();
    }

    /** parse_assignment */
    method ParseAssignment() returns (r: Result<Node, G.ParseError>)
      modifies this
      decreases |tokens|, 22
      ensures Agrees(r, tokens, G.Assignment(old(tokens)))
    {
      var identifier :- ParseOutput();
      while true
        invariant |tokens| <= |old(tokens)|
        invariant G.Assignment(old(tokens)) == G.AssignTail(identifier, tokens)
        decreases |tokens|
      {
        var front := At();
        if front.None? {
          return Err(G.TokensExhausted);
        }
        if front.value.kind != T.Equals {
          break;
        }
        var _ := Advance();
        var value :- ParseOutput();
        identifier := VariableAssignment(identifier, value, front.value.value);
      }
      return Ok(identifier);
    }

    /** parse_output */
    method ParseOutput() returns (r: Result<Node, G.ParseError>)
      modifies this
      decreases |tokens|, 20
      ensures Agrees(r, tokens, G.OutputLevel(old(tokens)))
    {
      var front := At();
      if front.None? {
        return Err(G.TokensExhausted);
      }
      if front.value.kind == T.Output {
        var _ := Advance();
        var value :- ParseIf();
        return Ok(Output(value));
      }
      r := ParseIf();
    }

    /** parse_if */
    method ParseIf() returns (r: Result<Node, G.ParseError>)
      modifies this
      decreases |tokens|, 19
      ensures Agrees(r, tokens, G.IfLevel(old(tokens)))
    {
      var front := At();
      if front.None? {
        return Err(G.TokensExhausted);
      }
      if front.value.kind == T.If {
        var _ := Advance();
        var condition :- ParseExpr();
        var next := At();
        if next.None? {
          return Err(G.TokensExhausted);
        }
        if next.value.kind == T.OpenBlock {
          var _ := Advance();
          var body: seq<Node> := [];
          ghost var start := tokens;
          while true
            invariant |tokens| < |old(tokens)|
            invariant G.BlockBody(start, []) == G.BlockBody(tokens, body)
            decreases |tokens|
          {
            var inner := At();
            if inner.None? {
              return Err(G.TokensExhausted);
            }
            if inner.value.kind == T.CloseBlock {
              break;
            }
            var before := |tokens|;
            var stmt :- ParseStmt();
            // The source repeats a round that read no token for ever.
            if |tokens| == before {
              return Err(G.NoProgress);
            }
            body := body + [stmt];
          }
          var _ := Advance();
          return Ok(IfStatement(condition, Block(body)));
        }
      }
      r := ParseExpr();
    }

    /** parse_expr */
    method ParseExpr() returns (r: Result<Node, G.ParseError>)
      modifies this
      decreases |tokens|, 18
      ensures Agrees(r, tokens, G.Expr(old(tokens)))
    {
      r := ParseTernary();
    }

    /** parse_ternary; its loop returns in its first round, so it runs as an `if`. */
    method ParseTernary() returns (r: Result<Node, G.ParseError>)
      modifies this
      decreases |tokens|, 17
      ensures Agrees(r, tokens, G.Ternary(old(tokens)))
    {
      var condition :- ParseType();
      var front := At();
      if front.None? {
        return Err(G.TokensExhausted);
      }
      if front.value.kind == T.TernaryQMark {
        var _ := Advance();
        var onTrue :- ParseType();
        var _ := Advance();
        var onFalse :- ParseType();
        return Ok(TernaryOperator(condition, onTrue, onFalse));
      }
      return Ok(condition);
    }

    /** parse_type */
    method ParseType() returns (r: Result<Node, G.ParseError>)
      modifies this
      decreases |tokens|, 16
      ensures Agrees(r, tokens, G.TypeLevel(old(tokens)))
    {
      var front := At();
      if front.None? {
        return Err(G.TokensExhausted);
      }
      if front.value.kind == T.Type {
        var _ := Advance();
        var value :- ParseComparison();
        return Ok(TypeOf(value));
      }
      r := ParseComparison();
    }

    /** parse_comparison */
    method ParseComparison() returns (r: Result<Node, G.ParseError>)
      modifies this
      decreases |tokens|, 15
      ensures Agrees(r, tokens, G.Comparison(old(tokens)))
    {
      var left :- ParseAddition();
      while true
        invariant |tokens| <= |old(tokens)|
        invariant G.Comparison(old(tokens)) == G.ComparisonTail(left, tokens)
        decreases |tokens|
      {
        var front := At();
        if front.None? {
          return Err(G.TokensExhausted);
        }
        if front.value.kind != T.Comparison {
          break;
        }
        var _ := Advance();
        var right :- ParseAddition();
        left := BooleanExpression(left, right, front.value.value);
      }
      return Ok(left);
    }

    /** parse_addition */
    method ParseAddition() returns (r: Result<Node, G.ParseError>)
      modifies this
      decreases |tokens|, 13
      ensures Agrees(r, tokens, G.Addition(old(tokens)))
    {
      var left :- ParseMultiplication();
      while true
        invariant |tokens| <= |old(tokens)|
        invariant G.Addition(old(tokens)) == G.AdditionTail(left, tokens)
        decreases |tokens|
      {
        var front := At();
        if front.None? {
          return Err(G.TokensExhausted);
        }
        if !(front.value.value == "+" || front.value.value == "-") {
          break;
        }
        var _ := Advance();
        var right :- ParseMultiplication();
        left := BinaryExpression(left, right, front.value.value);
      }
      return Ok(left);
    }

    /** parse_multiplication */
    method ParseMultiplication() returns (r: Result<Node, G.ParseError>)
      modifies this
      decreases |tokens|, 11
      ensures Agrees(r, tokens, G.Multiplication(old(tokens)))
    {
      var left :- ParseLiteral();
      while true
        invariant |tokens| <= |old(tokens)|
        invariant G.Multiplication(old(tokens)) == G.MultiplicationTail(left, tokens)
        decreases |tokens|
      {
        var front := At();
        if front.None? {
          return Err(G.TokensExhausted);
        }
        if !(front.value.value == "*" || front.value.value == "/") {
          break;
        }
        var _ := Advance();
        var right :- ParseLiteral();
        left := BinaryExpression(left, right, front.value.value);
      }
      return Ok(left);
    }

    /** parse_literal */
    method ParseLiteral() returns (r: Result<Node, G.ParseError>)
      modifies this
      decreases |tokens|, 9
      ensures Agrees(r, tokens, G.Literal(old(tokens)))
    {
      var front := At();
      if front.None? {
        return Err(G.TokensExhausted);
      }
      var token := front.value;
      if token.kind == T.Identifier {
        var _ := Advance();
        return Ok(Identifier(token.value));
      } else if token.kind == T.Number {
        var _ := Advance();
        var v := Numbers.NumeralValue(token.value);
        if v.None? {
          return Err(G.MalformedNumber(token.value));
        }
        return Ok(NumberLit(v.value));
      } else if token.kind == T.OpenParen {
        var _ := Advance();
        var inner :- ParseExpr();
        var close := Advance();
        if close.None? {
          return Err(G.TokensExhausted);
        }
        if close.value.kind != T.ClosedParen {
          return Err(G.MissingCloseParen);
        }
        return Ok(inner);
      } else if token.kind == T.String {
        var _ := Advance();
        return Ok(StringLit(G.StripQuotes(token.value)));
      } else if token.kind == T.Unknown {
        return Err(G.UnknownToken(token.value));
      } else {
        return Ok(Unrecognized(token.value));
      }
    }
  }
}
