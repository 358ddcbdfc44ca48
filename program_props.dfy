/**
 * Whole programs: a list of statements printed with or without `;` after
 * each is parsed back to that list, a block between braces becomes the body
 * of an `if`, and a numeral followed by `;` goes through the lexer, the
 * parser and the evaluator to its value.
 */
module ProgramProps {
  import opened Wrappers
  import T = Tokens
  import Numbers
  import opened Ast
  import opened Grammar
  import opened ParserProps
  import Lexer

  /**
   * An expression the printer writes that can follow another statement
   * directly: it does not start with an identifier named like an operator.
   */
  predicate Printable(e: Node) {
    IsArith(e) && Print(e)[0].value !in {"+", "-", "*", "/"}
  }

  predicate AllPrintable(es: seq<Node>) {
    forall i :: 0 <= i < |es| ==> Printable(es[i])
  }

  /** Statements written one after the other. */
  function PrintStmts(es: seq<Node>): seq<T.Token>
    requires AllPrintable(es)
  {
    if es == [] then [] else Print(es[0]) + PrintStmts(es[1..])
  }

  /** Statements, each followed by `;` when its flag says so. */
  function PrintProgram(es: seq<Node>, semis: seq<bool>): (ts: seq<T.Token>)
    requires AllPrintable(es) && |semis| == |es|
    ensures es == [] <==> ts == []
    ensures es != [] ==> ts[0] == Print(es[0])[0]
  {
    if es == [] then []
    else Print(es[0]) + (if semis[0] then [SemiToken] else []) + PrintProgram(es[1..], semis[1..])
  }

  /** A printed program, then the end, starts with an operand, `(` or EOF, never with an operator. */
  lemma ProgramStart(es: seq<Node>, semis: seq<bool>)
    requires AllPrintable(es) && |semis| == |es|
    ensures var ts := PrintProgram(es, semis) + [Lexer.EofToken];
      ts != [] && ts[0].kind in {T.Number, T.Identifier, T.OpenParen, T.EOF} &&
      ts[0].value !in {"+", "-", "*", "/"}
  {
    var pp := PrintProgram(es, semis);
    if es == [] {
      assert pp + [Lexer.EofToken] == [Lexer.EofToken];
    } else {
      assert Printable(es[0]);
      assert (pp + [Lexer.EofToken])[0] == pp[0];
    }
  }

  /**
   * A program of expression statements, each with or without its `;`,
   * parses back to the statements in order.
   */
  lemma {:induction false} ProgramRoundTrip(es: seq<Node>, semis: seq<bool>, acc: seq<Node>)
    requires AllPrintable(es) && |semis| == |es|
    ensures ProgramFrom(PrintProgram(es, semis) + [Lexer.EofToken], acc) == Ok(acc + es)
    decreases |es|
  {
    if es == [] {
      ProgramAtEnd(es, semis, acc);
    } else {
      ProgramHead(es, semis, acc);
      ProgramRoundTrip(es[1..], semis[1..], acc + [es[0]]);
      assert acc + [es[0]] + es[1..] == acc + es;
    }
  }

  /** At EOF the top-level loop stops with the statements read so far. */
  lemma ProgramAtEnd(es: seq<Node>, semis: seq<bool>, acc: seq<Node>)
    requires es == [] && |semis| == |es|
    ensures ProgramFrom(PrintProgram(es, semis) + [Lexer.EofToken], acc) == Ok(acc + es)
  {
    assert PrintProgram(es, semis) + [Lexer.EofToken] == [Lexer.EofToken];
    assert acc + es == acc;
  }

  /** The top-level loop reads the first statement of a printed program and its `;`, and goes on with the rest. */
  lemma ProgramHead(es: seq<Node>, semis: seq<bool>, acc: seq<Node>)
    requires AllPrintable(es) && |semis| == |es| && es != []
    ensures ProgramFrom(PrintProgram(es, semis) + [Lexer.EofToken], acc) ==
      ProgramFrom(PrintProgram(es[1..], semis[1..]) + [Lexer.EofToken], acc + [es[0]])
  {
    var later := SplitProgram(es, semis);
    assert AllPrintable(es[1..]) by {
      assert forall i :: 0 <= i < |es[1..]| ==> es[1..][i] == es[i + 1];
    }
    ProgramStart(es[1..], semis[1..]);
    StatementThen(es[0], semis[0], later, acc);
  }

  /** A printed program, then EOF: its first statement, its `;` if flagged, then the rest. */
  lemma SplitProgram(es: seq<Node>, semis: seq<bool>) returns (later: seq<T.Token>)
    requires AllPrintable(es) && |semis| == |es| && es != []
    ensures later == PrintProgram(es[1..], semis[1..]) + [Lexer.EofToken]
    ensures PrintProgram(es, semis) + [Lexer.EofToken] == Print(es[0]) + (if semis[0] then [SemiToken] else []) + later
  {
    later := PrintProgram(es[1..], semis[1..]) + [Lexer.EofToken];
    SeqAssoc4(Print(es[0]), if semis[0] then [SemiToken] else [], PrintProgram(es[1..], semis[1..]), [Lexer.EofToken]);
  }

  /** One printed statement, with or without its `;`, in front of what `later` holds. */
  lemma StatementThen(e: Node, semi: bool, later: seq<T.Token>, acc: seq<Node>)
    requires Printable(e)
    requires later != [] && later[0].kind in {T.Number, T.Identifier, T.OpenParen, T.EOF}
    requires later[0].value !in {"+", "-", "*", "/"}
    ensures ProgramFrom(Print(e) + (if semi then [SemiToken] else []) + later, acc)
         == ProgramFrom(later, acc + [e])
  {
    var rest := StatementEnd(e, semi, later);
    var ts := Print(e) + rest;
    ExprStatement(e, rest);
    ProgramStep(ts, e, rest, acc);
  }

  /** What follows a statement: its optional `;`, which the top-level loop skips, then `later`. */
  lemma StatementEnd(e: Node, semi: bool, later: seq<T.Token>) returns (rest: seq<T.Token>)
    requires Printable(e)
    requires later != [] && later[0].kind in {T.Number, T.Identifier, T.OpenParen, T.EOF}
    requires later[0].value !in {"+", "-", "*", "/"}
    ensures rest == (if semi then [SemiToken] else []) + later
    ensures Print(e) + (if semi then [SemiToken] else []) + later == Print(e) + rest
    ensures StopsExpr(rest) && rest[0].kind != T.Equals
    ensures (if rest[0].kind == T.EOL then rest[1..] else rest) == later
  {
    rest := (if semi then [SemiToken] else []) + later;
    assert rest[0] == if semi then SemiToken else later[0];
    if semi {
      assert rest[1..] == later;
    }
  }

  /** One round of the top-level loop over a statement that leaves `rest`. */
  lemma ProgramStep(ts: seq<T.Token>, s: Node, rest: seq<T.Token>, acc: seq<Node>)
    requires ts != [] && ts[0].kind != T.EOF && Stmt(ts) == Ok((s, rest)) && rest != [] && |rest| < |ts|
    ensures ProgramFrom(ts, acc)
         == ProgramFrom(if rest[0].kind == T.EOL then rest[1..] else rest, acc + [s])
  {
  }

  /** The statements of a block, written back to back, are read up to the `}`. */
  lemma {:induction false} BlockRoundTrip(es: seq<Node>, rest: seq<T.Token>, acc: seq<Node>)
    requires AllPrintable(es) && rest != [] && rest[0] == CloseBlockToken
    ensures BlockBody(PrintStmts(es) + rest, acc) == Ok((acc + es, rest))
    decreases |es|
  {
    if es == [] {
      assert PrintStmts(es) + rest == rest;
      assert acc + es == acc;
    } else {
      var later := SplitStmts(es, rest);
      ExprStatement(es[0], later);
      BlockStep(PrintStmts(es) + rest, es[0], later, acc);
      BlockRoundTrip(es[1..], rest, acc + [es[0]]);
      assert acc + [es[0]] + es[1..] == acc + es;
    }
  }

  /** Statements written back to back, then `}`: the first statement, then the rest. */
  lemma SplitStmts(es: seq<Node>, rest: seq<T.Token>) returns (later: seq<T.Token>)
    requires AllPrintable(es) && es != [] && rest != [] && rest[0] == CloseBlockToken
    ensures later == PrintStmts(es[1..]) + rest
    ensures PrintStmts(es) + rest == Print(es[0]) + later
    ensures StopsExpr(later) && later[0].kind != T.Equals
  {
    later := PrintStmts(es[1..]) + rest;
    assert PrintStmts(es) + rest == Print(es[0]) + later;
    if es[1..] == [] {
      assert later == rest;
    } else {
      assert PrintStmts(es[1..]) == Print(es[1]) + PrintStmts(es[2..]);
      assert later[0] == Print(es[1])[0];
    }
  }

  /** One round of the block loop over a statement that leaves `rest`. */
  lemma BlockStep(ts: seq<T.Token>, s: Node, rest: seq<T.Token>, acc: seq<Node>)
    requires ts != [] && ts[0].kind != T.CloseBlock && Stmt(ts) == Ok((s, rest)) && |rest| < |ts|
    ensures BlockBody(ts, acc) == BlockBody(rest, acc + [s])
  {
  }

  /** `if c { s1 s2 ... }` parses to an IfStatement with that condition and block, both braces read. */
  lemma IfBlockRoundTrip(c: Node, es: seq<Node>, rest: seq<T.Token>)
    requires IsArith(c) && AllPrintable(es)
    ensures IfLevel([IfKeywordToken] + Print(c) + [OpenBlockToken] + PrintStmts(es) + [CloseBlockToken] + rest)
         == Ok((IfStatement(c, Block(es)), rest))
  {
    var ts, afterCondition := IfBlockTokens(c, es, rest);
    ExprRoundTrip(c, afterCondition);
    BlockRoundTrip(es, [CloseBlockToken] + rest, []);
    assert [] + es == es;
    assert Drop1([CloseBlockToken] + rest) == rest;
    IfStep(ts, c, afterCondition, es, [CloseBlockToken] + rest);
  }

  /** How the tokens of `if c { s1 s2 ... }` split after the `if` and after the condition. */
  lemma IfBlockTokens(c: Node, es: seq<Node>, rest: seq<T.Token>) returns (ts: seq<T.Token>, afterCondition: seq<T.Token>)
    requires IsArith(c) && AllPrintable(es)
    ensures ts == [IfKeywordToken] + Print(c) + [OpenBlockToken] + PrintStmts(es) + [CloseBlockToken] + rest
    ensures ts != [] && ts[0] == IfKeywordToken && ts[1..] == Print(c) + afterCondition
    ensures afterCondition == [OpenBlockToken] + (PrintStmts(es) + ([CloseBlockToken] + rest))
    ensures StopsExpr(afterCondition) && afterCondition[1..] == PrintStmts(es) + ([CloseBlockToken] + rest)
  {
    var inner := PrintStmts(es) + ([CloseBlockToken] + rest);
    afterCondition := [OpenBlockToken] + inner;
    ts := [IfKeywordToken] + Print(c) + afterCondition;
    assert ts == [IfKeywordToken] + Print(c) + [OpenBlockToken] + PrintStmts(es) + [CloseBlockToken] + rest;
    assert ts[1..] == Print(c) + afterCondition;
    assert afterCondition[1..] == inner;
  }

  /** One `if` with a block, given what its condition and its block read. */
  lemma IfStep(ts: seq<T.Token>, c: Node, rest: seq<T.Token>, body: seq<Node>, rest2: seq<T.Token>)
    requires ts != [] && ts[0].kind == T.If && Expr(ts[1..]) == Ok((c, rest))
    requires rest != [] && rest[0].kind == T.OpenBlock && BlockBody(rest[1..], []) == Ok((body, rest2))
    ensures IfLevel(ts) == Ok((IfStatement(c, Block(body)), Drop1(rest2)))
  {
  }

}
