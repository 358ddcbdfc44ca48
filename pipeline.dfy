/**
 * The whole interpreter on two families of sources: a numeral followed by
 * `;` goes through the lexer, the parser and the evaluator to its own value,
 * and the tokens of `out e;` go through the parser and the evaluator to the
 * displayed value of `e`, with the precedence the grammar gives it.
 */
module Pipeline {
  import opened Wrappers
  import T = Tokens
  import Numbers
  import opened Ast
  import G = Grammar
  import Lexer
  import LexerProps
  import ParserProps
  import ProgramProps
  import S = Semantics
  import Values

  /** `Numbers.NatText(n) + ";"` lexes and parses to a program of the one number `n`. */
  lemma NumeralParses(n: nat)
    ensures G.ProgramOf(Lexer.Tokenize(Numbers.NatText(n) + ";")) == Ok(Program(Block([NumberLit(n as real)])))
  {
    var d := Numbers.NatText(n);
    var e := NumberLit(n as real);
    assert LexerProps.IsNumeral(d);
    LexerProps.NumeralStatement(d);
    assert ParserProps.Print(e) == [T.Token(d, T.Number)];
    assert ProgramProps.PrintProgram([e], [true]) == [T.Token(d, T.Number), ParserProps.SemiToken];
    var ts := Lexer.Tokenize(d + ";");
    assert ts == ProgramProps.PrintProgram([e], [true]) + [Lexer.EofToken];
    ProgramProps.ProgramRoundTrip([e], [true], []);
    assert [] + [e] == [e];
    assert G.ProgramFrom(ts, []) == Ok([e]);
  }

  /** ... and the emitter yields that number as the program's one result, changing no variable. */
  lemma NumeralRuns(n: nat, vars: S.Vars)
    ensures S.Run(Numbers.NatText(n) + ";", vars) == S.Step(Ok([S.Raw(Values.Num(n as real))]), vars)
  {
    NumeralParses(n);
    var e := NumberLit(n as real);
    var o := S.Raw(Values.Num(n as real));
    assert S.Exec(e, vars) == S.Step(Ok(o), vars);
    assert [e][0] == e && [e][1..] == [];
    assert [] + [o] == [o];
    assert S.RunBody([e], vars, []) == S.Step(Ok([o]), vars);
  }

  /** The tokens of `out e;` and the end of the source. */
  function OutTokens(e: Node): seq<T.Token>
    requires ParserProps.IsArith(e)
  {
    [T.Token("out", T.Output)] + ParserProps.Print(e) + [ParserProps.SemiToken, Lexer.EofToken]
  }

  /** `out e;` parses to a program of the one statement Output(e). */
  lemma OutputProgram(e: Node)
    requires ParserProps.IsArith(e)
    ensures G.ProgramOf(OutTokens(e)) == Ok(Program(Block([Output(e)])))
  {
    var rest := [ParserProps.SemiToken, Lexer.EofToken];
    var ts := OutTokens(e);
    assert ts == [T.Token("out", T.Output)] + ParserProps.Print(e) + rest;
    ParserProps.OutputRoundTrip(e, rest);
    ProgramProps.ProgramStep(ts, Output(e), rest, []);
    assert rest[1..] == [Lexer.EofToken];
    assert [] + [Output(e)] == [Output(e)];
  }

  /** Running the one statement `out e` displays the value of `e` and changes no variable. */
  lemma OutputRuns(e: Node, vars: S.Vars)
    ensures S.RunBody([Output(e)], vars, []) == S.Step(Ok([S.Displayable(S.Eval(e, vars))]), vars)
  {
    var o := S.Displayable(S.Eval(e, vars));
    assert S.Exec(Output(e), vars) == S.Step(Ok(o), vars);
    assert [Output(e)][1..] == [];
    assert [] + [o] == [o];
  }

  /** `out 2 + 3 * 4;` parses with `*` grouped first and displays 14. */
  lemma ProductFirst(vars: S.Vars)
    ensures G.ProgramOf([T.Token("out", T.Output), T.Token("2", T.Number), T.Token("+", T.BinaryOperator),
                         T.Token("3", T.Number), T.Token("*", T.BinaryOperator), T.Token("4", T.Number),
                         ParserProps.SemiToken, Lexer.EofToken])
         == Ok(Program(Block([Output(BinaryExpression(NumberLit(2.0),
                                BinaryExpression(NumberLit(3.0), NumberLit(4.0), "*"), "+"))])))
    ensures S.RunBody([Output(BinaryExpression(NumberLit(2.0),
                         BinaryExpression(NumberLit(3.0), NumberLit(4.0), "*"), "+"))], vars, [])
         == S.Step(Ok([S.Displayable(Values.Num(14.0))]), vars)
  {
    var two, three, four := NumberLit(2.0), NumberLit(3.0), NumberLit(4.0);
    var product := BinaryExpression(three, four, "*");
    var e := BinaryExpression(two, product, "+");
    Digits();
    assert ParserProps.Print(product) == [T.Token("3", T.Number), T.Token("*", T.BinaryOperator), T.Token("4", T.Number)];
    assert ParserProps.PrintAt(product, 3) == ParserProps.Print(product);
    assert ParserProps.Print(e) == [T.Token("2", T.Number), T.Token("+", T.BinaryOperator)] + ParserProps.Print(product);
    assert OutTokens(e) == [T.Token("out", T.Output), T.Token("2", T.Number), T.Token("+", T.BinaryOperator),
                            T.Token("3", T.Number), T.Token("*", T.BinaryOperator), T.Token("4", T.Number),
                            ParserProps.SemiToken, Lexer.EofToken];
    OutputProgram(e);
    OutputRuns(e, vars);
    assert S.Eval(product, vars) == Values.Num(12.0);
    assert S.Eval(e, vars) == Values.Num(14.0);
  }

  /** `out (2 + 3) * 4;` groups the parenthesised sum first and displays 20. */
  lemma ParenthesesFirst(vars: S.Vars)
    ensures G.ProgramOf([T.Token("out", T.Output), ParserProps.OpenParenToken, T.Token("2", T.Number),
                         T.Token("+", T.BinaryOperator), T.Token("3", T.Number), ParserProps.CloseParenToken,
                         T.Token("*", T.BinaryOperator), T.Token("4", T.Number),
                         ParserProps.SemiToken, Lexer.EofToken])
         == Ok(Program(Block([Output(BinaryExpression(
                                BinaryExpression(NumberLit(2.0), NumberLit(3.0), "+"), NumberLit(4.0), "*"))])))
    ensures S.RunBody([Output(BinaryExpression(
                         BinaryExpression(NumberLit(2.0), NumberLit(3.0), "+"), NumberLit(4.0), "*"))], vars, [])
         == S.Step(Ok([S.Displayable(Values.Num(20.0))]), vars)
  {
    var two, three, four := NumberLit(2.0), NumberLit(3.0), NumberLit(4.0);
    var sum := BinaryExpression(two, three, "+");
    var e := BinaryExpression(sum, four, "*");
    Digits();
    assert ParserProps.Print(sum) == [T.Token("2", T.Number), T.Token("+", T.BinaryOperator), T.Token("3", T.Number)];
    assert ParserProps.PrintAt(sum, 3) == [ParserProps.OpenParenToken] + ParserProps.Print(sum) + [ParserProps.CloseParenToken];
    assert ParserProps.Print(e) == ParserProps.PrintAt(sum, 3) + [T.Token("*", T.BinaryOperator), T.Token("4", T.Number)];
    assert OutTokens(e) == [T.Token("out", T.Output), ParserProps.OpenParenToken, T.Token("2", T.Number),
                            T.Token("+", T.BinaryOperator), T.Token("3", T.Number), ParserProps.CloseParenToken,
                            T.Token("*", T.BinaryOperator), T.Token("4", T.Number),
                            ParserProps.SemiToken, Lexer.EofToken];
    OutputProgram(e);
    OutputRuns(e, vars);
    assert S.Eval(sum, vars) == Values.Num(5.0);
    assert S.Eval(e, vars) == Values.Num(20.0);
  }

  /** The numerals the example prints. */
  lemma Digits()
    ensures Numbers.NatText(2) == "2" && Numbers.NatText(3) == "3" && Numbers.NatText(4) == "4"
  {
  }
}
