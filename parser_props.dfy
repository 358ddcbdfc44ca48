/**
 * Properties of the grammar: precedence and associativity (as a round trip
 * through a printer that writes only the parentheses needed), the shape of
 * assignment chains, the ternary and `if` quirks, and the tokens at which
 * a statement reads nothing.
 */
module ParserProps {
  import opened Wrappers
  import T = Tokens
  import Numbers
  import opened Ast
  import opened Grammar

  // ------------------------------------------------------------ printing

  /** How tightly an operator binds: 3 for `*` and `/`, 2 for `+` and `-`, 1 for comparisons. */
  function Level(op: string): nat {
    if op == "*" || op == "/" then 3 else if op == "+" || op == "-" then 2 else 1
  }

  /** The binding strength of an expression's outermost operator; 4 for an operand. */
  function Prec(e: Node): nat {
    match e
    case BinaryExpression(_, _, op) => Level(op)
    case BooleanExpression(_, _, _) => 1
    case _ => 4
  }

  /**
   * Arithmetic and comparison trees over identifiers and whole numbers:
   * the expressions the printer below writes.
   */
  predicate IsArith(e: Node) {
    match e
    case NumberLit(v) => v >= 0.0 && v == v.Floor as real
    case Identifier(_) => true
    case BinaryExpression(l, r, op) => op in {"+", "-", "*", "/"} && IsArith(l) && IsArith(r)
    case BooleanExpression(l, r, op) => op in {"<", ">", "=="} && IsArith(l) && IsArith(r)
    case _ => false
  }

  // The punctuation and keyword tokens the printers write.
  const OpenParenToken: T.Token := T.Token("(", T.OpenParen)
  const CloseParenToken: T.Token := T.Token(")", T.ClosedParen)
  const SemiToken: T.Token := T.Token(";", T.EOL)
  const OpenBlockToken: T.Token := T.Token("{", T.OpenBlock)
  const CloseBlockToken: T.Token := T.Token("}", T.CloseBlock)
  const IfKeywordToken: T.Token := T.Token("if", T.If)

  /**
   * The tokens of `e` with parentheses only where the grammar needs them: a
   * left operand at its operator's level, a right operand one level tighter.
   */
  function Print(e: Node): (ts: seq<T.Token>)
    requires IsArith(e)
    decreases e, 0
    ensures ts != [] && ts[0].kind in {T.Number, T.Identifier, T.OpenParen}
  {
    match e
    case NumberLit(v) => [T.Token(Numbers.NatText(v.Floor as nat), T.Number)]
    case Identifier(name) => [T.Token(name, T.Identifier)]
    case BinaryExpression(l, r, op) =>
      PrintAt(l, Level(op)) + [T.Token(op, T.BinaryOperator)] + PrintAt(r, Level(op) + 1)
    case BooleanExpression(l, r, op) =>
      PrintAt(l, 1) + [T.Token(op, T.Comparison)] + PrintAt(r, 2)
  }

  /** `e` printed where an expression binding at least as tightly as `level` is expected. */
  function PrintAt(e: Node, level: nat): (ts: seq<T.Token>)
    requires IsArith(e)
    decreases e, 1
    ensures ts != [] && ts[0].kind in {T.Number, T.Identifier, T.OpenParen}
  {
    if Prec(e) < level then [OpenParenToken] + Print(e) + [CloseParenToken] else Print(e)
  }

  /** A token that ends an expression: no operator, no `?`. */
  predicate StopsExpr(rest: seq<T.Token>) {
    rest != [] && rest[0].kind !in {T.Comparison, T.TernaryQMark} &&
    rest[0].value !in {"+", "-", "*", "/"}
  }

  // ------------------------------------------------------------ round trip

  /** An operand, or a parenthesised expression, is read back by parse_literal. */
  lemma {:induction false} LiteralRoundTrip(e: Node, rest: seq<T.Token>)
    requires IsArith(e)
    decreases e, (Prec(e) - 4) % 5
    ensures Literal(PrintAt(e, 4) + rest) == Ok((e, rest))
  {
    if Prec(e) < 4 {
      var after := SplitParens(e, rest);
      ExprRoundTrip(e, after);
      ParenStep(PrintAt(e, 4) + rest, e, after);
    } else {
      OperandRoundTrip(e, rest);
    }
  }

  /** The tokens of a parenthesised expression: `(`, the expression, then `)` and the rest. */
  lemma SplitParens(e: Node, rest: seq<T.Token>) returns (after: seq<T.Token>)
    requires IsArith(e) && Prec(e) < 4
    ensures var ts := PrintAt(e, 4) + rest;
      ts != [] && ts[0].kind == T.OpenParen && ts[1..] == Print(e) + after
    ensures after == [CloseParenToken] + rest && StopsExpr(after)
  {
    after := [CloseParenToken] + rest;
    var ts := PrintAt(e, 4) + rest;
    assert ts == [OpenParenToken] + (Print(e) + after);
  }

  /** parse_literal on `(`: the inner expression, then the `)` it requires. */
  lemma ParenStep(ts: seq<T.Token>, e: Node, after: seq<T.Token>)
    requires ts != [] && ts[0].kind == T.OpenParen && Expr(ts[1..]) == Ok((e, after))
    requires after != [] && after[0].kind == T.ClosedParen
    ensures Literal(ts) == Ok((e, after[1..]))
  {
    var t := ts[0];
    assert t.kind == T.OpenParen;
    var r := Expr(ts[1..]);
    assert r.Ok? && r.value.1 == after;
  }

  /** A number or an identifier is one token, which parse_literal reads back. */
  lemma OperandRoundTrip(e: Node, rest: seq<T.Token>)
    requires IsArith(e) && Prec(e) == 4
    ensures Literal(PrintAt(e, 4) + rest) == Ok((e, rest))
  {
    assert PrintAt(e, 4) == Print(e);
    if e.NumberLit? {
      var n := e.number.Floor as nat;
      assert e == NumberLit(n as real);
      NumberRoundTrip(n, rest);
    } else {
      IdentifierRoundTrip(e.name, rest);
    }
  }

  /** The numeral of a whole number is read back as that number. */
  lemma NumberRoundTrip(n: nat, rest: seq<T.Token>)
    ensures Literal([T.Token(Numbers.NatText(n), T.Number)] + rest) == Ok((NumberLit(n as real), rest))
  {
    Numbers.NatTextRoundTrip(n);
    var ts := [T.Token(Numbers.NatText(n), T.Number)] + rest;
    assert ts[0].kind == T.Number && ts[1..] == rest;
  }

  /** An identifier token is read back as an Identifier node. */
  lemma IdentifierRoundTrip(x: string, rest: seq<T.Token>)
    ensures Literal([T.Token(x, T.Identifier)] + rest) == Ok((Identifier(x), rest))
  {
    var ts := [T.Token(x, T.Identifier)] + rest;
    assert ts[0].kind == T.Identifier && ts[1..] == rest;
  }

  /**
   * The tokens of an operator node printed at its own level: the left
   * operand at that level, then the operator, then the right operand one
   * level tighter.
   */
  lemma SplitOperator(e: Node, rest: seq<T.Token>) returns (rest': seq<T.Token>)
    requires IsArith(e) && Prec(e) < 4
    ensures e.BinaryExpression? || e.BooleanExpression?
    ensures Prec(e) == 3 ==> e.BinaryExpression? && e.operator in {"*", "/"}
    ensures Prec(e) == 2 ==> e.BinaryExpression? && e.operator in {"+", "-"}
    ensures Prec(e) == 1 ==> e.BooleanExpression?
    ensures PrintAt(e, Prec(e)) + rest == PrintAt(e.left, Prec(e)) + rest'
    ensures rest' != [] && rest'[0].value == e.operator && rest'[1..] == PrintAt(e.right, Prec(e) + 1) + rest
    ensures e.BooleanExpression? ==> rest'[0].kind == T.Comparison
  {
    var kind := if e.BinaryExpression? then T.BinaryOperator else T.Comparison;
    var pl, op, pr := PrintAt(e.left, Prec(e)), [T.Token(e.operator, kind)], PrintAt(e.right, Prec(e) + 1);
    assert PrintAt(e, Prec(e)) == pl + op + pr;
    rest' := op + (pr + rest);
    SeqAssoc4(pl, op, pr, rest);
  }

  /** A `*`/`/` chain is read back left-leaning, and the loop goes on after it. */
  lemma {:induction false} MultiplicationRoundTrip(e: Node, rest: seq<T.Token>)
    requires IsArith(e)
    decreases e, (Prec(e) - 3) % 5
    ensures Multiplication(PrintAt(e, 3) + rest) == MultiplicationTail(e, rest)
  {
    if Prec(e) == 3 {
      var rest' := SplitOperator(e, rest);
      MultiplicationRoundTrip(e.left, rest');
      LiteralRoundTrip(e.right, rest);
      MultiplicationTailStep(e.left, rest', e.right, rest);
    } else {
      assert PrintAt(e, 3) == PrintAt(e, 4);
      LiteralRoundTrip(e, rest);
      MultiplicationStep(PrintAt(e, 3) + rest, e, rest);
    }
  }

  lemma MultiplicationStep(ts: seq<T.Token>, left: Node, rest: seq<T.Token>)
    requires Literal(ts) == Ok((left, rest))
    ensures Multiplication(ts) == MultiplicationTail(left, rest)
  {
  }

  lemma MultiplicationTailStep(left: Node, ts: seq<T.Token>, right: Node, rest: seq<T.Token>)
    requires ts != [] && ts[0].value in {"*", "/"} && Literal(ts[1..]) == Ok((right, rest))
    ensures MultiplicationTail(left, ts) == MultiplicationTail(BinaryExpression(left, right, ts[0].value), rest)
  {
  }

  /** The `*`/`/` loop stops at a token that is neither. */
  lemma MultiplicationTailStops(left: Node, rest: seq<T.Token>)
    requires rest != [] && rest[0].value !in {"*", "/"}
    ensures MultiplicationTail(left, rest) == Ok((left, rest))
  {
  }

  /** A `+`/`-` chain is read back left-leaning, with `*`/`/` operands grouped first. */
  lemma {:induction false} AdditionRoundTrip(e: Node, rest: seq<T.Token>)
    requires IsArith(e) && rest != [] && rest[0].value !in {"*", "/"}
    decreases e, (Prec(e) - 2) % 5
    ensures Addition(PrintAt(e, 2) + rest) == AdditionTail(e, rest)
  {
    if Prec(e) == 2 {
      var rest' := SplitOperator(e, rest);
      AdditionRoundTrip(e.left, rest');
      MultiplicationRoundTrip(e.right, rest);
      MultiplicationTailStops(e.right, rest);
      AdditionTailStep(e.left, rest', e.right, rest);
    } else {
      assert PrintAt(e, 2) == PrintAt(e, 3);
      MultiplicationRoundTrip(e, rest);
      MultiplicationTailStops(e, rest);
      AdditionStep(PrintAt(e, 2) + rest, e, rest);
    }
  }

  lemma AdditionStep(ts: seq<T.Token>, left: Node, rest: seq<T.Token>)
    requires Multiplication(ts) == Ok((left, rest))
    ensures Addition(ts) == AdditionTail(left, rest)
  {
  }

  lemma AdditionTailStep(left: Node, ts: seq<T.Token>, right: Node, rest: seq<T.Token>)
    requires ts != [] && ts[0].value in {"+", "-"} && Multiplication(ts[1..]) == Ok((right, rest))
    ensures AdditionTail(left, ts) == AdditionTail(BinaryExpression(left, right, ts[0].value), rest)
  {
  }

  /** The `+`/`-` loop stops at a token that is neither. */
  lemma AdditionTailStops(left: Node, rest: seq<T.Token>)
    requires rest != [] && rest[0].value !in {"+", "-"}
    ensures AdditionTail(left, rest) == Ok((left, rest))
  {
  }

  /** A comparison chain is read back left-leaning, with arithmetic operands grouped first. */
  lemma {:induction false} ComparisonRoundTrip(e: Node, rest: seq<T.Token>)
    requires IsArith(e) && rest != [] && rest[0].value !in {"+", "-", "*", "/"}
    decreases e, (Prec(e) - 1) % 5
    ensures Comparison(PrintAt(e, 1) + rest) == ComparisonTail(e, rest)
  {
    if Prec(e) == 1 {
      var rest' := SplitOperator(e, rest);
      ComparisonRoundTrip(e.left, rest');
      AdditionRoundTrip(e.right, rest);
      AdditionTailStops(e.right, rest);
      ComparisonTailStep(e.left, rest', e.right, rest);
    } else {
      assert PrintAt(e, 1) == PrintAt(e, 2);
      AdditionRoundTrip(e, rest);
      AdditionTailStops(e, rest);
      ComparisonStep(PrintAt(e, 1) + rest, e, rest);
    }
  }

  lemma ComparisonStep(ts: seq<T.Token>, left: Node, rest: seq<T.Token>)
    requires Addition(ts) == Ok((left, rest))
    ensures Comparison(ts) == ComparisonTail(left, rest)
  {
  }

  lemma ComparisonTailStep(left: Node, ts: seq<T.Token>, right: Node, rest: seq<T.Token>)
    requires ts != [] && ts[0].kind == T.Comparison && Addition(ts[1..]) == Ok((right, rest))
    ensures ComparisonTail(left, ts) == ComparisonTail(BooleanExpression(left, right, ts[0].value), rest)
  {
  }

  /** The comparison loop stops at a token that is not a comparison. */
  lemma ComparisonTailStops(left: Node, rest: seq<T.Token>)
    requires rest != [] && rest[0].kind != T.Comparison
    ensures ComparisonTail(left, rest) == Ok((left, rest))
  {
  }

  /** A printed tree read at the Type level, up to a token that ends a comparison chain. */
  lemma TypeLevelRoundTrip(e: Node, rest: seq<T.Token>)
    requires IsArith(e) && rest != [] && rest[0].kind != T.Comparison && rest[0].value !in {"+", "-", "*", "/"}
    ensures TypeLevel(Print(e) + rest) == Ok((e, rest))
  {
    assert PrintAt(e, 1) == Print(e);
    ComparisonRoundTrip(e, rest);
    ComparisonTailStops(e, rest);
    NotTypeKeyword(Print(e) + rest, e);
  }

  /** A printed tree does not start with `type`, so parse_type goes straight to the comparison level. */
  lemma NotTypeKeyword(ts: seq<T.Token>, e: Node)
    requires IsArith(e) && |Print(e)| <= |ts| && ts[..|Print(e)|] == Print(e)
    ensures TypeLevel(ts) == Comparison(ts)
  {
    assert ts[0] == Print(e)[0];
  }

  /**
   * Precedence and associativity: the tokens the printer writes for an
   * arithmetic or comparison tree parse back to that very tree, leaving
   * the token that ends the expression.
   */
  lemma {:induction false} ExprRoundTrip(e: Node, rest: seq<T.Token>)
    requires IsArith(e) && StopsExpr(rest)
    decreases e, Prec(e) % 5
    ensures Expr(Print(e) + rest) == Ok((e, rest))
  {
    var ts := Print(e) + rest;
    assert PrintAt(e, 1) == Print(e);
    ComparisonRoundTrip(e, rest);
    ComparisonTailStops(e, rest);
    assert ts[..|Print(e)|] == Print(e);
    NotTypeKeyword(ts, e);
    TernaryStops(ts, e, rest);
  }

  /** The ternary level returns its condition when no `?` follows it. */
  lemma TernaryStops(ts: seq<T.Token>, c: Node, rest: seq<T.Token>)
    requires TypeLevel(ts) == Ok((c, rest)) && rest != [] && rest[0].kind != T.TernaryQMark
    ensures Expr(ts) == Ok((c, rest))
  {
  }

  // ------------------------------------------------------------ statements

  /** An expression reaches every statement level unchanged. */
  lemma ExprStatement(e: Node, rest: seq<T.Token>)
    requires IsArith(e) && StopsExpr(rest) && rest[0].kind != T.Equals
    ensures Stmt(Print(e) + rest) == Ok((e, rest))
  {
    var ts := Print(e) + rest;
    ExprRoundTrip(e, rest);
    assert ts[0] == Print(e)[0];
    StatementOfExpression(ts);
    assert AssignTail(e, rest) == Ok((e, rest));
  }

  /** A statement that starts with no comment, `out` or `if` is an expression and an assignment loop. */
  lemma StatementOfExpression(ts: seq<T.Token>)
    requires ts != [] && ts[0].kind !in {T.Comment, T.Output, T.If}
    ensures Stmt(ts) == Assignment(ts)
    ensures OutputLevel(ts) == Expr(ts)
  {
    assert IfLevel(ts) == Expr(ts);
  }

  /** The assignment a chain of `op e` pairs builds: each pair wraps the whole node built so far. */
  function FoldAssign(target: Node, pairs: seq<(string, Node)>): Node
    decreases |pairs|
  {
    if pairs == [] then target
    else FoldAssign(VariableAssignment(target, pairs[0].1, pairs[0].0), pairs[1..])
  }

  /** The texts the lexer gives Equals tokens. */
  predicate IsAssignOp(op: string) {
    op in {"=", "+=", "-=", "*=", "/="}
  }

  /** Right-hand sides the printer writes, after operators the lexer produces. */
  predicate PrintablePairs(pairs: seq<(string, Node)>) {
    forall k | 0 <= k < |pairs| :: IsAssignOp(pairs[k].0) && IsArith(pairs[k].1)
  }

  /** The tokens of a chain of assignment operators and right-hand sides. */
  function PrintPairs(pairs: seq<(string, Node)>): (ts: seq<T.Token>)
    requires PrintablePairs(pairs)
    decreases |pairs|
    ensures pairs != [] ==> ts != [] && ts[0] == T.Token(pairs[0].0, T.Equals)
  {
    if pairs == [] then []
    else [T.Token(pairs[0].0, T.Equals)] + Print(pairs[0].1) + PrintPairs(pairs[1..])
  }

  /** A chain sounds like more Equals tokens only where a pair follows. */
  predicate StopsAssignment(rest: seq<T.Token>) {
    StopsExpr(rest) && rest[0].kind != T.Equals
  }

  /** The tokens of a chain, then `rest`, stop any expression that precedes them. */
  lemma PairsStopExpr(pairs: seq<(string, Node)>, rest: seq<T.Token>)
    requires PrintablePairs(pairs) && StopsAssignment(rest)
    ensures StopsExpr(PrintPairs(pairs) + rest)
    ensures pairs == [] ==> PrintPairs(pairs) + rest == rest
  {
    if pairs != [] {
      assert (PrintPairs(pairs) + rest)[0] == PrintPairs(pairs)[0];
    } else {
      assert PrintPairs(pairs) + rest == rest;
    }
  }

  /** The first pair of a chain: its Equals token, its right-hand side, then the rest of the chain. */
  lemma SplitPairs(pairs: seq<(string, Node)>, rest: seq<T.Token>) returns (after: seq<T.Token>)
    requires PrintablePairs(pairs) && pairs != [] && StopsAssignment(rest)
    ensures var ts := PrintPairs(pairs) + rest;
      ts != [] && ts[0] == T.Token(pairs[0].0, T.Equals) && ts[1..] == Print(pairs[0].1) + after
    ensures after == PrintPairs(pairs[1..]) + rest && StopsExpr(after)
  {
    var e, pv, tail := [T.Token(pairs[0].0, T.Equals)], Print(pairs[0].1), PrintPairs(pairs[1..]);
    after := tail + rest;
    PairsStopExpr(pairs[1..], rest);
    assert PrintPairs(pairs) == e + pv + tail;
    SeqAssoc4(e, pv, tail, rest);
    var ts := e + (pv + after);
    assert ts[1..] == pv + after;
  }

  /** One round of the parse_assignment loop. */
  lemma AssignTailStep(target: Node, ts: seq<T.Token>, value: Node, rest: seq<T.Token>)
    requires ts != [] && ts[0].kind == T.Equals && OutputLevel(ts[1..]) == Ok((value, rest))
    ensures AssignTail(target, ts) == AssignTail(VariableAssignment(target, value, ts[0].value), rest)
  {
  }

  /** The parse_assignment loop stops at a token that is not an Equals token. */
  lemma AssignTailStops(target: Node, rest: seq<T.Token>)
    requires rest != [] && rest[0].kind != T.Equals
    ensures AssignTail(target, rest) == Ok((target, rest))
  {
  }

  /** A printed tree read at the Output level, which goes straight down to the expression levels. */
  lemma OutputLevelRoundTrip(e: Node, rest: seq<T.Token>)
    requires IsArith(e) && StopsExpr(rest)
    ensures OutputLevel(Print(e) + rest) == Ok((e, rest))
  {
    var ts := Print(e) + rest;
    ExprRoundTrip(e, rest);
    assert ts[0] == Print(e)[0];
    StatementOfExpression(ts);
  }

  /** The loop of parse_assignment over a chain of pairs. */
  lemma {:induction false} AssignTailChain(target: Node, pairs: seq<(string, Node)>, rest: seq<T.Token>)
    requires PrintablePairs(pairs)
    requires StopsAssignment(rest)
    decreases |pairs|
    ensures AssignTail(target, PrintPairs(pairs) + rest) == Ok((FoldAssign(target, pairs), rest))
  {
    if pairs == [] {
      PairsStopExpr(pairs, rest);
      AssignTailStops(target, rest);
    } else {
      var (op, v) := pairs[0];
      var after := SplitPairs(pairs, rest);
      OutputLevelRoundTrip(v, after);
      AssignTailStep(target, PrintPairs(pairs) + rest, v, after);
      AssignTailChain(VariableAssignment(target, v, op), pairs[1..], rest);
    }
  }

  /**
   * Assignment chains: `x = a = b` builds the assignment of `b` to the
   * assignment of `a` to `x`, each right-hand side read at the Output level.
   */
  lemma AssignmentChain(target: Node, pairs: seq<(string, Node)>, rest: seq<T.Token>)
    requires IsArith(target) && PrintablePairs(pairs)
    requires StopsAssignment(rest)
    ensures Assignment(Print(target) + PrintPairs(pairs) + rest) == Ok((FoldAssign(target, pairs), rest))
  {
    var after := PrintPairs(pairs) + rest;
    var ts := Print(target) + after;
    assert Print(target) + PrintPairs(pairs) + rest == ts;
    PairsStopExpr(pairs, rest);
    OutputLevelRoundTrip(target, after);
    AssignTailChain(target, pairs, rest);
  }

  /** `c ? t sep f` */
  function TernaryTokens(c: Node, t: Node, sep: T.Token, f: Node): seq<T.Token>
    requires IsArith(c) && IsArith(t) && IsArith(f)
  {
    Print(c) + [T.Token("?", T.TernaryQMark)] + Print(t) + [sep] + Print(f)
  }

  /**
   * The ternary reads one `? :` and skips the token after the true branch
   * unchecked: any token that ends a comparison chain stands in for the
   * `:`, and a second `?` is left unread.
   */
  lemma TernaryAnySeparator(c: Node, t: Node, sep: T.Token, f: Node, rest: seq<T.Token>)
    requires IsArith(c) && IsArith(t) && IsArith(f)
    requires sep.kind != T.Comparison && sep.value !in {"+", "-", "*", "/"}
    requires rest != [] && rest[0].kind != T.Comparison && rest[0].value !in {"+", "-", "*", "/"}
    ensures Ternary(TernaryTokens(c, t, sep, f) + rest) == Ok((TernaryOperator(c, t, f), rest))
  {
    var tail1, tail2 := TernaryParts(c, t, sep, f, rest);
    TernaryStep(TernaryTokens(c, t, sep, f) + rest, c, tail1, t, tail2, f, rest);
  }

  /** The three Type-level reads of `c ? t sep f`. */
  lemma TernaryParts(c: Node, t: Node, sep: T.Token, f: Node, rest: seq<T.Token>) returns (tail1: seq<T.Token>, tail2: seq<T.Token>)
    requires IsArith(c) && IsArith(t) && IsArith(f)
    requires sep.kind != T.Comparison && sep.value !in {"+", "-", "*", "/"}
    requires rest != [] && rest[0].kind != T.Comparison && rest[0].value !in {"+", "-", "*", "/"}
    ensures TypeLevel(TernaryTokens(c, t, sep, f) + rest) == Ok((c, tail1))
    ensures tail1 != [] && tail1[0].kind == T.TernaryQMark
    ensures TypeLevel(tail1[1..]) == Ok((t, tail2)) && TypeLevel(Drop1(tail2)) == Ok((f, rest))
  {
    tail1, tail2 := TernarySplit(c, t, sep, f, rest);
    TypeLevelRoundTrip(c, tail1);
    TypeLevelRoundTrip(t, tail2);
    TypeLevelRoundTrip(f, rest);
  }

  /** Where the tokens of `c ? t sep f` split: after the condition and after the true branch. */
  lemma TernarySplit(c: Node, t: Node, sep: T.Token, f: Node, rest: seq<T.Token>) returns (tail1: seq<T.Token>, tail2: seq<T.Token>)
    requires IsArith(c) && IsArith(t) && IsArith(f)
    ensures TernaryTokens(c, t, sep, f) + rest == Print(c) + tail1
    ensures tail1 == [T.Token("?", T.TernaryQMark)] + (Print(t) + tail2) && tail1[1..] == Print(t) + tail2
    ensures tail2 == [sep] + (Print(f) + rest) && Drop1(tail2) == Print(f) + rest
  {
    var q := T.Token("?", T.TernaryQMark);
    var pc, pt, pf := Print(c), Print(t), Print(f);
    var tail3 := pf + rest;
    tail2 := [sep] + tail3;
    tail1 := [q] + (pt + tail2);
    calc {
      TernaryTokens(c, t, sep, f) + rest;
      pc + [q] + pt + [sep] + pf + rest;
      { SeqAssoc5(pc, [q], pt, [sep], pf, rest); }
      pc + ([q] + (pt + ([sep] + (pf + rest))));
    }
    assert tail1[1..] == Print(t) + tail2;
    assert Drop1(tail2) == tail3;
  }

  /** Regrouping a concatenation of four sequences. */
  lemma SeqAssoc4<X>(a: seq<X>, b: seq<X>, c: seq<X>, d: seq<X>)
    ensures a + b + c + d == a + b + (c + d)
    ensures a + b + c + d == a + (b + (c + d))
  {
  }

  /** Regrouping a concatenation of six sequences to the right. */
  lemma SeqAssoc5<X>(a: seq<X>, b: seq<X>, c: seq<X>, d: seq<X>, e: seq<X>, f: seq<X>)
    ensures a + b + c + d + e + f == a + (b + (c + (d + (e + f))))
  {
  }

  /** One round of parse_ternary, from the results of its three Type-level reads. */
  lemma TernaryStep(ts: seq<T.Token>, c: Node, tail1: seq<T.Token>, t: Node, tail2: seq<T.Token>, f: Node, rest: seq<T.Token>)
    requires TypeLevel(ts) == Ok((c, tail1)) && tail1 != [] && tail1[0].kind == T.TernaryQMark
    requires TypeLevel(tail1[1..]) == Ok((t, tail2)) && TypeLevel(Drop1(tail2)) == Ok((f, rest))
    ensures Ternary(ts) == Ok((TernaryOperator(c, t, f), rest))
  {
  }

  /** Without `{` after its condition, `if` drops the condition and returns the next expression. */
  lemma IfWithoutBlock(c: Node, ts: seq<T.Token>)
    requires IsArith(c) && StopsExpr(ts) && ts[0].kind != T.OpenBlock
    ensures IfLevel([IfKeywordToken] + Print(c) + ts) == Expr(ts)
  {
    var all := IfTokens(c, ts);
    ExprRoundTrip(c, ts);
    NoBlockStep(all, c, ts);
  }

  /** `if` followed by a printed condition and more tokens, split at the `if`. */
  lemma IfTokens(c: Node, ts: seq<T.Token>) returns (all: seq<T.Token>)
    requires IsArith(c)
    ensures all == [IfKeywordToken] + Print(c) + ts
    ensures all != [] && all[0].kind == T.If && all[1..] == Print(c) + ts
  {
    all := [IfKeywordToken] + Print(c) + ts;
    assert all[1..] == Print(c) + ts;
  }

  /** One round of parse_if whose condition is not followed by `{`. */
  lemma NoBlockStep(ts: seq<T.Token>, c: Node, rest: seq<T.Token>)
    requires ts != [] && ts[0].kind == T.If && Expr(ts[1..]) == Ok((c, rest))
    requires rest != [] && rest[0].kind != T.OpenBlock
    ensures IfLevel(ts) == Expr(rest)
  {
    var t := ts[0];
    assert t.kind == T.If;
  }

  // ------------------------------------------------------------ keywords, literals and errors

  /** A keyword token in front of a printed tree, split after the keyword. */
  lemma KeywordTokens(k: T.Token, e: Node, rest: seq<T.Token>) returns (ts: seq<T.Token>)
    requires IsArith(e)
    ensures ts == [k] + Print(e) + rest
    ensures ts != [] && ts[0] == k && ts[1..] == Print(e) + rest
    ensures ts[1..][0].kind in {T.Number, T.Identifier, T.OpenParen}
  {
    ts := [k] + Print(e) + rest;
    assert ts[1..] == Print(e) + rest;
    assert ts[1..][0] == Print(e)[0];
  }

  /** One round of parse_output on `out`. */
  lemma OutputStep(ts: seq<T.Token>, e: Node, rest: seq<T.Token>)
    requires ts != [] && ts[0].kind == T.Output && IfLevel(ts[1..]) == Ok((e, rest))
    ensures OutputLevel(ts) == Ok((Output(e), rest))
  {
  }

  /**
   * `out e`: an Output node around the whole expression after the keyword,
   * and a statement of its own when no `=` follows.
   */
  lemma OutputRoundTrip(e: Node, rest: seq<T.Token>)
    requires IsArith(e) && StopsExpr(rest)
    ensures OutputLevel([T.Token("out", T.Output)] + Print(e) + rest) == Ok((Output(e), rest))
    ensures rest[0].kind != T.Equals ==>
      Stmt([T.Token("out", T.Output)] + Print(e) + rest) == Ok((Output(e), rest))
  {
    var ts := KeywordTokens(T.Token("out", T.Output), e, rest);
    ExprRoundTrip(e, rest);
    assert IfLevel(ts[1..]) == Expr(ts[1..]);
    OutputStep(ts, e, rest);
    if rest[0].kind != T.Equals {
      AssignTailStops(Output(e), rest);
      assert Stmt(ts) == Assignment(ts);
    }
  }

  /** One round of parse_type on `type`. */
  lemma TypeStep(ts: seq<T.Token>, e: Node, rest: seq<T.Token>)
    requires ts != [] && ts[0].kind == T.Type && Comparison(ts[1..]) == Ok((e, rest))
    ensures TypeLevel(ts) == Ok((TypeOf(e), rest))
  {
  }

  /**
   * `type e`: a TypeOf node around a whole comparison chain (`type a < b`
   * asks for the type of the comparison), below the ternary.
   */
  lemma TypeOfRoundTrip(e: Node, rest: seq<T.Token>)
    requires IsArith(e) && StopsExpr(rest)
    ensures Expr([T.Token("type", T.Type)] + Print(e) + rest) == Ok((TypeOf(e), rest))
  {
    var ts := KeywordTokens(T.Token("type", T.Type), e, rest);
    assert PrintAt(e, 1) == Print(e);
    ComparisonRoundTrip(e, rest);
    ComparisonTailStops(e, rest);
    TypeStep(ts, e, rest);
    TernaryStops(ts, TypeOf(e), rest);
  }

  /**
   * A Comment token is a statement of its own holding the token's text
   * unchanged; the program goes on after it and one optional `;`.
   */
  lemma CommentStatement(text: string, rest: seq<T.Token>, acc: seq<Node>)
    requires rest != []
    ensures Stmt([T.Token(text, T.Comment)] + rest) == Ok((Comment(text), rest))
    ensures ProgramFrom([T.Token(text, T.Comment)] + rest, acc) ==
      ProgramFrom(if rest[0].kind == T.EOL then rest[1..] else rest, acc + [Comment(text)])
  {
    var ts := [T.Token(text, T.Comment)] + rest;
    assert ts[0].kind == T.Comment && ts[1..] == rest;
  }

  /** An operand followed by a token that ends every level is a statement by itself. */
  lemma OperandStatement(ts: seq<T.Token>, v: Node, rest: seq<T.Token>)
    requires ts != [] && ts[0].kind !in {T.Comment, T.Output, T.If, T.Type}
    requires Literal(ts) == Ok((v, rest)) && StopsExpr(rest) && rest[0].kind != T.Equals
    ensures Stmt(ts) == Ok((v, rest))
  {
    MultiplicationStep(ts, v, rest);
    MultiplicationTailStops(v, rest);
    AdditionStep(ts, v, rest);
    AdditionTailStops(v, rest);
    ComparisonStep(ts, v, rest);
    ComparisonTailStops(v, rest);
    assert TypeLevel(ts) == Ok((v, rest));
    TernaryStops(ts, v, rest);
    StatementOfExpression(ts);
    AssignTailStops(v, rest);
  }

  /**
   * A String token, which the lexer hands over with both quotes, is a
   * literal holding the text between them, and a statement by itself.
   */
  lemma StringLiteral(body: string, rest: seq<T.Token>)
    requires StopsExpr(rest) && rest[0].kind != T.Equals
    ensures Literal([T.Token("\"" + body + "\"", T.String)] + rest) == Ok((StringLit(body), rest))
    ensures Stmt([T.Token("\"" + body + "\"", T.String)] + rest) == Ok((StringLit(body), rest))
  {
    var q := "\"" + body + "\"";
    var ts := [T.Token(q, T.String)] + rest;
    assert q[1..|q| - 1] == body;
    assert ts[0].kind == T.String && ts[1..] == rest;
    OperandStatement(ts, StringLit(body), rest);
  }

  /** A failure at the literal level ends the statement with that error. */
  lemma LiteralErrorEndsStatement(ts: seq<T.Token>)
    requires ts != [] && ts[0].kind !in {T.Comment, T.Output, T.If, T.Type} && Literal(ts).Err?
    ensures Stmt(ts) == Err(Literal(ts).error)
  {
    var err := Literal(ts).error;
    assert Multiplication(ts) == Err(err);
    assert Addition(ts) == Err(err);
    assert Comparison(ts) == Err(err);
    assert TypeLevel(ts) == Err(err);
    assert Expr(ts) == Err(err);
    StatementOfExpression(ts);
  }

  /** A statement that fails ends the whole program with its error. */
  lemma StatementErrorEndsProgram(ts: seq<T.Token>, acc: seq<Node>)
    requires ts != [] && ts[0].kind != T.EOF && Stmt(ts).Err?
    ensures ProgramFrom(ts, acc) == Err(Stmt(ts).error)
    ensures ProgramOf(ts) == Err(Stmt(ts).error)
  {
  }

  /** An Unknown token where a statement starts makes the parse fail, naming the token's text. */
  lemma UnknownTokenFails(text: string, rest: seq<T.Token>)
    ensures Stmt([T.Token(text, T.Unknown)] + rest) == Err(UnknownToken(text))
    ensures ProgramOf([T.Token(text, T.Unknown)] + rest) == Err(UnknownToken(text))
  {
    var ts := [T.Token(text, T.Unknown)] + rest;
    assert ts[0] == T.Token(text, T.Unknown);
    LiteralErrorEndsStatement(ts);
    StatementErrorEndsProgram(ts, []);
  }

  /** `(` and an expression followed by anything but `)` makes the parse fail. */
  lemma MissingParenFails(e: Node, t: T.Token, rest: seq<T.Token>)
    requires IsArith(e) && StopsExpr([t] + rest) && t.kind != T.ClosedParen
    ensures Literal([OpenParenToken] + Print(e) + [t] + rest) == Err(MissingCloseParen)
    ensures ProgramOf([OpenParenToken] + Print(e) + [t] + rest) == Err(MissingCloseParen)
  {
    var after := [t] + rest;
    var ts := [OpenParenToken] + Print(e) + after;
    assert ts == [OpenParenToken] + Print(e) + [t] + rest;
    assert ts[0].kind == T.OpenParen && ts[1..] == Print(e) + after;
    ExprRoundTrip(e, after);
    LiteralErrorEndsStatement(ts);
    StatementErrorEndsProgram(ts, []);
  }

  /** The kinds at which parse_literal returns a `"?"` node that the levels above leave alone. */
  predicate Stalls(t: T.Token) {
    t.kind in {T.EOL, T.ClosedParen, T.CloseBlock, T.TernaryColon, T.OpenBlock, T.EOF} &&
    t.value !in {"+", "-", "*", "/"}
  }

  /** At such a token a statement is the `"?"` node of that token and reads nothing. */
  lemma StallingStatement(ts: seq<T.Token>)
    requires ts != [] && Stalls(ts[0])
    ensures Stmt(ts) == Ok((Unrecognized(ts[0].value), ts))
  {
    var u := Unrecognized(ts[0].value);
    assert Literal(ts) == Ok((u, ts));
    assert Multiplication(ts) == Ok((u, ts));
    assert Addition(ts) == Ok((u, ts));
    assert Comparison(ts) == Ok((u, ts));
    assert TypeLevel(ts) == Ok((u, ts));
    assert Expr(ts) == Ok((u, ts));
    StatementOfExpression(ts);
    assert AssignTail(u, ts) == Ok((u, ts));
  }

  /** A stray `)`, `}`, `:` or `{` at top level: the source loops for ever, the model reports it. */
  lemma StrayTokenNoProgress(ts: seq<T.Token>, acc: seq<Node>)
    requires ts != [] && Stalls(ts[0]) && ts[0].kind !in {T.EOL, T.EOF}
    ensures ProgramFrom(ts, acc) == Err(NoProgress)
  {
    StallingStatement(ts);
  }

  /** A `;` at top level is a `"?"` statement of its own. */
  lemma LoneSemicolon(ts: seq<T.Token>, acc: seq<Node>)
    requires ts != [] && ts[0] == SemiToken
    ensures ProgramFrom(ts, acc) == ProgramFrom(ts[1..], acc + [Unrecognized(";")])
  {
    StallingStatement(ts);
  }

  /** Inside a block, a `;` or the end of the tokens before `}` makes the block loop read nothing. */
  lemma BlockStall(ts: seq<T.Token>, acc: seq<Node>)
    requires ts != [] && Stalls(ts[0]) && ts[0].kind != T.CloseBlock
    ensures BlockBody(ts, acc) == Err(NoProgress)
  {
    StallingStatement(ts);
  }
}
