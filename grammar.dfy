/**
 * The recursive-descent grammar of frontend/parser/parser.ts as functions
 * over the token list. Each level takes the tokens still to be read and
 * returns the node it built with the tokens left over, or the error that
 * ends the parse. The `Parser` class runs the same levels by shifting its
 * token field; these functions are its specification.
 */
module Grammar {
  import opened Wrappers
  import T = Tokens
  import Numbers
  import opened Ast

  /** Why a parse ends without a program. */
  datatype ParseError =
    /** `(` not followed, after the inner expression, by `)` (the source prints a message and exits). */
    | MissingCloseParen
    /** An Unknown token in literal position (the source prints a message and exits). */
    | UnknownToken(text: string)
    /** The token list ran out: the source reads a field of `undefined` and throws. */
    | TokensExhausted
    /** A Number token whose text `Number()` turns into NaN. */
    | MalformedNumber(text: string)
    /** A loop step that reads no token, which the source repeats for ever. */
    | NoProgress

  /** A node and the tokens left after it. */
  type Parsed = Result<(Node, seq<T.Token>), ParseError>

  /** `rest` is what is left of `ts` after reading some tokens from its front. */
  predicate Suffix(rest: seq<T.Token>, ts: seq<T.Token>) {
    |rest| <= |ts| && rest == ts[|ts| - |rest|..]
  }

  /** Whether a successful parse left a suffix of its input. */
  predicate Consumes(r: Parsed, ts: seq<T.Token>) {
    r.Ok? ==> Suffix(r.value.1, ts)
  }

  /** advance() when its result is not used: shift one token, if there is one. */
  function Drop1(ts: seq<T.Token>): (r: seq<T.Token>)
    ensures Suffix(r, ts) && (ts != [] ==> |r| == |ts| - 1)
  {
    if ts == [] then [] else ts[1..]
  }

  /**
   * `s.substring(1, s.length - 1)` for the String literal: JavaScript clamps
   * both bounds into the string and swaps them when the first is larger.
   */
  function StripQuotes(s: string): (r: string)
    ensures |s| >= 2 ==> r == s[1..|s| - 1]
    ensures |s| < 2 ==> r == s
  {
    if |s| >= 2 then s[1..|s| - 1] else s
  }

  // ------------------------------------------------------------ statements

  /** parse_stmt */
  function Stmt(ts: seq<T.Token>): (r: Parsed)
    decreases |ts|, 24
    ensures Consumes(r, ts)
  {
    CommentLevel(ts)
  }

  /** parse_comment: a Comment token is a statement of its own. */
  function CommentLevel(ts: seq<T.Token>): (r: Parsed)
    decreases |ts|, 23
    ensures Consumes(r, ts)
  {
    if ts == [] then Err(TokensExhausted)
    else if ts[0].kind == T.Comment then Ok((Comment(ts[0].value), ts[1..]))
    else Assignment(ts)
  }

  /** parse_assignment: the first operand, then the loop over Equals tokens. */
  function Assignment(ts: seq<T.Token>): (r: Parsed)
    decreases |ts|, 22
    ensures Consumes(r, ts)
  {
    var (target, rest) :- OutputLevel(ts);
    AssignTail(target, rest)
  }

  /** The loop of parse_assignment: each Equals token wraps everything built so far. */
  function AssignTail(target: Node, ts: seq<T.Token>): (r: Parsed)
    decreases |ts|, 21
    ensures Consumes(r, ts)
  {
    if ts == [] then Err(TokensExhausted)
    else if ts[0].kind == T.Equals then
      var (value, rest) :- OutputLevel(ts[1..]);
      AssignTail(VariableAssignment(target, value, ts[0].value), rest)
    else Ok((target, ts))
  }

  /** parse_output */
  function OutputLevel(ts: seq<T.Token>): (r: Parsed)
    decreases |ts|, 20
    ensures Consumes(r, ts)
  {
    if ts == [] then Err(TokensExhausted)
    else if ts[0].kind == T.Output then
      var (value, rest) :- IfLevel(ts[1..]);
      Ok((Output(value), rest))
    else IfLevel(ts)
  }

  /**
   * parse_if: with `{` after the condition, the statements up to `}`;
   * without it, the condition is dropped and the next expression returned.
   */
  function IfLevel(ts: seq<T.Token>): (r: Parsed)
    decreases |ts|, 19
    ensures Consumes(r, ts)
  {
    if ts == [] then Err(TokensExhausted)
    else if ts[0].kind == T.If then
      var (condition, rest) :- Expr(ts[1..]);
      if rest == [] then Err(TokensExhausted)
      else if rest[0].kind == T.OpenBlock then
        var (body, rest2) :- BlockBody(rest[1..], []);
        Ok((IfStatement(condition, Block(body)), Drop1(rest2)))
      else Expr(rest)
    else Expr(ts)
  }

  /**
   * The loop of parse_if over the statements of a block, `acc` holding those
   * read so far; it stops in front of the `}`.
   */
  function BlockBody(ts: seq<T.Token>, acc: seq<Node>): (r: Result<(seq<Node>, seq<T.Token>), ParseError>)
    decreases |ts|, 25
    ensures r.Ok? ==> Suffix(r.value.1, ts) && r.value.1 != [] && r.value.1[0].kind == T.CloseBlock
  {
    if ts == [] then Err(TokensExhausted)
    else if ts[0].kind == T.CloseBlock then Ok((acc, ts))
    else
      var (s, rest) :- Stmt(ts);
      if |rest| == |ts| then Err(NoProgress)
      else BlockBody(rest, acc + [s])
  }

  // ------------------------------------------------------------ expressions

  /** parse_expr */
  function Expr(ts: seq<T.Token>): (r: Parsed)
    decreases |ts|, 18
    ensures Consumes(r, ts)
  {
    Ternary(ts)
  }

  /**
   * parse_ternary: at most one `? :`; the token after the true branch is
   * skipped whatever it is.
   */
  function Ternary(ts: seq<T.Token>): (r: Parsed)
    decreases |ts|, 17
    ensures Consumes(r, ts)
  {
    var (condition, rest) :- TypeLevel(ts);
    if rest == [] then Err(TokensExhausted)
    else if rest[0].kind == T.TernaryQMark then
      var (onTrue, rest2) :- TypeLevel(rest[1..]);
      var (onFalse, rest3) :- TypeLevel(Drop1(rest2));
      Ok((TernaryOperator(condition, onTrue, onFalse), rest3))
    else Ok((condition, rest))
  }

  /** parse_type */
  function TypeLevel(ts: seq<T.Token>): (r: Parsed)
    decreases |ts|, 16
    ensures Consumes(r, ts)
  {
    if ts == [] then Err(TokensExhausted)
    else if ts[0].kind == T.Type then
      var (value, rest) :- Comparison(ts[1..]);
      Ok((TypeOf(value), rest))
    else Comparison(ts)
  }

  /** parse_comparison */
  function Comparison(ts: seq<T.Token>): (r: Parsed)
    decreases |ts|, 15
    ensures Consumes(r, ts)
  {
    var (left, rest) :- Addition(ts);
    ComparisonTail(left, rest)
  }

  /** The loop of parse_comparison, on the kind of the front token. */
  function ComparisonTail(left: Node, ts: seq<T.Token>): (r: Parsed)
    decreases |ts|, 14
    ensures Consumes(r, ts)
  {
    if ts == [] then Err(TokensExhausted)
    else if ts[0].kind == T.Comparison then
      var (right, rest) :- Addition(ts[1..]);
      ComparisonTail(BooleanExpression(left, right, ts[0].value), rest)
    else Ok((left, ts))
  }

  /** parse_addition */
  function Addition(ts: seq<T.Token>): (r: Parsed)
    decreases |ts|, 13
    ensures Consumes(r, ts)
  {
    var (left, rest) :- Multiplication(ts);
    AdditionTail(left, rest)
  }

  /** The loop of parse_addition, on the text of the front token. */
  function AdditionTail(left: Node, ts: seq<T.Token>): (r: Parsed)
    decreases |ts|, 12
    ensures Consumes(r, ts)
  {
    if ts == [] then Err(TokensExhausted)
    else if ts[0].value == "+" || ts[0].value == "-" then
      var (right, rest) :- Multiplication(ts[1..]);
      AdditionTail(BinaryExpression(left, right, ts[0].value), rest)
    else Ok((left, ts))
  }

  /** parse_multiplication */
  function Multiplication(ts: seq<T.Token>): (r: Parsed)
    decreases |ts|, 11
    ensures Consumes(r, ts)
  {
    var (left, rest) :- Literal(ts);
    MultiplicationTail(left, rest)
  }

  /** The loop of parse_multiplication, on the text of the front token. */
  function MultiplicationTail(left: Node, ts: seq<T.Token>): (r: Parsed)
    decreases |ts|, 10
    ensures Consumes(r, ts)
  {
    if ts == [] then Err(TokensExhausted)
    else if ts[0].value == "*" || ts[0].value == "/" then
      var (right, rest) :- Literal(ts[1..]);
      MultiplicationTail(BinaryExpression(left, right, ts[0].value), rest)
    else Ok((left, ts))
  }

  /**
   * parse_literal: identifiers, numbers, parenthesised expressions and
   * strings; an Unknown token is fatal, and any other token becomes a `"?"`
   * node without being read.
   */
  function Literal(ts: seq<T.Token>): (r: Parsed)
    decreases |ts|, 9
    ensures Consumes(r, ts)
  {
    if ts == [] then Err(TokensExhausted)
    else
      var t := ts[0];
      match t.kind
      case Identifier => Ok((Identifier(t.value), ts[1..]))
      case Number =>
        (match Numbers.NumeralValue(t.value)
         case Some(v) => Ok((NumberLit(v), ts[1..]))
         case None => Err(MalformedNumber(t.value)))
      case OpenParen =>
        var (inner, rest) :- Expr(ts[1..]);
        if rest == [] then Err(TokensExhausted)
        else if rest[0].kind != T.ClosedParen then Err(MissingCloseParen)
        else Ok((inner, rest[1..]))
      case String => Ok((StringLit(StripQuotes(t.value)), ts[1..]))
      case Unknown => Err(UnknownToken(t.value))
      case _ => Ok((Unrecognized(t.value), ts))
  }

  // ------------------------------------------------------------ programs

  /**
   * The loop of Parse, `acc` holding the statements read so far: one
   * statement per round until the front token is EOF, each optionally
   * followed by a single EOL.
   */
  function ProgramFrom(ts: seq<T.Token>, acc: seq<Node>): Result<seq<Node>, ParseError>
    decreases |ts|
  {
    if ts == [] then Err(TokensExhausted)
    else if ts[0].kind == T.EOF then Ok(acc)
    else
      var (s, rest) :- Stmt(ts);
      if rest == [] then Err(TokensExhausted)
      else
        var rest2 := if rest[0].kind == T.EOL then rest[1..] else rest;
        if |rest2| == |ts| then Err(NoProgress)
        else ProgramFrom(rest2, acc + [s])
  }

  /** The program a token list parses to. */
  function ProgramOf(ts: seq<T.Token>): Result<Program, ParseError> {
    var body :- ProgramFrom(ts, []);
    Ok(Program(Block(body)))
  }
}
