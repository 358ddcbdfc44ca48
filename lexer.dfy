/**
 * The scanning loop of frontend/lexer/lexer.ts: the fixed priority table of
 * recognisers and `toTokens`, which turns source text into tokens ending with EOF.
 */
module Lexer {
  import opened Wrappers
  import opened Tokens
  import Numbers

  /** One entry of the recogniser table. */
  datatype Rule =
    | CommentRule | StringRule | NumberRule | OutputRule | TypeRule | IfRule
    | QMarkRule | ColonRule | IdentifierRule | BinOpRule | ComparisonRule
    | EqualsRule | ParenRule | BlockRule | EolRule

  /** lexerOrder: the recognisers in the order the scanning loop tries them. */
  const LexerOrder: seq<Rule> := [
    CommentRule, StringRule, NumberRule, OutputRule, TypeRule, IfRule,
    QMarkRule, ColonRule, IdentifierRule, BinOpRule, ComparisonRule,
    EqualsRule, ParenRule, BlockRule, EolRule
  ]

  /** The token a rule recognises at `index`, if any. */
  function Recognise(rule: Rule, raw: string, index: nat): (t: Option<Token>)
    ensures t.Some? ==> t.value.Length() >= 1 && t.value.kind !in {EOF, Unknown}
  {
    match rule
    case CommentRule => CommentToken(raw, index)
    case StringRule => StringToken(raw, index)
    case NumberRule => NumberToken(raw, index)
    case OutputRule => OutputToken(raw, index)
    case TypeRule => TypeToken(raw, index)
    case IfRule => IfToken(raw, index)
    case QMarkRule => QMarkToken(raw, index)
    case ColonRule => ColonToken(raw, index)
    case IdentifierRule => IdentifierToken(raw, index)
    case BinOpRule => BinOpToken(raw, index)
    case ComparisonRule => ComparisonToken(raw, index)
    case EqualsRule => EqualsToken(raw, index)
    case ParenRule => ParenToken(raw, index)
    case BlockRule => BlockToken(raw, index)
    case EolRule => EolToken(raw, index)
  }

  /** Calls the recogniser a rule names (`lexerOrder[j](raw, i)`). */
  method ApplyRule(rule: Rule, raw: string, index: nat) returns (t: Option<Token>)
    ensures t == Recognise(rule, raw, index)
  {
    match rule
    case CommentRule => t := ParseCommentToken(raw, index);
    case StringRule => t := ParseStringToken(raw, index);
    case NumberRule => t := ParseNumericalToken(raw, index);
    case IdentifierRule => t := ParseIdentifierToken(raw, index);
    case _ => t := Recognise(rule, raw, index);
  }

  /** The result of the first rule, from table entry `j` on, that recognises a token at `index`. */
  function FirstMatch(raw: string, index: nat, j: nat): (t: Option<Token>)
    decreases |LexerOrder| - j
    ensures t.Some? ==> t.value.Length() >= 1 && t.value.kind !in {EOF, Unknown}
  {
    if j >= |LexerOrder| then None
    else match Recognise(LexerOrder[j], raw, index)
      case Some(t) => Some(t)
      case None => FirstMatch(raw, index, j + 1)
  }

  /** Characters the scanning loop skips without producing a token. */
  predicate IsBlank(c: char) {
    c == ' ' || c == '\n'
  }

  /**
   * The token the loop emits at a position that is not blank: the first
   * recogniser's match, or else a one-character Unknown token.
   */
  function Scan(raw: string, i: nat): (t: Token)
    requires i < |raw|
    ensures t.Length() >= 1 && t.kind != EOF
  {
    match FirstMatch(raw, i, 0)
    case Some(t) => t
    case None => Token([raw[i]], Unknown)
  }

  /** The tokens of `raw` from position `i` on, before the final EOF. */
  function LexFrom(raw: string, i: nat): seq<Token>
    decreases |raw| - i
  {
    if i >= |raw| then []
    else if IsBlank(raw[i]) then LexFrom(raw, i + 1)
    else
      var t := Scan(raw, i);
      [t] + LexFrom(raw, i + t.Length())
  }

  /** The positions at which the tokens of LexFrom(raw, i) start. */
  function Starts(raw: string, i: nat): seq<nat>
    decreases |raw| - i
  {
    if i >= |raw| then []
    else if IsBlank(raw[i]) then Starts(raw, i + 1)
    else [i] + Starts(raw, i + Scan(raw, i).Length())
  }

  const EofToken: Token := Token("EOF", EOF)

  /** What toTokens returns for `raw`. */
  function Tokenize(raw: string): seq<Token> {
    LexFrom(raw, 0) + [EofToken]
  }

  /** One pass of the inner loop of toTokens: try each recogniser in table order. */
  method ScanAt(raw: string, i: nat) returns (newToken: Token)
    requires i < |raw|
    ensures newToken == Scan(raw, i)
  {
    var j := 0;
    while j < |LexerOrder|
      invariant j <= |LexerOrder|
      invariant FirstMatch(raw, i, j) == FirstMatch(raw, i, 0)
      decreases |LexerOrder| - j
    {
      var t := ApplyRule(LexerOrder[j], raw, i);
      if t.Some? {
        return t.value;
      }
      j := j + 1;
    }
    newToken := Token([raw[i]], Unknown);
  }

  /** toTokens */
  method ToTokens(raw: string) returns (tokens: seq<Token>)
    ensures tokens == Tokenize(raw)
  {
    tokens := [];
    var i := 0;
    while i < |raw|
      invariant tokens + LexFrom(raw, i) == LexFrom(raw, 0)
      decreases |raw| - i
    {
      var newToken;
      if raw[i] == ' ' || raw[i] == '\n' {
        newToken := Token([raw[i]], Unknown);
      } else {
        newToken := ScanAt(raw, i);
        tokens := tokens + [newToken];
      }
      i := i + newToken.Length();
    }
    tokens := tokens + [Token("EOF", EOF)];
  }
}
