/**
 * Token kinds, tokens and the token recognisers of frontend/lexer/token_types.ts.
 *
 * Each recogniser looks at the raw source and a position and either recognises a
 * token there or gives None (the source's `null`). The four recognisers that scan
 * with a loop (number, string, identifier, comment) are methods, each proved equal
 * to a specification function; the others are plain functions.
 *
 * Reading past the end of the source gives JavaScript's `undefined`; the
 * recognisers below treat that case exactly as the source does.
 */
module Tokens {
  import opened Wrappers
  import Numbers

  datatype TokenKind =
    | Unknown | EOL | EOF | Comment
    | Number | String | Identifier
    | BinaryOperator | Equals | OpenParen | ClosedParen | OpenBlock | CloseBlock
    | TernaryQMark | TernaryColon
    | Comparison
    | Output | Type | If

  datatype Token = Token(value: string, kind: TokenKind) {
    /** getTokenLength: how far the lexer advances past this token. */
    function Length(): nat {
      |value|
    }

    /** toString: the kind's name in the TokenType enum, ": ", then the text. */
    function ToString(): string {
      KindName(kind) + ": " + value
    }
  }

  /** `TokenType[kind]`, the name the enum declares for each kind. */
  function KindName(k: TokenKind): string {
    match k
    case Unknown => "UNKNOWN"
    case EOL => "EOL"
    case EOF => "EOF"
    case Comment => "Comment"
    case Number => "Number"
    case String => "String"
    case Identifier => "Identifier"
    case BinaryOperator => "BinaryOperator"
    case Equals => "Equals"
    case OpenParen => "OpenParen"
    case ClosedParen => "ClosedParen"
    case OpenBlock => "OpenBlock"
    case CloseBlock => "CloseBlock"
    case TernaryQMark => "Ternary_QMARK"
    case TernaryColon => "Ternary_COLON"
    case Comparison => "Comparison"
    case Output => "Output"
    case Type => "Type"
    case If => "If"
  }

  /** No two kinds share a name, so `toString` tells the kinds of two tokens apart. */
  lemma KindNameInjective(a: TokenKind, b: TokenKind)
    ensures KindName(a) == KindName(b) ==> a == b
  {
  }

  /** Whether the source holds `c` at position `k` (false past the end). */
  predicate HasCharAt(raw: string, k: nat, c: char) {
    k < |raw| && raw[k] == c
  }

  /** `raw[k]` as string concatenation renders it: the character, or "undefined" past the end. */
  function CharText(raw: string, k: nat): (s: string)
    ensures k < |raw| ==> s == [raw[k]]
    ensures k >= |raw| ==> s == "undefined"
  {
    if k < |raw| then [raw[k]] else "undefined"
  }

  /** The first position at or after `from` that holds `c`, if there is one. */
  function FindChar(raw: string, c: char, from: nat): (r: Option<nat>)
    decreases |raw| - from
    ensures r.Some? ==> from <= r.value < |raw| && raw[r.value] == c
    ensures r.Some? ==> forall k | from <= k < r.value :: raw[k] != c
    ensures r.None? ==> forall k | from <= k < |raw| :: raw[k] != c
  {
    if from >= |raw| then None
    else if raw[from] == c then Some(from)
    else FindChar(raw, c, from + 1)
  }

  // ---------------------------------------------------------------- numbers

  /** Whether `Number(c)` is a number (not NaN) for the one-character string `c`: a digit or whitespace. */
  predicate NumberCharOk(c: char) {
    Numbers.IsDigit(c) || Numbers.IsJsWhitespace(c)
  }

  /** The loop test of parseNumericalToken for character `c` at offset `i` of the run. */
  predicate ContinuesNumber(c: char, i: nat) {
    (NumberCharOk(c) && c != ' ') || (c == '.' && i > 0)
  }

  /** Whether the character at offset `k` of a run starting at `index` passes that test. */
  predicate NumberAt(raw: string, index: nat, k: nat) {
    index + k < |raw| && ContinuesNumber(raw[index + k], k)
  }

  /** The offset at which the numeric run that has reached offset `i` stops. */
  function NumberRun(raw: string, index: nat, i: nat): (n: nat)
    decreases |raw| - index - i
    ensures n >= i
    ensures n > i ==> index + n <= |raw|
    ensures forall k | i <= k < n :: NumberAt(raw, index, k)
    ensures index + n < |raw| ==> !ContinuesNumber(raw[index + n], n)
  {
    if index + i < |raw| && ContinuesNumber(raw[index + i], i) then NumberRun(raw, index, i + 1)
    else i
  }

  /**
   * parseNumericalToken: the longest run of digits, non-space whitespace and
   * '.' (never first); no token when that run is empty.
   */
  function NumberToken(raw: string, index: nat): (t: Option<Token>)
    ensures t.None? <==> !(index < |raw| && NumberCharOk(raw[index]) && raw[index] != ' ')
    ensures t.Some? ==> t.value.kind == Number && 1 <= |t.value.value| && index + |t.value.value| <= |raw|
    ensures t.Some? ==> t.value.value == raw[index..index + |t.value.value|]
    ensures t.Some? ==> t.value.value[0] != '.'
    ensures t.Some? ==> forall k | 0 <= k < |t.value.value| ::
      t.value.value[k] != ' ' && (NumberCharOk(t.value.value[k]) || t.value.value[k] == '.')
    ensures t.Some? && index + |t.value.value| < |raw| ==>
      var c := raw[index + |t.value.value|]; c == ' ' || !(NumberCharOk(c) || c == '.')
  {
    var n := NumberRun(raw, index, 0);
    if n <= 0 then None
    else
      var v := raw[index..index + n];
      assert forall k | 0 <= k < n :: v[k] != ' ' && (NumberCharOk(v[k]) || v[k] == '.') by {
        forall k | 0 <= k < n ensures v[k] != ' ' && (NumberCharOk(v[k]) || v[k] == '.') {
          assert NumberAt(raw, index, k);
        }
      }
      Some(Token(v, Number))
  }

  method ParseNumericalToken(raw: string, index: nat) returns (t: Option<Token>)
    ensures t == NumberToken(raw, index)
  {
    var value := "";
    var i := 0;
    while index + i < |raw| && ContinuesNumber(raw[index + i], i)
      invariant i == 0 || index + i <= |raw|
      invariant i == 0 ==> value == ""
      invariant i > 0 ==> value == raw[index..index + i]
      invariant NumberRun(raw, index, i) == NumberRun(raw, index, 0)
      decreases |raw| - index - i
    {
      value := value + [raw[index + i]];
      i := i + 1;
    }
    if i <= 0 {
      t := None;
    } else {
      t := Some(Token(value, Number));
    }
  }

  // ---------------------------------------------------------------- strings

  /**
   * parseStringToken: from an opening '"' to the next '"', both included. With
   * no closing quote the source's loop runs one step past the end and appends
   * the text "undefined" before the closing quote it adds.
   */
  function StringToken(raw: string, index: nat): (t: Option<Token>)
    ensures t.None? <==> !HasCharAt(raw, index, '"')
    ensures t.Some? ==> t.value.kind == String && |t.value.value| >= 2
    ensures t.Some? ==> t.value.value[0] == '"' && t.value.value[|t.value.value| - 1] == '"'
    ensures t.Some? && FindChar(raw, '"', index + 1).Some? ==>
      t.value.value == raw[index..FindChar(raw, '"', index + 1).value + 1] &&
      '"' !in t.value.value[1..|t.value.value| - 1]
    ensures t.Some? && FindChar(raw, '"', index + 1).None? ==>
      t.value.value == raw[index..] + "undefined\"" && '"' !in raw[index + 1..]
  {
    if !HasCharAt(raw, index, '"') then None
    else match FindChar(raw, '"', index + 1)
      case Some(close) => Some(Token(raw[index..close + 1], String))
      case None => Some(Token(raw[index..] + "undefined\"", String))
  }

  /** A closing quote at `close` with none before it: the literal runs from `index` to `close`. */
  lemma StringClosed(raw: string, index: nat, close: nat)
    requires index < close < |raw| && raw[index] == '"' && raw[close] == '"'
    requires forall k | index + 1 <= k < close :: raw[k] != '"'
    ensures StringToken(raw, index) == Some(Token("\"" + raw[index + 1..close] + "\"", String))
  {
    FindCharFirst(raw, '"', index + 1, close);
    assert "\"" + raw[index + 1..close] + "\"" == raw[index..close + 1];
  }

  /** FindChar stops at the first occurrence. */
  lemma {:induction false} FindCharFirst(raw: string, c: char, from: nat, at: nat)
    requires from <= at < |raw| && raw[at] == c
    requires forall k | from <= k < at :: raw[k] != c
    ensures FindChar(raw, c, from) == Some(at)
    decreases at - from
  {
    if from < at {
      FindCharFirst(raw, c, from + 1, at);
    }
  }

  /** No closing quote after `index`: the literal is the rest of the text, "undefined" and a quote. */
  lemma StringOpen(raw: string, index: nat)
    requires index < |raw| && raw[index] == '"'
    requires forall k | index + 1 <= k < |raw| :: raw[k] != '"'
    ensures StringToken(raw, index) == Some(Token("\"" + (raw[index + 1..] + "undefined") + "\"", String))
  {
    assert FindChar(raw, '"', index + 1).None?;
    assert "\"" + (raw[index + 1..] + "undefined") + "\"" == raw[index..] + "undefined\"";
  }

  method ParseStringToken(raw: string, index: nat) returns (t: Option<Token>)
    ensures t == StringToken(raw, index)
  {
    if !HasCharAt(raw, index, '"') {
      return None;
    }
    var value := "";
    var i := 1;
    while CharText(raw, index + i) != "\"" && index + i - 1 < |raw|
      invariant 1 <= i <= |raw| - index + 1
      invariant forall k | index + 1 <= k < index + i && k < |raw| :: raw[k] != '"'
      invariant index + i <= |raw| ==> value == raw[index + 1..index + i]
      invariant index + i == |raw| + 1 ==> value == raw[index + 1..] + "undefined"
      decreases |raw| + 1 - index - i
    {
      value := value + CharText(raw, index + i);
      i := i + 1;
    }
    if index + i < |raw| {
      StringClosed(raw, index, index + i);
    } else {
      StringOpen(raw, index);
    }
    t := Some(Token("\"" + value + "\"", String));
  }

  // ---------------------------------------------------------------- identifiers

  /** isLetter: the regular expression ^[A-Za-z_]$ on one character. */
  predicate IsLetter(c: char) {
    ('A' <= c <= 'Z') || ('a' <= c <= 'z') || c == '_'
  }

  /** Whether the source holds a letter at offset `k` from `index`. */
  predicate LetterAt(raw: string, index: nat, k: nat) {
    index + k < |raw| && IsLetter(raw[index + k])
  }

  /** The offset at which the run of letters that has reached offset `i` stops. */
  function LetterRun(raw: string, index: nat, i: nat): (n: nat)
    decreases |raw| - index - i
    ensures n >= i
    ensures n > i ==> index + n <= |raw|
    ensures forall k | i <= k < n :: LetterAt(raw, index, k)
    ensures index + n < |raw| ==> !IsLetter(raw[index + n])
  {
    if index + i < |raw| && IsLetter(raw[index + i]) then LetterRun(raw, index, i + 1) else i
  }

  /** parseIdentifierToken: the longest run of letters and '_'; no token when it is empty. */
  function IdentifierToken(raw: string, index: nat): (t: Option<Token>)
    ensures t.None? <==> !(index < |raw| && IsLetter(raw[index]))
    ensures t.Some? ==> t.value.kind == Identifier && 1 <= |t.value.value| && index + |t.value.value| <= |raw|
    ensures t.Some? ==> t.value.value == raw[index..index + |t.value.value|]
    ensures t.Some? ==> forall k | 0 <= k < |t.value.value| ::
      IsLetter(t.value.value[k]) && !Numbers.IsDigit(t.value.value[k])
    ensures t.Some? && index + |t.value.value| < |raw| ==> !IsLetter(raw[index + |t.value.value|])
  {
    var n := LetterRun(raw, index, 0);
    if n <= 0 then None
    else
      var v := raw[index..index + n];
      assert forall k | 0 <= k < n :: IsLetter(v[k]) by {
        forall k | 0 <= k < n ensures IsLetter(v[k]) {
          assert LetterAt(raw, index, k);
        }
      }
      Some(Token(v, Identifier))
  }

  method ParseIdentifierToken(raw: string, index: nat) returns (t: Option<Token>)
    ensures t == IdentifierToken(raw, index)
  {
    var value := "";
    var i := 0;
    while index + i < |raw| && IsLetter(raw[index + i])
      invariant i == 0 || index + i <= |raw|
      invariant i == 0 ==> value == ""
      invariant i > 0 ==> value == raw[index..index + i]
      invariant LetterRun(raw, index, i) == LetterRun(raw, index, 0)
      decreases |raw| - index - i
    {
      value := value + [raw[index + i]];
      i := i + 1;
    }
    if i <= 0 {
      t := None;
    } else {
      t := Some(Token(value, Identifier));
    }
  }

  // ---------------------------------------------------------------- operators

  /** isBinOp: the character class [+\-*\/]. */
  predicate IsBinOp(c: char) {
    c == '+' || c == '-' || c == '*' || c == '/'
  }

  /**
   * parseBinOpToken: an arithmetic operator; followed by '=' it is the
   * two-character compound assignment, an Equals token.
   */
  function BinOpToken(raw: string, index: nat): (t: Option<Token>)
    ensures t.None? <==> !(index < |raw| && IsBinOp(raw[index]))
    ensures t.Some? ==> index + |t.value.value| <= |raw| && t.value.value == raw[index..index + |t.value.value|]
    ensures t.Some? ==> (t.value.kind == Equals <==> HasCharAt(raw, index + 1, '='))
    ensures t.Some? ==> t.value.kind in {Equals, BinaryOperator}
    ensures t.Some? ==> |t.value.value| == if t.value.kind == Equals then 2 else 1
  {
    if index < |raw| && IsBinOp(raw[index]) then
      var value := [raw[index]];
      if HasCharAt(raw, index + 1, '=') then Some(Token(value + [raw[index + 1]], Equals))
      else Some(Token(value, BinaryOperator))
    else None
  }

  /** A recogniser that matches the single character `c` as a token of kind `kind`. */
  function CharToken(raw: string, index: nat, c: char, kind: TokenKind): (t: Option<Token>)
    ensures t.Some? <==> HasCharAt(raw, index, c)
    ensures t.Some? ==> t.value == Token([c], kind)
  {
    if HasCharAt(raw, index, c) then Some(Token([raw[index]], kind)) else None
  }

  /** parseEqualsToken */
  function EqualsToken(raw: string, index: nat): (t: Option<Token>)
    ensures t.Some? <==> HasCharAt(raw, index, '=')
    ensures t.Some? ==> t.value == Token("=", Equals)
  {
    CharToken(raw, index, '=', Equals)
  }

  /** parseParenToken */
  function ParenToken(raw: string, index: nat): (t: Option<Token>)
    ensures t.Some? <==> HasCharAt(raw, index, '(') || HasCharAt(raw, index, ')')
    ensures t.Some? ==> index < |raw| && t.value.value == [raw[index]]
    ensures t.Some? ==> (t.value.kind == OpenParen <==> raw[index] == '(')
    ensures t.Some? ==> t.value.kind in {OpenParen, ClosedParen}
  {
    if HasCharAt(raw, index, '(') then CharToken(raw, index, '(', OpenParen)
    else CharToken(raw, index, ')', ClosedParen)
  }

  /** parseBlockToken */
  function BlockToken(raw: string, index: nat): (t: Option<Token>)
    ensures t.Some? <==> HasCharAt(raw, index, '{') || HasCharAt(raw, index, '}')
    ensures t.Some? ==> index < |raw| && t.value.value == [raw[index]]
    ensures t.Some? ==> (t.value.kind == OpenBlock <==> raw[index] == '{')
    ensures t.Some? ==> t.value.kind in {OpenBlock, CloseBlock}
  {
    if HasCharAt(raw, index, '{') then CharToken(raw, index, '{', OpenBlock)
    else CharToken(raw, index, '}', CloseBlock)
  }

  /** parseEOLToken */
  function EolToken(raw: string, index: nat): (t: Option<Token>)
    ensures t.Some? <==> HasCharAt(raw, index, ';')
    ensures t.Some? ==> t.value == Token(";", EOL)
  {
    CharToken(raw, index, ';', EOL)
  }

  /** parseTernaryQMARKToken */
  function QMarkToken(raw: string, index: nat): (t: Option<Token>)
    ensures t.Some? <==> HasCharAt(raw, index, '?')
    ensures t.Some? ==> t.value == Token("?", TernaryQMark)
  {
    CharToken(raw, index, '?', TernaryQMark)
  }

  /** parseTernaryCOLONToken */
  function ColonToken(raw: string, index: nat): (t: Option<Token>)
    ensures t.Some? <==> HasCharAt(raw, index, ':')
    ensures t.Some? ==> t.value == Token(":", TernaryColon)
  {
    CharToken(raw, index, ':', TernaryColon)
  }

  /** parseComparisonToken: '<', '>' or "=="; a lone '=' is not a comparison. */
  function ComparisonToken(raw: string, index: nat): (t: Option<Token>)
    ensures t.Some? <==> HasCharAt(raw, index, '<') || HasCharAt(raw, index, '>') ||
                         (HasCharAt(raw, index, '=') && HasCharAt(raw, index + 1, '='))
    ensures t.Some? ==> t.value.kind == Comparison && t.value.value in {"<", ">", "=="}
    ensures t.Some? ==> index + |t.value.value| <= |raw| && t.value.value == raw[index..index + |t.value.value|]
  {
    if HasCharAt(raw, index, '<') || HasCharAt(raw, index, '>') then Some(Token([raw[index]], Comparison))
    else if HasCharAt(raw, index, '=') && HasCharAt(raw, index + 1, '=') then Some(Token("==", Comparison))
    else None
  }

  // ---------------------------------------------------------------- keywords

  /**
   * A keyword recogniser: the keyword must be followed by a space, and the
   * token's text leaves that space out.
   */
  function KeywordToken(raw: string, index: nat, word: string, kind: TokenKind): (t: Option<Token>)
    ensures t.Some? <==> index + |word| + 1 <= |raw| && raw[index..index + |word| + 1] == word + " "
    ensures t.Some? ==> t.value == Token(word, kind) && t.value.value == raw[index..index + |word|]
  {
    if index + |word| + 1 <= |raw| && raw[index..index + |word| + 1] == word + " " then
      assert raw[index..index + |word|] == (word + " ")[..|word|];
      Some(Token(word, kind))
    else None
  }

  /** parseOutputToken */
  function OutputToken(raw: string, index: nat): (t: Option<Token>)
    ensures t.Some? <==> index + 4 <= |raw| && raw[index..index + 4] == "out "
    ensures t.Some? ==> t.value == Token("out", Output)
  {
    KeywordToken(raw, index, "out", Output)
  }

  /** parseTypeToken */
  function TypeToken(raw: string, index: nat): (t: Option<Token>)
    ensures t.Some? <==> index + 5 <= |raw| && raw[index..index + 5] == "type "
    ensures t.Some? ==> t.value == Token("type", Type)
  {
    KeywordToken(raw, index, "type", Type)
  }

  /** parseIfToken */
  function IfToken(raw: string, index: nat): (t: Option<Token>)
    ensures t.Some? <==> index + 3 <= |raw| && raw[index..index + 3] == "if "
    ensures t.Some? ==> t.value == Token("if", If)
  {
    KeywordToken(raw, index, "if", If)
  }

  // ---------------------------------------------------------------- comments

  /**
   * parseCommentToken: a '<' starts a comment only if some '>' occurs later;
   * the comment runs to the first such '>' and includes both delimiters.
   */
  function CommentToken(raw: string, index: nat): (t: Option<Token>)
    ensures t.Some? <==> HasCharAt(raw, index, '<') && FindChar(raw, '>', index + 1).Some?
    ensures t.Some? ==> t.value.kind == Comment && |t.value.value| >= 2
    ensures t.Some? ==> index + |t.value.value| <= |raw| && t.value.value == raw[index..index + |t.value.value|]
    ensures t.Some? ==> t.value.value[0] == '<' && t.value.value[|t.value.value| - 1] == '>'
    ensures t.Some? ==> '>' !in t.value.value[..|t.value.value| - 1]
  {
    if HasCharAt(raw, index, '<') then
      match FindChar(raw, '>', index + 1)
      case Some(close) => Some(Token(raw[index..close + 1], Comment))
      case None => None
    else None
  }

  method ParseCommentToken(raw: string, index: nat) returns (t: Option<Token>)
    ensures t == CommentToken(raw, index)
  {
    if !HasCharAt(raw, index, '<') {
      return None;
    }
    var value := "<";
    var i := 1;
    var isComment := false;
    while index + i < |raw|
      invariant 1 <= i && index + i <= |raw|
      invariant !isComment
      invariant value == raw[index..index + i]
      invariant forall k | index + 1 <= k < index + i :: raw[k] != '>'
      decreases |raw| - index - i
    {
      value := value + [raw[index + i]];
      if raw[index + i] == '>' {
        assert value == raw[index..index + i + 1];
        isComment := true;
        break;
      }
      i := i + 1;
    }
    if isComment {
      assert FindChar(raw, '>', index + 1) == Some(index + i);
      t := Some(Token(value, Comment));
    } else {
      assert FindChar(raw, '>', index + 1).None?;
      t := None;
    }
  }
}
