/**
 * Properties of the scanning loop: which token each leading character
 * produces, where the tokens lie in the source, and the final EOF.
 */
module LexerProps {
  import opened Wrappers
  import opened Tokens
  import opened Lexer
  import Numbers

  /** The characters at which some recogniser of the table matches. */
  predicate CanStartToken(c: char) {
    c == '<' || c == '>' || c == '"' || c == '=' || c == '?' || c == ':' || c == ';' ||
    c == '(' || c == ')' || c == '{' || c == '}' ||
    IsBinOp(c) || IsLetter(c) || (NumberCharOk(c) && c != ' ')
  }

  /** A keyword recogniser fails where the keyword's first letter is absent. */
  lemma KeywordNeedsFirst(raw: string, i: nat, word: string, kind: TokenKind)
    requires word != [] && (i >= |raw| || raw[i] != word[0])
    ensures KeywordToken(raw, i, word, kind).None?
  {
  }

  /** No keyword starts at a character that is not a letter. */
  lemma NoKeyword(raw: string, i: nat)
    requires i < |raw| && !IsLetter(raw[i])
    ensures OutputToken(raw, i).None? && TypeToken(raw, i).None? && IfToken(raw, i).None?
  {
    KeywordNeedsFirst(raw, i, "out", Output);
    KeywordNeedsFirst(raw, i, "type", Type);
    KeywordNeedsFirst(raw, i, "if", If);
  }

  /** The loop finds nothing from entry `j` on exactly when every later recogniser fails. */
  lemma {:induction false} FirstMatchNone(raw: string, i: nat, j: nat)
    ensures FirstMatch(raw, i, j).None? <==> forall k | j <= k < |LexerOrder| :: Recognise(LexerOrder[k], raw, i).None?
    decreases |LexerOrder| - j
  {
    if j < |LexerOrder| {
      FirstMatchNone(raw, i, j + 1);
    }
  }

  /** The table entry whose recogniser matches at a character CanStartToken names. */
  lemma SomeRule(raw: string, i: nat) returns (k: nat)
    requires i < |raw| && !IsBlank(raw[i]) && CanStartToken(raw[i])
    ensures k < |LexerOrder| && Recognise(LexerOrder[k], raw, i).Some?
  {
    var c := raw[i];
    k := if c == '<' then (if CommentToken(raw, i).Some? then 0 else 10)
      else if c == '"' then 1
      else if NumberCharOk(c) && c != ' ' then 2
      else if IsLetter(c) then 8
      else if IsBinOp(c) then 9
      else if c == '>' then 10
      else if c == '=' then (if HasCharAt(raw, i + 1, '=') then 10 else 11)
      else if c == '(' || c == ')' then 12
      else if c == '{' || c == '}' then 13
      else if c == '?' then 6
      else if c == ':' then 7
      else 14;
  }

  /** No recogniser matches at a character CanStartToken rejects. */
  lemma NoRule(raw: string, i: nat)
    requires i < |raw| && !IsBlank(raw[i]) && !CanStartToken(raw[i])
    ensures forall k | 0 <= k < |LexerOrder| :: Recognise(LexerOrder[k], raw, i).None?
  {
    NoKeyword(raw, i);
    forall k | 0 <= k < |LexerOrder| ensures Recognise(LexerOrder[k], raw, i).None? {
    }
  }

  /** Some recogniser matches exactly at the characters CanStartToken names. */
  lemma SomeRuleIff(raw: string, i: nat)
    requires i < |raw| && !IsBlank(raw[i])
    ensures FirstMatch(raw, i, 0).Some? <==> CanStartToken(raw[i])
  {
    FirstMatchNone(raw, i, 0);
    if CanStartToken(raw[i]) {
      var k := SomeRule(raw, i);
    } else {
      NoRule(raw, i);
    }
  }

  /** A character no recogniser accepts becomes a one-character Unknown token, and only such a character does. */
  lemma ScanUnknownIff(raw: string, i: nat)
    requires i < |raw| && !IsBlank(raw[i])
    ensures Scan(raw, i).kind == Unknown <==> !CanStartToken(raw[i])
    ensures !CanStartToken(raw[i]) ==> Scan(raw, i) == Token([raw[i]], Unknown)
  {
    SomeRuleIff(raw, i);
  }

  /** The loop stops at the first entry of the table whose recogniser matches. */
  lemma {:induction false} FirstMatchAt(raw: string, i: nat, j: nat, k: nat)
    requires j <= k < |LexerOrder| && Recognise(LexerOrder[k], raw, i).Some?
    requires forall m | j <= m < k :: Recognise(LexerOrder[m], raw, i).None?
    ensures FirstMatch(raw, i, j) == Recognise(LexerOrder[k], raw, i)
    decreases k - j
  {
    if j < k {
      FirstMatchAt(raw, i, j + 1, k);
    }
  }

  /** '<' opens a comment when a '>' follows somewhere later, and is otherwise the comparison operator. */
  lemma ScanLess(raw: string, i: nat)
    requires i < |raw| && raw[i] == '<'
    ensures FindChar(raw, '>', i + 1).Some? ==> Scan(raw, i) == CommentToken(raw, i).value
    ensures FindChar(raw, '>', i + 1).None? ==> Scan(raw, i) == Token("<", Comparison)
  {
    NoKeyword(raw, i);
    if FindChar(raw, '>', i + 1).Some? {
      FirstMatchAt(raw, i, 0, 0);
    } else {
      forall m | 0 <= m < 10 ensures Recognise(LexerOrder[m], raw, i).None? {
      }
      FirstMatchAt(raw, i, 0, 10);
    }
  }

  /** '"' always begins a string literal. */
  lemma ScanQuote(raw: string, i: nat)
    requires i < |raw| && raw[i] == '"'
    ensures Scan(raw, i) == StringToken(raw, i).value
  {
    NoKeyword(raw, i);
  }

  /** A digit, or whitespace other than the two skipped characters, begins a numeral. */
  lemma ScanNumeral(raw: string, i: nat)
    requires i < |raw| && NumberCharOk(raw[i]) && !IsBlank(raw[i])
    ensures Scan(raw, i) == NumberToken(raw, i).value
  {
    NoKeyword(raw, i);
  }

  /**
   * A letter begins a keyword when the keyword and a space follow, and an
   * identifier otherwise (so "ifx" and an "out" at the end of the text are identifiers).
   */
  lemma ScanWord(raw: string, i: nat)
    requires i < |raw| && IsLetter(raw[i])
    ensures Scan(raw, i) ==
      if OutputToken(raw, i).Some? then Token("out", Output)
      else if TypeToken(raw, i).Some? then Token("type", Type)
      else if IfToken(raw, i).Some? then Token("if", If)
      else IdentifierToken(raw, i).value
  {
    if OutputToken(raw, i).Some? || TypeToken(raw, i).Some? || IfToken(raw, i).Some? {
      ScanKeyword(raw, i);
    } else {
      ScanIdentifier(raw, i);
    }
  }

  /** At a letter, the comment, string and number recognisers (the first three in table order) match nothing. */
  lemma LetterPassesLiterals(raw: string, i: nat)
    requires i < |raw| && IsLetter(raw[i])
    ensures forall m | 0 <= m < 3 :: Recognise(LexerOrder[m], raw, i).None?
  {
    forall m | 0 <= m < 3 ensures Recognise(LexerOrder[m], raw, i).None? {
    }
  }

  /** A letter where a keyword recogniser matches: the first of the three keywords in table order. */
  lemma ScanKeyword(raw: string, i: nat)
    requires i < |raw| && IsLetter(raw[i])
    requires OutputToken(raw, i).Some? || TypeToken(raw, i).Some? || IfToken(raw, i).Some?
    ensures Scan(raw, i) ==
      if OutputToken(raw, i).Some? then Token("out", Output)
      else if TypeToken(raw, i).Some? then Token("type", Type)
      else Token("if", If)
  {
    LetterPassesLiterals(raw, i);
    if OutputToken(raw, i).Some? {
      FirstMatchAt(raw, i, 0, 3);
    } else if TypeToken(raw, i).Some? {
      FirstMatchAt(raw, i, 0, 4);
    } else {
      FirstMatchAt(raw, i, 0, 5);
    }
  }

  /** A letter where no keyword recogniser matches begins an identifier. */
  lemma ScanIdentifier(raw: string, i: nat)
    requires i < |raw| && IsLetter(raw[i])
    requires OutputToken(raw, i).None? && TypeToken(raw, i).None? && IfToken(raw, i).None?
    ensures Scan(raw, i) == IdentifierToken(raw, i).value
  {
    forall m | 0 <= m < 8 ensures Recognise(LexerOrder[m], raw, i).None? {
    }
    FirstMatchAt(raw, i, 0, 8);
  }

  /** An arithmetic operator, or its compound-assignment form when '=' follows. */
  lemma ScanOperator(raw: string, i: nat)
    requires i < |raw| && IsBinOp(raw[i])
    ensures Scan(raw, i) == BinOpToken(raw, i).value
  {
    NoKeyword(raw, i);
    forall m | 0 <= m < 9 ensures Recognise(LexerOrder[m], raw, i).None? {
    }
    FirstMatchAt(raw, i, 0, 9);
  }

  /** "==" is the equality comparison; a lone '=' is assignment. */
  lemma ScanEquals(raw: string, i: nat)
    requires i < |raw| && raw[i] == '='
    ensures Scan(raw, i) == if HasCharAt(raw, i + 1, '=') then Token("==", Comparison) else Token("=", Equals)
  {
    NoKeyword(raw, i);
    var k := if HasCharAt(raw, i + 1, '=') then 10 else 11;
    forall m | 0 <= m < k ensures Recognise(LexerOrder[m], raw, i).None? {
    }
    FirstMatchAt(raw, i, 0, k);
  }

  /** '>' is always a comparison. */
  lemma ScanGreater(raw: string, i: nat)
    requires i < |raw| && raw[i] == '>'
    ensures Scan(raw, i) == Token(">", Comparison)
  {
    NoKeyword(raw, i);
    forall m | 0 <= m < 10 ensures Recognise(LexerOrder[m], raw, i).None? {
    }
    FirstMatchAt(raw, i, 0, 10);
  }

  /** The kind of a one-character punctuation token. */
  function PunctuationKind(c: char): Option<TokenKind> {
    match c
    case '?' => Some(TernaryQMark)
    case ':' => Some(TernaryColon)
    case ';' => Some(EOL)
    case '(' => Some(OpenParen)
    case ')' => Some(ClosedParen)
    case '{' => Some(OpenBlock)
    case '}' => Some(CloseBlock)
    case _ => None
  }

  /** Each punctuation character is a token of its own. */
  lemma ScanPunctuation(raw: string, i: nat)
    requires i < |raw| && PunctuationKind(raw[i]).Some?
    ensures Scan(raw, i) == Token([raw[i]], PunctuationKind(raw[i]).value)
  {
    NoKeyword(raw, i);
    var c := raw[i];
    var k := if c == '?' then 6 else if c == ':' then 7 else if c == '(' || c == ')' then 12
      else if c == '{' || c == '}' then 13 else 14;
    forall m | 0 <= m < k ensures Recognise(LexerOrder[m], raw, i).None? {
    }
    FirstMatchAt(raw, i, 0, k);
  }

  /** None of the tokens `ts` is EOF, and none is empty. */
  predicate Proper(ts: seq<Token>) {
    forall k | 0 <= k < |ts| :: ts[k].kind != EOF && ts[k].Length() >= 1
  }

  /** A proper token in front of proper tokens. */
  lemma ProperCons(t: Token, ts: seq<Token>)
    requires t.kind != EOF && t.Length() >= 1 && Proper(ts)
    ensures Proper([t] + ts)
  {
    assert forall k | 1 <= k < |ts| + 1 :: ([t] + ts)[k] == ts[k - 1];
  }

  /** The loop's step at a non-blank position keeps the tokens proper. */
  lemma ProperStep(raw: string, i: nat)
    requires i < |raw| && !IsBlank(raw[i]) && Proper(LexFrom(raw, i + Scan(raw, i).Length()))
    ensures Proper(LexFrom(raw, i))
  {
    LexFromStep(raw, i);
    ProperCons(Scan(raw, i), LexFrom(raw, i + Scan(raw, i).Length()));
  }

  /** No token before the final one is EOF, and none is empty. */
  lemma {:induction false} LexFromTokens(raw: string, i: nat)
    ensures Proper(LexFrom(raw, i))
    decreases |raw| - i
  {
    if i < |raw| {
      if IsBlank(raw[i]) {
        LexFromTokens(raw, i + 1);
        assert LexFrom(raw, i) == LexFrom(raw, i + 1);
      } else {
        LexFromTokens(raw, i + Scan(raw, i).Length());
        ProperStep(raw, i);
      }
    }
  }

  /** toTokens always ends with the EOF token, and that is the only EOF it produces. */
  lemma TokenizeEndsWithEof(raw: string)
    ensures var ts := Tokenize(raw);
      |ts| >= 1 && ts[|ts| - 1] == Token("EOF", EOF) &&
      forall k | 0 <= k < |ts| :: ts[k].kind == EOF <==> k == |ts| - 1
  {
    LexFromTokens(raw, 0);
  }

  /** From position `i` on, no token is produced exactly when only spaces and newlines remain. */
  lemma {:induction false} LexFromEmptyIff(raw: string, i: nat)
    ensures LexFrom(raw, i) == [] <==> forall p | i <= p < |raw| :: IsBlank(raw[p])
    decreases |raw| - i
  {
    if i < |raw| && IsBlank(raw[i]) {
      LexFromEmptyIff(raw, i + 1);
    }
  }

  /** The token list is the lone EOF exactly when the text holds nothing but spaces and newlines. */
  lemma TokenizeOnlyEofIff(raw: string)
    ensures Tokenize(raw) == [EofToken] <==> forall p | 0 <= p < |raw| :: IsBlank(raw[p])
  {
    LexFromEmptyIff(raw, 0);
    assert Tokenize(raw) == [EofToken] <==> LexFrom(raw, 0) == [];
  }

  /** Which table entry produced the loop's match. */
  lemma {:induction false} FirstMatchRule(raw: string, i: nat, j: nat) returns (k: nat)
    requires FirstMatch(raw, i, j).Some?
    ensures j <= k < |LexerOrder| && FirstMatch(raw, i, j) == Recognise(LexerOrder[k], raw, i)
    decreases |LexerOrder| - j
  {
    if Recognise(LexerOrder[j], raw, i).Some? {
      k := j;
    } else {
      k := FirstMatchRule(raw, i, j + 1);
    }
  }

  /** Every recogniser but the string one returns the source text it matched. */
  lemma RecogniseText(rule: Rule, raw: string, i: nat)
    requires Recognise(rule, raw, i).Some? && rule != StringRule
    ensures var t := Recognise(rule, raw, i).value;
      i + |t.value| <= |raw| && t.value == raw[i..i + |t.value|]
  {
  }

  /**
   * A token's text is the source text at its position, except for a string
   * literal that is never closed, which takes the rest of the text followed
   * by `undefined"` (the source string read past its end).
   */
  lemma ScanText(raw: string, i: nat)
    requires i < |raw| && !IsBlank(raw[i])
    ensures raw[i] == '"' && FindChar(raw, '"', i + 1).None? ==>
      Scan(raw, i) == Token(raw[i..] + "undefined\"", String)
    ensures raw[i] != '"' || FindChar(raw, '"', i + 1).Some? ==>
      i + Scan(raw, i).Length() <= |raw| && Scan(raw, i).value == raw[i..i + Scan(raw, i).Length()]
  {
    if raw[i] == '"' {
      ScanQuote(raw, i);
    } else if FirstMatch(raw, i, 0).Some? {
      var k := FirstMatchRule(raw, i, 0);
      RecogniseText(LexerOrder[k], raw, i);
    }
  }

  /** Whether the positions from `from` up to `to` (within the text) hold only spaces and newlines. */
  predicate Gap(raw: string, from: nat, to: nat) {
    forall p | from <= p < to && p < |raw| :: IsBlank(raw[p])
  }

  /** The loop's step at a non-blank position: one token, then the rest from just past it. */
  lemma LexFromStep(raw: string, i: nat)
    requires i < |raw| && !IsBlank(raw[i])
    ensures LexFrom(raw, i) == [Scan(raw, i)] + LexFrom(raw, i + Scan(raw, i).Length())
    ensures Starts(raw, i) == [i] + Starts(raw, i + Scan(raw, i).Length())
  {
  }

  /** `t` is what the recognisers produce at the non-blank position `p` of `raw`. */
  predicate TokenAt(raw: string, p: nat, t: Token) {
    p < |raw| && !IsBlank(raw[p]) && t == Scan(raw, p)
  }

  /** Each token of `ts` is what the recognisers produce at the matching non-blank position of `ps`, from `i` on. */
  predicate ScannedAt(raw: string, i: nat, ps: seq<nat>, ts: seq<Token>) {
    |ps| == |ts| &&
    forall k | 0 <= k < |ps| :: i <= ps[k] && TokenAt(raw, ps[k], ts[k])
  }

  /** The token scanned at `i`, in front of tokens scanned further on. */
  lemma ScannedCons(raw: string, i: nat, t: Token, n: nat, ps: seq<nat>, ts: seq<Token>)
    requires TokenAt(raw, i, t) && i < n && ScannedAt(raw, n, ps, ts)
    ensures ScannedAt(raw, i, [i] + ps, [t] + ts)
  {
    forall k | 1 <= k < |ps| + 1
      ensures i <= ([i] + ps)[k] && TokenAt(raw, ([i] + ps)[k], ([t] + ts)[k])
    {
      ConsAt(i, ps, k);
      ConsAt(t, ts, k);
    }
  }

  /** Tokens scanned from `j` on are also scanned from any earlier `i` on. */
  lemma ScannedFrom(raw: string, i: nat, j: nat, ps: seq<nat>, ts: seq<Token>)
    requires i <= j && ScannedAt(raw, j, ps, ts)
    ensures ScannedAt(raw, i, ps, ts)
  {
  }

  /** Past the front, `[x] + s` holds the elements of `s`. */
  lemma ConsAt<T>(x: T, s: seq<T>, k: nat)
    requires 1 <= k <= |s|
    ensures ([x] + s)[k] == s[k - 1]
  {
  }

  /**
   * The k-th token is what the recognisers produce at the k-th start
   * position, and start positions lie in the text and hold no blank.
   */
  lemma {:induction false} LayoutTokens(raw: string, i: nat)
    ensures ScannedAt(raw, i, Starts(raw, i), LexFrom(raw, i))
    decreases |raw| - i
  {
    if i < |raw| {
      if IsBlank(raw[i]) {
        LayoutTokens(raw, i + 1);
        TokensBlankStep(raw, i);
      } else {
        LayoutTokens(raw, i + Scan(raw, i).Length());
        TokensStep(raw, i);
      }
    }
  }

  /** The loop's step over a blank keeps each token at its start position. */
  lemma TokensBlankStep(raw: string, i: nat)
    requires i < |raw| && IsBlank(raw[i])
    requires ScannedAt(raw, i + 1, Starts(raw, i + 1), LexFrom(raw, i + 1))
    ensures ScannedAt(raw, i, Starts(raw, i), LexFrom(raw, i))
  {
    ScannedFrom(raw, i, i + 1, Starts(raw, i + 1), LexFrom(raw, i + 1));
    assert Starts(raw, i) == Starts(raw, i + 1) && LexFrom(raw, i) == LexFrom(raw, i + 1);
  }

  /** The loop's step at a non-blank position puts the scanned token at that position. */
  lemma TokensStep(raw: string, i: nat)
    requires i < |raw| && !IsBlank(raw[i])
    requires ScannedAt(raw, i + Scan(raw, i).Length(), Starts(raw, i + Scan(raw, i).Length()), LexFrom(raw, i + Scan(raw, i).Length()))
    ensures ScannedAt(raw, i, Starts(raw, i), LexFrom(raw, i))
  {
    var t := Scan(raw, i);
    var n := i + t.Length();
    var ps, ts := Starts(raw, n), LexFrom(raw, n);
    assert TokenAt(raw, i, t);
    ScannedCons(raw, i, t, n, ps, ts);
    LexFromStep(raw, i);
  }

  /** The count of start positions follows the count of tokens across one step. */
  lemma CountStep(raw: string, i: nat)
    requires i < |raw| && !IsBlank(raw[i])
    requires |Starts(raw, i + Scan(raw, i).Length())| == |LexFrom(raw, i + Scan(raw, i).Length())|
    ensures |Starts(raw, i)| == |LexFrom(raw, i)|
  {
    LexFromStep(raw, i);
  }

  /** There are as many start positions as tokens. */
  lemma {:induction false} LayoutCount(raw: string, i: nat)
    ensures |Starts(raw, i)| == |LexFrom(raw, i)|
    decreases |raw| - i
  {
    if i < |raw| {
      if IsBlank(raw[i]) {
        LayoutCount(raw, i + 1);
      } else {
        LayoutCount(raw, i + Scan(raw, i).Length());
        CountStep(raw, i);
      }
    }
  }

  /**
   * Tokens `ts` at start positions `ps` lie in source order from `i` on without
   * overlapping, with only blanks before and between them.
   */
  predicate OrderedAt(raw: string, i: nat, ps: seq<nat>, ts: seq<Token>) {
    |ps| == |ts| &&
    (forall k | 0 <= k < |ps| - 1 :: ps[k] + ts[k].Length() <= ps[k + 1] && Gap(raw, ps[k] + ts[k].Length(), ps[k + 1])) &&
    Gap(raw, i, if ps == [] then |raw| else ps[0])
  }

  /** From position `i` on, the loop's tokens appear in source order, with only blanks before and between them. */
  predicate Ordered(raw: string, i: nat) {
    OrderedAt(raw, i, Starts(raw, i), LexFrom(raw, i))
  }

  /** A blank before the tokens only widens the leading gap. */
  lemma OrderedBlank(raw: string, i: nat)
    requires i < |raw| && IsBlank(raw[i]) && Ordered(raw, i + 1)
    ensures Ordered(raw, i)
  {
    var ps := Starts(raw, i + 1);
    assert Starts(raw, i) == ps && LexFrom(raw, i) == LexFrom(raw, i + 1);
    var e := if ps == [] then |raw| else ps[0];
    assert Gap(raw, i, e) by {
      forall p | i <= p < e && p < |raw| ensures IsBlank(raw[p]) {
        if p > i {
          assert Gap(raw, i + 1, e);
        }
      }
    }
  }

  /** The first start position is not before `i`. */
  lemma {:induction false} StartsHead(raw: string, i: nat)
    ensures Starts(raw, i) != [] ==> i <= Starts(raw, i)[0]
    decreases |raw| - i
  {
    if i < |raw| && IsBlank(raw[i]) {
      StartsHead(raw, i + 1);
    }
  }

  /** A token at `i`, directly followed by ordered tokens from its end on, keeps them ordered. */
  lemma OrderedCons(raw: string, i: nat, t: Token, ps: seq<nat>, ts: seq<Token>)
    requires OrderedAt(raw, i + t.Length(), ps, ts)
    requires ps != [] ==> i + t.Length() <= ps[0]
    ensures OrderedAt(raw, i, [i] + ps, [t] + ts)
  {
    var n := i + t.Length();
    forall k | 0 <= k < |ps|
      ensures ([i] + ps)[k] + ([t] + ts)[k].Length() <= ([i] + ps)[k + 1] &&
        Gap(raw, ([i] + ps)[k] + ([t] + ts)[k].Length(), ([i] + ps)[k + 1])
    {
      assert ([i] + ps)[k + 1] == ps[k];
      if k > 0 {
        assert ([i] + ps)[k] == ps[k - 1];
        assert ([t] + ts)[k] == ts[k - 1];
      }
    }
  }

  /** A token in front of ordered tokens keeps them ordered. */
  lemma OrderedStep(raw: string, i: nat)
    requires i < |raw| && !IsBlank(raw[i]) && Ordered(raw, i + Scan(raw, i).Length())
    ensures Ordered(raw, i)
  {
    var t := Scan(raw, i);
    var n := i + t.Length();
    var ps, ts := Starts(raw, n), LexFrom(raw, n);
    StartsHead(raw, n);
    OrderedCons(raw, i, t, ps, ts);
    LexFromStep(raw, i);
  }

  /** Tokens appear in source order without overlapping, with only blanks between them. */
  lemma {:induction false} LayoutOrder(raw: string, i: nat)
    ensures Ordered(raw, i)
    decreases |raw| - i
  {
    if i < |raw| {
      if IsBlank(raw[i]) {
        LayoutOrder(raw, i + 1);
        OrderedBlank(raw, i);
      } else {
        LayoutOrder(raw, i + Scan(raw, i).Length());
        OrderedStep(raw, i);
      }
    }
  }

  /** Only blanks follow the last of the tokens `ts` at start positions `ps`. */
  predicate TailBlankAt(raw: string, ps: seq<nat>, ts: seq<Token>) {
    |ps| == |ts| && (ps != [] ==> Gap(raw, ps[|ps| - 1] + ts[|ps| - 1].Length(), |raw|))
  }

  /** From position `i` on, only blanks follow the loop's last token. */
  predicate TailBlank(raw: string, i: nat) {
    TailBlankAt(raw, Starts(raw, i), LexFrom(raw, i))
  }

  /** A token in front keeps the gap after the last token blank, and is itself the last when nothing follows it. */
  lemma TailCons(raw: string, i: nat, t: Token, ps: seq<nat>, ts: seq<Token>)
    requires TailBlankAt(raw, ps, ts) && OrderedAt(raw, i + t.Length(), ps, ts)
    ensures TailBlankAt(raw, [i] + ps, [t] + ts)
  {
    if ps != [] {
      assert ([i] + ps)[|ps|] == ps[|ps| - 1];
      assert ([t] + ts)[|ps|] == ts[|ps| - 1];
    }
  }

  /** The loop's step at a non-blank position keeps the gap after the last token blank. */
  lemma TailStep(raw: string, i: nat)
    requires i < |raw| && !IsBlank(raw[i])
    requires TailBlank(raw, i + Scan(raw, i).Length()) && Ordered(raw, i + Scan(raw, i).Length())
    ensures TailBlank(raw, i)
  {
    var t := Scan(raw, i);
    var n := i + t.Length();
    var ps, ts := Starts(raw, n), LexFrom(raw, n);
    TailCons(raw, i, t, ps, ts);
    LexFromStep(raw, i);
  }

  /** Only blanks follow the last token. */
  lemma {:induction false} LayoutTail(raw: string, i: nat)
    ensures TailBlank(raw, i)
    decreases |raw| - i
  {
    if i < |raw| {
      if IsBlank(raw[i]) {
        LayoutTail(raw, i + 1);
        assert Starts(raw, i) == Starts(raw, i + 1) && LexFrom(raw, i) == LexFrom(raw, i + 1);
      } else {
        var n := i + Scan(raw, i).Length();
        LayoutTail(raw, n);
        LayoutOrder(raw, n);
        TailStep(raw, i);
      }
    }
  }

  /** A numeral: a digit followed by digits and dots. */
  predicate IsNumeral(d: string) {
    d != [] && Numbers.IsDigit(d[0]) && forall k | 0 <= k < |d| :: Numbers.IsDigit(d[k]) || d[k] == '.'
  }

  /** A numeral directly followed by ';' is scanned as one Number token holding exactly the numeral. */
  lemma NumeralToken(d: string)
    requires IsNumeral(d)
    ensures Scan(d + ";", 0) == Token(d, Number)
  {
    var raw := d + ";";
    assert raw[|d|] == ';';
    ScanNumeral(raw, 0);
    var t := NumberToken(raw, 0).value;
    var m := |t.value|;
    assert raw[0..|d|] == d;
    if m < |d| {
      assert raw[m] == d[m];
      assert ContinuesNumber(raw[m], m);
    }
    assert t.value == d;
  }

  /** A numeral followed by ';' lexes as a Number token, an EOL token and EOF. */
  lemma NumeralStatement(d: string)
    requires IsNumeral(d)
    ensures Tokenize(d + ";") == [Token(d, Number), Token(";", EOL), EofToken]
  {
    var raw := d + ";";
    NumeralToken(d);
    LexFromStep(raw, 0);
    assert raw[|d|] == ';';
    ScanPunctuation(raw, |d|);
    LexFromStep(raw, |d|);
    assert LexFrom(raw, |d| + 1) == [];
  }
}
