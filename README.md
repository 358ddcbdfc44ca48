# Jolt interpreter core in Dafny

Jolt is a small interpreted language. Its front end has three stages:

- The lexer (`frontend/lexer/lexer.ts`) turns source text into tokens. It uses the token recognisers of `frontend/lexer/token_types.ts`, tried in a fixed priority order.
- The recursive-descent parser (`frontend/parser/parser.ts`) turns the tokens into a syntax tree of the node kinds in `frontend/parser/ast.ts`.
- The emitter (`frontend/emitter.ts`) walks the tree. It keeps a map of variables between runs and returns the results of the top-level statements.

This project models those five files. It keeps the form the source has.

- **Pure recognisers.** The recognisers without loops are functions. The four recognisers that scan with a loop (number, string, identifier and comment) are methods. Each of these methods is proved equal to a specification function, and the functions carry the properties.
- **Lexer.** `toTokens` and its inner loop over the recogniser table are methods proved equal to `Lexer.Tokenize` and `Lexer.Scan`.
- **Parser.** `Parser` is a class whose `tokens` field the methods shift, as `advance()` does. Each `parse_*` method is proved to agree with a function of the same level in `Grammar`. The properties are proved about those functions: round trips from a printed tree back to the tree, the loops' stopping points, and the inputs on which the source never terminates.
- **Emitter.** `Emitter` is a class with a `variables` field. `emitStmt` and `emitSrc` are methods proved equal to `Semantics.Exec` and `Semantics.Run`. `StmtBuffer` is a class over a sequence.

Dynamic JavaScript values are the datatype `Values.Value`. The JavaScript operators the emitter relies on are written out: `typeof`, truthiness, the type-guarded `+ - * /`, and the coercing `< > ==`.

## Model

| member | source | states |
|---|---|---|
| Tokens.CharText | frontend/lexer/token_types.ts:88-91 | `raw[k]` joined to a string is that character, or the text "undefined" past the end |
| Tokens.FindChar | frontend/lexer/token_types.ts:300-311 | the first position from `from` on that holds `c`, with none before it; None exactly when no later position holds `c` |
| Tokens.NumberRun | frontend/lexer/token_types.ts:63-67 | every character of the run passes the loop test, and the character after the run fails it |
| Tokens.NumberCharOk | frontend/lexer/token_types.ts:63 | no contract of its own; Tokens.NumberToken states that a run starts exactly at a character `Number()` accepts other than ' ', and NumberRun that the run keeps to them and '.' |
| Tokens.ContinuesNumber | frontend/lexer/token_types.ts:63 | no contract of its own; Tokens.NumberRun states that every character of the run passes this test at its offset and the character after the run fails it |
| Tokens.NumberToken | frontend/lexer/token_types.ts:59-78 | no token exactly when the first character is not a digit or non-space whitespace; otherwise a Number token that is a slice of the source, does not start with '.', and is the longest run of digits, whitespace other than ' ', and '.' |
| Tokens.ParseNumericalToken | frontend/lexer/token_types.ts:59-78 | the loop returns exactly NumberToken |
| Tokens.StringToken | frontend/lexer/token_types.ts:81-94 | no token exactly when there is no '"' at `index`; otherwise a String token quoted at both ends, running to the first closing quote, or to the end plus `undefined"` when no quote closes it |
| Tokens.StringClosed | frontend/lexer/token_types.ts:88-93 | with a closing quote and no quote before it, the token is the quoted text between the two quotes |
| Tokens.ParseStringToken | frontend/lexer/token_types.ts:81-94 | the loop returns exactly StringToken, including its run one step past the end |
| Tokens.LetterRun | frontend/lexer/token_types.ts:102-106 | every character of the run is a letter or '_', and the character after it is not |
| Tokens.IdentifierToken | frontend/lexer/token_types.ts:98-117 | no token exactly when the first character is not `[A-Za-z_]`; otherwise the longest run of such characters, as an Identifier slice of the source |
| Tokens.ParseIdentifierToken | frontend/lexer/token_types.ts:98-117 | the loop returns exactly IdentifierToken |
| Tokens.BinOpToken | frontend/lexer/token_types.ts:130-151 | no token exactly when the character is not one of `+ - * /`; an Equals token of two characters exactly when '=' follows, else a one-character BinaryOperator; always a slice of the source |
| Tokens.CharToken | frontend/lexer/token_types.ts:154-164 | a token exactly when the character is `c`, and then the one-character token of the given kind |
| Tokens.Length | frontend/lexer/token_types.ts:46-49 | no contract of its own: the length of the text; LexerProps.LexFromStep and LexerProps.LayoutOrder state that the loop advances by it past each token |
| Tokens.ToString | frontend/lexer/token_types.ts:52-55 | no contract of its own; EmitterProps.SuccessText states that the SUCCESS token prints as "EOL: SUCCESS" |
| Tokens.KindName | frontend/lexer/token_types.ts:54 | no contract of its own; Tokens.KindNameInjective states that no two kinds share a name, and EmitterProps.SuccessText that EOL prints as "EOL" |
| Tokens.KindNameInjective | frontend/lexer/token_types.ts:54 | two kinds with the same `TokenType` name are the same kind, so `toString` tells kinds apart |
| Tokens.IsLetter | frontend/lexer/token_types.ts:119-121 | no contract of its own; IdentifierToken and LexerProps.ScanWord state where a letter starts a token |
| Tokens.IsBinOp | frontend/lexer/token_types.ts:124-126 | no contract of its own; BinOpToken and LexerProps.ScanOperator state what an operator character gives |
| Tokens.EqualsToken | frontend/lexer/token_types.ts:154-164 | a token exactly at '=', and then the one-character Equals token |
| Tokens.ParenToken | frontend/lexer/token_types.ts:167-178 | a token exactly at '(' or ')'; its text is that character, and it is OpenParen exactly for '(' and ClosedParen otherwise |
| Tokens.BlockToken | frontend/lexer/token_types.ts:181-192 | a token exactly at '{' or '}'; its text is that character, and it is OpenBlock exactly for '{' and CloseBlock otherwise |
| Tokens.EolToken | frontend/lexer/token_types.ts:209-219 | a token exactly at ';', and then the one-character EOL token |
| Tokens.QMarkToken | frontend/lexer/token_types.ts:222-232 | a token exactly at '?', and then the one-character ternary `?` token |
| Tokens.ColonToken | frontend/lexer/token_types.ts:235-245 | a token exactly at ':', and then the one-character ternary `:` token |
| Tokens.ComparisonToken | frontend/lexer/token_types.ts:248-262 | a token exactly at '<', '>' or "=="; its text is one of those three and a slice of the source |
| Tokens.KeywordToken | frontend/lexer/token_types.ts:195-206 | a token exactly when the keyword followed by a space is at `index`; the token's text is the keyword without the space |
| Tokens.OutputToken | frontend/lexer/token_types.ts:195-206 | a token exactly when "out " is at `index`, and then the Output token "out" |
| Tokens.TypeToken | frontend/lexer/token_types.ts:265-276 | a token exactly when "type " is at `index`, and then the Type token "type" |
| Tokens.IfToken | frontend/lexer/token_types.ts:279-290 | a token exactly when "if " is at `index`, and then the If token "if" |
| Tokens.CommentToken | frontend/lexer/token_types.ts:293-317 | a token exactly when '<' is at `index` and some '>' follows; the token runs from '<' to the first '>' and holds no other '>' |
| Tokens.ParseCommentToken | frontend/lexer/token_types.ts:293-317 | the loop returns exactly CommentToken |
| Lexer.Recognise | frontend/lexer/lexer.ts:10-26 | a recognised token is never empty, never EOF and never Unknown |
| Lexer.ApplyRule | frontend/lexer/lexer.ts:49 | calling a table entry runs the recogniser it names |
| Lexer.FirstMatch | frontend/lexer/lexer.ts:47-55 | the match of the first entry that recognises a token, which is non-empty and neither EOF nor Unknown |
| Lexer.Scan | frontend/lexer/lexer.ts:46-59 | the token emitted at a non-blank position is non-empty and not EOF |
| Lexer.ScanAt | frontend/lexer/lexer.ts:46-59 | the inner loop over the table returns exactly Scan |
| Lexer.LexFrom | frontend/lexer/lexer.ts:37-60 | no contract of its own; LexerProps.LexFromTokens, LexFromEmptyIff, LayoutTokens, LayoutOrder and LayoutTail state which tokens it pushes and where they lie in the text |
| Lexer.Tokenize | frontend/lexer/lexer.ts:28-66 | no contract of its own; LexerProps.TokenizeEndsWithEof, TokenizeOnlyEofIff and NumeralStatement state its shape; ToTokens is proved equal to it |
| Lexer.IsBlank | frontend/lexer/lexer.ts:40-44 | no contract of its own; LexerProps.LexFromEmptyIff, TokenizeOnlyEofIff and LayoutOrder state that exactly the ' ' and '\n' characters are skipped and produce no token |
| Lexer.ToTokens | frontend/lexer/lexer.ts:28-66 | the loop returns exactly Tokenize |
| LexerProps.KeywordNeedsFirst | frontend/lexer/token_types.ts:195-206 | no keyword is recognised where its first letter is absent |
| LexerProps.NoKeyword | frontend/lexer/token_types.ts:265-290 | `out`, `type` and `if` are not recognised at a character that is not a letter |
| LexerProps.FirstMatchNone | frontend/lexer/lexer.ts:47-55 | the loop finds nothing from entry `j` on exactly when every later recogniser fails |
| LexerProps.SomeRule | frontend/lexer/lexer.ts:10-26 | at each character CanStartToken names, some table entry recognises a token |
| LexerProps.NoRule | frontend/lexer/lexer.ts:10-26 | at any other non-blank character every table entry fails |
| LexerProps.SomeRuleIff | frontend/lexer/lexer.ts:46-59 | some recogniser matches exactly at the characters CanStartToken names |
| LexerProps.ScanUnknownIff | frontend/lexer/lexer.ts:57-59 | a non-blank character becomes a one-character Unknown token exactly when no recogniser accepts it |
| LexerProps.FirstMatchAt | frontend/lexer/lexer.ts:47-55 | the loop stops at the first entry whose recogniser matches |
| LexerProps.ScanLess | frontend/lexer/lexer.ts:10-26 | '<' starts a comment when a '>' follows somewhere later, and is the comparison '<' otherwise |
| LexerProps.ScanQuote | frontend/lexer/lexer.ts:10-26 | '"' always starts a string literal |
| LexerProps.ScanNumeral | frontend/lexer/lexer.ts:10-26 | a digit, or whitespace other than ' ' and '\n', starts a numeral |
| LexerProps.ScanWord | frontend/lexer/lexer.ts:10-26 | a letter starts `out`, `type` or `if` (in that priority) when the keyword and a space follow, and an identifier otherwise |
| LexerProps.ScanKeyword | frontend/lexer/lexer.ts:14-16 | where a keyword recogniser matches, the first keyword in table order wins |
| LexerProps.ScanIdentifier | frontend/lexer/lexer.ts:19 | where no keyword recogniser matches, a letter starts an identifier |
| LexerProps.ScanOperator | frontend/lexer/lexer.ts:20 | `+ - * /` give the BinOp recogniser's token: an operator, or a compound assignment when '=' follows |
| LexerProps.ScanEquals | frontend/lexer/lexer.ts:21-22 | "==" is the equality comparison, because the comparison recogniser comes first; a lone '=' is assignment |
| LexerProps.ScanGreater | frontend/lexer/lexer.ts:21 | '>' is always a comparison |
| LexerProps.ScanPunctuation | frontend/lexer/lexer.ts:17-25 | `? : ; ( ) { }` each become a one-character token of their kind |
| LexerProps.LexFromTokens | frontend/lexer/lexer.ts:37-60 | no token the loop pushes is EOF or empty |
| LexerProps.TokenizeEndsWithEof | frontend/lexer/lexer.ts:62-65 | the token list ends with the EOF token, and that is its only EOF |
| LexerProps.LexFromEmptyIff | frontend/lexer/lexer.ts:37-44 | from position `i` on, no token is pushed exactly when only ' ' and '\n' remain |
| LexerProps.TokenizeOnlyEofIff | frontend/lexer/lexer.ts:28-66 | the token list is the lone EOF exactly when the text holds only ' ' and '\n' |
| LexerProps.FirstMatchRule | frontend/lexer/lexer.ts:47-55 | a match comes from some table entry at or after `j` |
| LexerProps.RecogniseText | frontend/lexer/token_types.ts:59-317 | every recogniser but the string one returns the exact source text it matched |
| LexerProps.ScanText | frontend/lexer/lexer.ts:46-59 | a token's text is the source text at its position; the exception is an unclosed string, which is the rest of the text plus `undefined"` |
| LexerProps.LexFromStep | frontend/lexer/lexer.ts:37 | at a non-blank position the loop pushes one token and continues just past it |
| LexerProps.LayoutTokens | frontend/lexer/lexer.ts:37-60 | the k-th token is what the recognisers give at the k-th start position, and start positions are in the text and not blank |
| LexerProps.LayoutCount | frontend/lexer/lexer.ts:37 | there are as many start positions as tokens |
| LexerProps.StartsHead | frontend/lexer/lexer.ts:37-44 | the first token does not start before the loop's position |
| LexerProps.LayoutOrder | frontend/lexer/lexer.ts:37 | tokens appear in source order without overlapping, with only blanks before and between them |
| LexerProps.LayoutTail | frontend/lexer/lexer.ts:37-44 | only blanks follow the last token |
| LexerProps.NumeralToken | frontend/lexer/token_types.ts:59-78 | a numeral (a digit, then digits and dots) followed by ';' is scanned as one Number token holding exactly the numeral |
| LexerProps.NumeralStatement | frontend/lexer/lexer.ts:28-66 | a numeral followed by ';' lexes to a Number token, an EOL token and EOF |
| Numbers.DigitValue | frontend/parser/parser.ts:239 | a digit's value is below 10 |
| Numbers.DigitChar | frontend/parser/parser.ts:239 | the digit for a value below 10 is a digit with that value |
| Numbers.Trim | frontend/parser/parser.ts:239 | trimming keeps every non-whitespace character, adds none, and leaves no whitespace at either end |
| Numbers.TrimSlice | frontend/parser/parser.ts:239 | the trimmed text is one contiguous slice of the input, with only whitespace cut off before and after it |
| Numbers.DotIndex | frontend/parser/parser.ts:239 | the first '.' of the text, or None when it has none |
| Numbers.IsJsWhitespace | frontend/parser/parser.ts:239 | no contract of its own; Numbers.Trim and TrimSlice state that exactly these characters are cut from the ends of a numeral, and Tokens.NumberToken that they start a number run |
| Numbers.DecimalValue | frontend/parser/parser.ts:239 | no contract of its own; Numbers.DecimalValueParts, DecimalValueRejects and NatTextRoundTrip state the numerals it reads and the ones it rejects |
| Numbers.DecimalValueParts | frontend/parser/parser.ts:239 | `w.f` over digit strings, not both empty, is the whole part plus the fraction's digits over ten per digit |
| Numbers.DecimalValueRejects | frontend/parser/parser.ts:239 | a second '.' after digits makes the text NaN, and so does a lone '.' |
| Numbers.NatText | frontend/emitter.ts:121 | the numeral of n is all digits and denotes n |
| Numbers.FractionDigits | frontend/emitter.ts:121 | at most n decimal digits |
| Numbers.FractionDigitsValue | frontend/emitter.ts:121 | the digits are the fraction's leading decimal digits: read as a whole number they are the fraction times ten per digit, rounded down, and exactly that when they stop before n digits |
| Numbers.NumeralValue | frontend/parser/parser.ts:239 | no contract of its own; NatTextRoundTrip states that it reads every whole numeral back as its number, and ValueProps.LooseEqCoerces that `==` coerces through it |
| Numbers.NumberText | frontend/emitter.ts:121 | no contract of its own; NatTextRoundTrip states that a whole number prints as its numeral, and FractionDigitsValue what the digits after '.' are |
| Numbers.NatTextRoundTrip | frontend/parser/parser.ts:236-240 | in the exact-real model, NumeralValue reads the numeral of every whole number n back as n, and NumberText prints n as that numeral (JavaScript switches to exponent form from 1e21) |
| Values.TypeName | frontend/emitter.ts:137-138 | `typeof` gives one of "number", "string", "boolean", "undefined" or "object" |
| ValueProps.PlusDefinedIff | frontend/emitter.ts:119-122 | `+` is defined exactly when both sides are numbers or strings; it yields a string exactly when one side is a string; two strings concatenate |
| ValueProps.NumericOperatorsNeedNumbers | frontend/emitter.ts:123-134 | `- * /` are defined exactly on two numbers (and `/` not by zero), and then yield a number |
| ValueProps.OtherOperatorUndefined | frontend/emitter.ts:117-136 | an operator outside `+ - * /` yields undefined |
| ValueProps.PlusRendersNumeral | frontend/emitter.ts:119-122 | `+` of a whole number below 2^53 and a string, either way round, joins the number's numeral to the string |
| ValueProps.MixedPlusNotAssociative | frontend/emitter.ts:121 | mixed `+` is not: `(1 + 2) + "a"` is "3a" but `1 + (2 + "a")` is "12a" |
| ValueProps.FalsyValues | frontend/emitter.ts:72 | the falsy values are exactly 0, "", false, undefined and null |
| ValueProps.StringLessIrreflexive | frontend/emitter.ts:104 | no string is below itself |
| ValueProps.StringLessTransitive | frontend/emitter.ts:104 | string order is transitive |
| ValueProps.StringLessTotal | frontend/emitter.ts:104 | two different strings are ordered one way or the other |
| ValueProps.LessAsymmetric | frontend/emitter.ts:101-104 | `<` never holds both ways, nor from a value to itself |
| ValueProps.GreaterIsSwappedLess | frontend/emitter.ts:101-104 | `a > b` is `b < a`; two strings are ordered exactly when they differ |
| ValueProps.UndefinedIncomparable | frontend/emitter.ts:101-104 | `undefined` compares false with everything, in both directions |
| ValueProps.LooseEqSymmetric | frontend/emitter.ts:105-106 | `==` is symmetric and reflexive |
| ValueProps.LooseEqCoerces | frontend/emitter.ts:105-106 | a whole number n ≥ 0 equals its own numeral; `true` equals 1 and "1"; undefined equals null but not 0 |
| ValueProps.CompareYieldsBoolean | frontend/emitter.ts:99-109 | a BooleanExpression yields a boolean exactly for `>`, `<` and `==`, and null for any other operator |
| ValueProps.ToNumberCoerces | frontend/emitter.ts:101-106 | ToNumber reads the numeral of a whole number n ≥ 0 as n, blank text and null as 0, true as 1, and undefined and a word as NaN |
| ValueProps.NumeralComparesAsNumber | frontend/emitter.ts:101-104 | the numeral of a whole number 0 ≤ a < 2^53 against a whole number b below 2^53 compares as a against b, on either side of `<` |
| ValueProps.SignedNumeralIsNaN | frontend/emitter.ts:101-106 | the model's gap stated outright: -5 prints as "-5", but "-5" reads as NaN, so `-5 == "-5"` and `"-5" < 3` are false here where JavaScript makes them true |
| ValueProps.NumeralsCompareAsText | frontend/emitter.ts:103-104 | two strings compare as text: "10" < "9" although 10 < 9 is false |
| Values.Truthy | frontend/emitter.ts:72 | no contract of its own; ValueProps.FalsyValues states that the falsy values are exactly 0, "", false, undefined and null |
| Values.Plus | frontend/emitter.ts:119-122 | no contract of its own; ValueProps.PlusDefinedIff, PlusRendersNumeral and MixedPlusNotAssociative state when it is defined and what it gives |
| Values.Minus | frontend/emitter.ts:123-126 | no contract of its own; ValueProps.NumericOperatorsNeedNumbers states that it is defined exactly on two numbers and then yields a number |
| Values.Times | frontend/emitter.ts:127-130 | no contract of its own; ValueProps.NumericOperatorsNeedNumbers states that it is defined exactly on two numbers and then yields a number |
| Values.Divide | frontend/emitter.ts:131-134 | no contract of its own; ValueProps.NumericOperatorsNeedNumbers states that it is defined exactly on two numbers with a non-zero divisor and then yields a number |
| Values.Arith | frontend/emitter.ts:117-136 | no contract of its own; ValueProps.NumericOperatorsNeedNumbers and OtherOperatorUndefined state which operators and operands give a value |
| Values.Less | frontend/emitter.ts:103-104 | no contract of its own; ValueProps.LessAsymmetric, UndefinedIncomparable and the StringLess lemmas state the order |
| Values.Greater | frontend/emitter.ts:101-102 | no contract of its own; ValueProps.GreaterIsSwappedLess states that it is `<` swapped |
| Values.LooseEq | frontend/emitter.ts:105-106 | no contract of its own; ValueProps.LooseEqSymmetric and LooseEqCoerces state it |
| Values.Compare | frontend/emitter.ts:99-109 | no contract of its own; ValueProps.CompareYieldsBoolean states what each operator yields |
| Values.ToNumber | frontend/emitter.ts:101-106 | no contract of its own; ValueProps.ToNumberCoerces, NumeralComparesAsNumber, UndefinedIncomparable and LooseEqCoerces state how `<`, `>` and `==` coerce through it |
| Values.StringLess | frontend/emitter.ts:103-104 | no contract of its own; ValueProps.StringLessIrreflexive, StringLessTransitive and StringLessTotal state that it is a strict total order, and NumeralsCompareAsText that it is textual |
| Values.TextOf | frontend/emitter.ts:121 | no contract of its own; ValueProps.PlusRendersNumeral and MixedPlusNotAssociative state how `+` renders a number beside a string |
| Values.IsNullish | frontend/emitter.ts:43 | no contract of its own; EmitterProps.AssignmentStores states that an unset, undefined or null variable takes the new value, and UndefinedResultPlacement what a nullish top-level result gives |
| Grammar.Drop1 | frontend/parser/parser.ts:10-13 | shifting leaves a suffix one token shorter |
| Grammar.StripQuotes | frontend/parser/parser.ts:251-256 | a string token's text without its first and last characters |
| Grammar.Stmt | frontend/parser/parser.ts:48-51 | a successful parse leaves a suffix of its input |
| Grammar.CommentLevel | frontend/parser/parser.ts:53-63 | a successful parse leaves a suffix of its input |
| Grammar.Assignment | frontend/parser/parser.ts:65-83 | a successful parse leaves a suffix of its input |
| Grammar.AssignTail | frontend/parser/parser.ts:68-80 | a successful parse leaves a suffix of its input |
| Grammar.OutputLevel | frontend/parser/parser.ts:85-98 | a successful parse leaves a suffix of its input |
| Grammar.IfLevel | frontend/parser/parser.ts:100-126 | a successful parse leaves a suffix of its input |
| Grammar.BlockBody | frontend/parser/parser.ts:108-114 | a successful block loop stops in front of a `}` inside its input |
| Grammar.Expr | frontend/parser/parser.ts:128-131 | a successful parse leaves a suffix of its input |
| Grammar.Ternary | frontend/parser/parser.ts:133-150 | a successful parse leaves a suffix of its input |
| Grammar.TypeLevel | frontend/parser/parser.ts:152-165 | a successful parse leaves a suffix of its input |
| Grammar.Comparison | frontend/parser/parser.ts:167-185 | a successful parse leaves a suffix of its input |
| Grammar.ComparisonTail | frontend/parser/parser.ts:171-182 | a successful parse leaves a suffix of its input |
| Grammar.Addition | frontend/parser/parser.ts:187-205 | a successful parse leaves a suffix of its input |
| Grammar.AdditionTail | frontend/parser/parser.ts:191-202 | a successful parse leaves a suffix of its input |
| Grammar.Multiplication | frontend/parser/parser.ts:207-225 | a successful parse leaves a suffix of its input |
| Grammar.MultiplicationTail | frontend/parser/parser.ts:211-222 | a successful parse leaves a suffix of its input |
| Grammar.Literal | frontend/parser/parser.ts:227-264 | a successful parse leaves a suffix of its input |
| Grammar.ProgramFrom | frontend/parser/parser.ts:38-43 | no contract of its own; ProgramProps.ProgramHead, ProgramRoundTrip, ParserProps.LoneSemicolon, StrayTokenNoProgress and StatementErrorEndsProgram state the loop |
| Grammar.ProgramOf | frontend/parser/parser.ts:27-46 | no contract of its own; ProgramProps.ProgramRoundTrip, ParserProps.UnknownTokenFails, MissingParenFails and Pipeline.OutputProgram state what it gives |
| Parser.Parser.Advance | frontend/parser/parser.ts:10-13 | returns the front token and removes it; on an empty list it returns `undefined` and changes nothing |
| Parser.Parser.constructor | frontend/parser/parser.ts:7 | a new parser holds no tokens |
| Parser.Parser.At | frontend/parser/parser.ts:21-24 | the front token, or `undefined` when there is none |
| Parser.Parser.NotEof | frontend/parser/parser.ts:16-19 | whether the front token is not EOF; an error exactly when there is no front token |
| Parser.Parser.Parse | frontend/parser/parser.ts:27-46 | the program is exactly ProgramOf of the lexer's tokens |
| Parser.Parser.ParseStmt | frontend/parser/parser.ts:48-51 | the node and the tokens left are exactly those of Grammar.Stmt; it fails exactly when Grammar.Stmt does |
| Parser.Parser.ParseComment | frontend/parser/parser.ts:53-63 | agrees with Grammar.CommentLevel in the same way |
| Parser.Parser.ParseAssignment | frontend/parser/parser.ts:65-83 | agrees with Grammar.Assignment in the same way |
| Parser.Parser.ParseOutput | frontend/parser/parser.ts:85-98 | agrees with Grammar.OutputLevel in the same way |
| Parser.Parser.ParseIf | frontend/parser/parser.ts:100-126 | agrees with Grammar.IfLevel in the same way |
| Parser.Parser.ParseExpr | frontend/parser/parser.ts:128-131 | agrees with Grammar.Expr in the same way |
| Parser.Parser.ParseTernary | frontend/parser/parser.ts:133-150 | agrees with Grammar.Ternary in the same way |
| Parser.Parser.ParseType | frontend/parser/parser.ts:152-165 | agrees with Grammar.TypeLevel in the same way |
| Parser.Parser.ParseComparison | frontend/parser/parser.ts:167-185 | agrees with Grammar.Comparison in the same way |
| Parser.Parser.ParseAddition | frontend/parser/parser.ts:187-205 | agrees with Grammar.Addition in the same way |
| Parser.Parser.ParseMultiplication | frontend/parser/parser.ts:207-225 | agrees with Grammar.Multiplication in the same way |
| Parser.Parser.ParseLiteral | frontend/parser/parser.ts:227-264 | agrees with Grammar.Literal in the same way |
| ParserProps.Print | frontend/parser/ast.ts:36-49 | a printed arithmetic tree starts with a number, an identifier or `(` |
| ParserProps.PrintAt | frontend/parser/ast.ts:36-49 | likewise when the tree is printed at any precedence level, in parentheses where it binds looser |
| ParserProps.LiteralRoundTrip | frontend/parser/parser.ts:227-264 | a number, an identifier or a parenthesised expression is read back by parse_literal as the same tree |
| ParserProps.OperandRoundTrip | frontend/parser/parser.ts:231-240 | a number or identifier is one token, which parse_literal reads back |
| ParserProps.NumberRoundTrip | frontend/parser/parser.ts:236-240 | the numeral of a whole number is read back as that number |
| ParserProps.IdentifierRoundTrip | frontend/parser/parser.ts:231-235 | an Identifier token is read back as an Identifier node |
| ParserProps.MultiplicationRoundTrip | frontend/parser/parser.ts:207-225 | a `*`/`/` chain is read back leaning left, and the loop goes on after it |
| ParserProps.MultiplicationTailStops | frontend/parser/parser.ts:211 | the `*`/`/` loop stops at a token whose text is neither |
| ParserProps.AdditionRoundTrip | frontend/parser/parser.ts:187-205 | a `+`/`-` chain is read back leaning left, with `*`/`/` operands grouped first |
| ParserProps.AdditionTailStops | frontend/parser/parser.ts:191 | the `+`/`-` loop stops at a token whose text is neither |
| ParserProps.ComparisonRoundTrip | frontend/parser/parser.ts:167-185 | a comparison chain is read back leaning left, with arithmetic operands grouped first |
| ParserProps.ComparisonTailStops | frontend/parser/parser.ts:171 | the comparison loop stops at a token that is not a Comparison |
| ParserProps.TypeLevelRoundTrip | frontend/parser/parser.ts:152-165 | a printed tree is read back at the `type` level |
| ParserProps.NotTypeKeyword | frontend/parser/parser.ts:152-165 | a printed tree does not start with `type`, so parse_type goes straight to parse_comparison |
| ParserProps.ExprRoundTrip | frontend/parser/parser.ts:128-150 | every printed arithmetic and comparison tree, followed by a token that ends an expression, parses back to the same tree |
| ParserProps.TernaryStops | frontend/parser/parser.ts:136 | with no `?` after the condition, parse_ternary returns the condition |
| ParserProps.ExprStatement | frontend/parser/parser.ts:48-98 | a printed expression is read back as a statement through every statement level |
| ParserProps.StatementOfExpression | frontend/parser/parser.ts:53-98 | a statement that does not start with a comment, `out` or `if` is parsed by the assignment loop over an expression |
| ParserProps.PrintPairs | frontend/parser/parser.ts:68-80 | a printed chain of assignments starts with its first Equals token |
| ParserProps.PairsStopExpr | frontend/parser/parser.ts:68 | an Equals token ends the expression in front of it |
| ParserProps.AssignTailStops | frontend/parser/parser.ts:68 | the assignment loop stops at a token that is not an Equals token |
| ParserProps.OutputLevelRoundTrip | frontend/parser/parser.ts:85-98 | a printed tree is read back at the `out` level |
| ParserProps.OutputRoundTrip | frontend/parser/parser.ts:85-98 | `out` then a printed tree parses to Output of that tree, and is a whole statement when no Equals token follows |
| ParserProps.TypeOfRoundTrip | frontend/parser/parser.ts:152-165 | `type` then a printed tree parses to TypeOf of that tree |
| ParserProps.CommentStatement | frontend/parser/parser.ts:53-63 | a Comment token is read as a Comment node with its text, and the top-level loop goes on after it (and after a `;`) |
| ParserProps.OperandStatement | frontend/parser/parser.ts:48-98 | an operand that parse_literal reads, followed by a token that ends every level, is a statement by itself |
| ParserProps.StringLiteral | frontend/parser/parser.ts:251-256 | a String token is read as a StringLit without its two quotes, as a literal and as a statement |
| ParserProps.LiteralErrorEndsStatement | frontend/parser/parser.ts:227-264 | an error at the literal level is the error of the whole statement |
| ParserProps.StatementErrorEndsProgram | frontend/parser/parser.ts:38-43 | a statement that fails makes the whole program fail with that error, and no partial program is returned |
| ParserProps.UnknownTokenFails | frontend/parser/parser.ts:257-260 | an Unknown token where a statement starts fails the statement and the program with UnknownToken of its text |
| ParserProps.MissingParenFails | frontend/parser/parser.ts:241-250 | `(` and an expression followed by anything but `)` fails the literal and the program with MissingCloseParen |
| ParserProps.AssignTailChain | frontend/parser/parser.ts:68-80 | the loop over `op e` pairs wraps the node built so far once per pair, in order |
| ParserProps.AssignmentChain | frontend/parser/parser.ts:65-83 | `x = a += b` parses to the left-nested assignment ((x = a) += b) |
| ParserProps.TernaryAnySeparator | frontend/parser/parser.ts:133-150 | `c ? t X f` parses to a ternary whatever token X is, because the source skips it unread |
| ParserProps.TernaryParts | frontend/parser/parser.ts:135-141 | the three type-level reads of `c ? t X f` give c, t and f |
| ParserProps.IfWithoutBlock | frontend/parser/parser.ts:100-126 | without `{` after the condition, `if` drops the condition and returns the next expression |
| ParserProps.StallingStatement | frontend/parser/parser.ts:261-262 | at `;`, `)`, `}`, `:`, `{` or EOF a statement is the `"?"` node of that token and reads nothing |
| ParserProps.StrayTokenNoProgress | frontend/parser/parser.ts:38-43 | a stray `)`, `}`, `:` or `{` at top level makes the loop read nothing, so the source never ends; the model reports NoProgress |
| ParserProps.LoneSemicolon | frontend/parser/parser.ts:38-43 | a `;` at top level becomes a `"?"` statement, and the loop goes on after it |
| ParserProps.BlockStall | frontend/parser/parser.ts:108-111 | inside a block, a `;` (or EOF) before `}` makes the block loop read nothing, so the source never ends; the model reports NoProgress |
| ProgramProps.PrintProgram | frontend/parser/parser.ts:38-43 | a printed program is empty exactly when it has no statements, and starts with its first statement |
| ProgramProps.ProgramStart | frontend/parser/parser.ts:38-43 | a printed program followed by EOF starts with an operand, `(` or EOF |
| ProgramProps.ProgramRoundTrip | frontend/parser/parser.ts:27-46 | a program of expression statements, each with or without `;`, parses back to its statements in order |
| ProgramProps.ProgramHead | frontend/parser/parser.ts:38-43 | the top-level loop reads the first statement and its `;`, then goes on with the rest |
| ProgramProps.StatementThen | frontend/parser/parser.ts:40-42 | one printed statement, with or without `;`, is read and its `;` skipped |
| ProgramProps.BlockRoundTrip | frontend/parser/parser.ts:108-111 | the statements of a block are read back in order up to the `}` |
| ProgramProps.IfBlockRoundTrip | frontend/parser/parser.ts:100-126 | `if c { s1 ... }` parses to an IfStatement with that condition and block, and both braces are read |
| Emitter.StmtBuffer.Add | frontend/emitter.ts:14-18 | a result that does not compare equal to SUCCESS is appended; SUCCESS, and the string "EOL: SUCCESS" the loose `!=` takes for it, are dropped; the buffer keeps holding none of them |
| Emitter.StmtBuffer.Retrieve | frontend/emitter.ts:20-23 | the results added so far, in order, none of them comparing equal to SUCCESS |
| Emitter.StmtBuffer.constructor | frontend/emitter.ts:12 | a new buffer is empty and valid: it holds nothing that compares equal to SUCCESS |
| Emitter.Emitter.EmitStmt | frontend/emitter.ts:36-83 | the result and the new variables are exactly Exec of the statement on the old variables |
| Emitter.Emitter.PushAll | frontend/emitter.ts:157-160 | pushing a buffer's items one by one appends them all, in order |
| Emitter.Emitter.EmitSrc | frontend/emitter.ts:146-170 | the results and the new variables are exactly Run of the source on the old variables |
| Emitter.Emitter.constructor | frontend/emitter.ts:32 | a new emitter has no variables, which is where the persistence EmitterProps.Session states begins |
| Semantics.Eval | frontend/emitter.ts:85-144 | no contract of its own; EmitterProps.ExpressionStatement, TernaryEvaluatesChosenBranch, TypeOfNames and the ValueProps lemmas on its operators state its cases |
| Semantics.TargetKey | frontend/emitter.ts:62 | no contract of its own; EmitterProps.AssignmentStores states that an Identifier target is stored under its name |
| Semantics.Assigned | frontend/emitter.ts:43-60 | no contract of its own; EmitterProps.AssignmentStores and CompoundIsBinary state what an assignment stores |
| Semantics.Lookup | frontend/emitter.ts:94 | `variables.get`, used by identifiers here and by the assignment test at emitter.ts:43; no contract of its own; EmitterProps.ExecWritesOnlyTargets and BodyWritesOnlyTargets state that a key outside the assignment targets looks up the same before and after, and AssignThenOutput that an assigned key looks up its value |
| Semantics.IsSuccess | frontend/emitter.ts:16 | no contract of its own; EmitterProps.SuccessEqualsOnlyItsText states which results compare equal to SUCCESS |
| Semantics.Add | frontend/emitter.ts:14-18 | no contract of its own; EmitterProps.KeptMembers, KeptStep and ExecBodyShape state what it keeps |
| Semantics.Exec | frontend/emitter.ts:36-83 | no contract of its own; EmitterProps.ExecWritesOnlyTargets, ExpressionStatement, OutputAndComment, AssignmentStores, IfFalseSkipsBody, IfTrueBuffersInOrder and BufferIsClean state its cases |
| Semantics.ExecBody | frontend/emitter.ts:74-76 | no contract of its own; EmitterProps.ExecBodyShape, BodyWritesOnlyTargets and BodyOfExpressions state the loop |
| Semantics.IsBuffer | frontend/emitter.ts:25-28 | no contract of its own; EmitterProps.UndefinedResultPlacement and TopLevelBufferFlattened state its two outcomes |
| Semantics.RunBody | frontend/emitter.ts:152-167 | no contract of its own; EmitterProps.RunBodyConcat, RunBodyKeepsOrder, TopLevelBufferFlattened, NestedBufferKept and SuccessTextDropped state the loop |
| Semantics.Run | frontend/emitter.ts:146-170 | no contract of its own; EmitterProps.ParseFailureKeepsVars, Session and the Pipeline lemmas state what a run gives |
| EmitterProps.ExecWritesOnlyTargets | frontend/emitter.ts:36-83 | a statement leaves every variable it does not assign unchanged, set or unset |
| EmitterProps.BodyWritesOnlyTargets | frontend/emitter.ts:74-76 | an if body leaves every variable its statements do not assign unchanged |
| EmitterProps.NoAssignmentNoWrite | frontend/emitter.ts:36-83 | a statement without assignments changes no variable |
| EmitterProps.ExpressionStatement | frontend/emitter.ts:80-81 | an expression statement yields its value and changes nothing |
| EmitterProps.OutputAndComment | frontend/emitter.ts:64-68 | `out` shows its operand's value, a comment yields SUCCESS, and neither writes |
| EmitterProps.AssignmentStores | frontend/emitter.ts:40-63 | an assignment to x yields SUCCESS, adds x to the variables and changes no other; it stores e's value when the operator is `=` or x is unset, undefined or null |
| EmitterProps.CompoundIsBinary | frontend/emitter.ts:43-59 | `x op= e` on a set, non-null x stores what `x op e` evaluates to (under Semantics.Assigned's guarded operators; see "## Left out") |
| EmitterProps.AssignOutputFails | frontend/emitter.ts:42 | `x = out e` stores no value: the model reports StoredNonValue and changes nothing |
| EmitterProps.IfFalseSkipsBody | frontend/emitter.ts:72-79 | a falsy condition yields SUCCESS and changes nothing, whatever the body is |
| EmitterProps.ExecBodyShape | frontend/emitter.ts:74-77 | the body loop keeps what was there in front, adds no SUCCESS, and adds at most one item per statement |
| EmitterProps.BufferIsClean | frontend/emitter.ts:69-79 | only an `if` yields a buffer, and no buffer holds SUCCESS |
| EmitterProps.RawResults | frontend/emitter.ts:74-76 | the i-th item is the value of the i-th expression |
| EmitterProps.Kept | frontend/emitter.ts:14-18 | what `add` keeps of a list: no longer than it, nothing that compares equal to SUCCESS, and the whole list when none of it does |
| EmitterProps.KeptMembers | frontend/emitter.ts:14-18 | a result is kept exactly when it is in the list and does not compare equal to SUCCESS |
| EmitterProps.KeptStep | frontend/emitter.ts:74-76 | adding one result and then keeping the rest keeps the same as keeping the whole list |
| EmitterProps.AllRawKept | frontend/emitter.ts:74-76 | when no value is the text "EOL: SUCCESS", `add` keeps every value |
| EmitterProps.BodyOfExpressions | frontend/emitter.ts:74-76 | the body loop over expressions adds their values in order, except a value that compares equal to SUCCESS, and writes nothing |
| EmitterProps.IfTrueBuffersInOrder | frontend/emitter.ts:69-78 | a truthy `if` over expressions yields a buffer of their values in program order, less any that compares equal to SUCCESS; all of them when none is "EOL: SUCCESS" |
| EmitterProps.SuccessText | frontend/lexer/token_types.ts:52-55 | the SUCCESS token's `toString` text is "EOL: SUCCESS" |
| EmitterProps.SuccessEqualsOnlyItsText | frontend/emitter.ts:16 | the results that compare equal to SUCCESS are SUCCESS itself and the string "EOL: SUCCESS"; an `out` result and a buffer never do |
| EmitterProps.SuccessTextDropped | frontend/emitter.ts:152-167 | the statement `"EOL: SUCCESS"` adds nothing at top level, and inside a truthy `if` it leaves the buffer empty |
| EmitterProps.TernaryEvaluatesChosenBranch | frontend/emitter.ts:139-142 | the ternary's value is the value of the branch its condition selects; the other branch does not matter |
| EmitterProps.TypeOfNames | frontend/emitter.ts:137-138 | `type e` is the `typeof` name of e's value; an unset name is "undefined" and a number is "number" |
| EmitterProps.RunBodyConcat | frontend/emitter.ts:152-167 | running two statement lists in turn is running their concatenation |
| EmitterProps.RunBodyKeepsOrder | frontend/emitter.ts:152-167 | the top-level loop keeps earlier results in front and never adds SUCCESS |
| EmitterProps.TopLevelBufferFlattened | frontend/emitter.ts:155-161 | a top-level buffer adds its items one by one |
| EmitterProps.NestedBufferKept | frontend/emitter.ts:155-161 | a buffer inside a buffer stays one item: flattening goes one level deep |
| EmitterProps.UndefinedResultPlacement | frontend/emitter.ts:155 | a top-level expression worth undefined or null stops the run; inside an `if` it is kept |
| EmitterProps.ParseFailureKeepsVars | frontend/emitter.ts:148-149 | a source that does not parse yields that parse error and leaves the variables alone |
| EmitterProps.AssignThenOutput | frontend/emitter.ts:40-66 | `x = n` yields no result and sets x to n; a following `out x` then shows n |
| EmitterProps.Session | frontend/emitter.ts:146-170 | two runs on one emitter give the results of Run, the second run on the variables the first left |
| Pipeline.NumeralParses | frontend/parser/parser.ts:27-46 | the numeral of n followed by ';' lexes and parses to the one-statement program n |
| Pipeline.NumeralRuns | frontend/emitter.ts:146-170 | that program yields n as its one result and changes no variable |
| Pipeline.OutputProgram | frontend/parser/parser.ts:27-46 | the tokens of `out e;` parse to the one-statement program Output(e) |
| Pipeline.OutputRuns | frontend/emitter.ts:152-167 | that program shows the value of e as its one result and changes no variable |
| Pipeline.ProductFirst | frontend/parser/parser.ts:187-225 | the tokens of `out 2 + 3 * 4;` parse with `*` grouped first and show 14 |
| Pipeline.ParenthesesFirst | frontend/parser/parser.ts:227-250 | the tokens of `out (2 + 3) * 4;` parse with the parenthesised sum grouped first and show 20 |

## Left out

- Characters are Unicode code points. JavaScript strings are UTF-16 code units, so the two differ only outside the Basic Multilingual Plane.
- `Token.toString` (token_types.ts:52-55) is reached by the loose `!=` against SUCCESS in `add` and `emitSrc` (emitter.ts:16, 164), which turns the token into its text "EOL: SUCCESS" when the other side is a string. The model drops that string with SUCCESS (Semantics.IsSuccess); the other calls of `toString` are for debugging.
- The read-eval-print loop and the file runner (`repl.ts`, `compiler.ts`) do console and file I/O. They are not part of this model. Their only use of the core is `Emitter.emitSrc`.
- Grammar.Literal: a Number token whose text `Number()` turns into NaN gives the error MalformedNumber. The source builds a node holding NaN, because NaN is not a value of this model.
- Grammar.Literal: a missing `)` and an Unknown token give the errors MissingCloseParen and UnknownToken. The source prints a message and exits the process (`Deno.exit`).
- Parser.Parser.At: with no tokens left, the source reads a field of `undefined` and throws. The model gives the error TokensExhausted.
- Grammar.ProgramFrom: a top-level statement that reads no token makes the source loop for ever. The model stops with the error NoProgress.
- Grammar.BlockBody: a statement inside a block that reads no token (a `;` or EOF before `}`) makes the source loop for ever. The model stops with the error NoProgress.
- Numbers.NumeralValue: numbers are exact reals, not IEEE-754 doubles, so rounding, infinities, NaN and -0 are not modelled.
- Numbers.NumeralValue: `Number(text)` is modelled for unsigned decimal numerals only. Signs, exponents, hexadecimal and `Infinity` give None, the same as NaN.
- Numbers.NumberText: `String(n)` prints a fraction with at most 16 digits, truncated. JavaScript prints the shortest digits that round-trip, and switches to exponent notation for magnitudes of 1e21 or more and below 1e-6, which the model does not.
- Values.Divide: division by zero gives undefined. JavaScript gives an infinity or NaN, neither of which is a value here.
- Values.ToNumber: `<`, `>` and `==` coerce a string to a number through the same decimal-only NumeralValue.
- ValueProps.LooseEqCoerces: states `n == String(n)` only for whole n ≥ 0. In the model `-5 == "-5"` is false, because NumeralValue reads no sign, and so is `x == String(x)` for any number whose text NumberText truncates. JavaScript gives true for both. ValueProps.SignedNumeralIsNaN states the `-5` case.
- ValueProps.ToNumberCoerces: states ToNumber only for the numerals of whole numbers n ≥ 0. A signed numeral such as "-5" reads as NaN in the model, where JavaScript reads -5.
- ValueProps.NumeralComparesAsNumber: states the numeric comparison only for whole numbers from 0 to below 2^53. In the model `"-5" < 3` is false, because "-5" reads as NaN, where JavaScript gives true.
- Semantics.Assigned: a compound assignment on a set, non-null value applies the same type-guarded `+ - * /` as a BinaryExpression. The source applies JavaScript's own coercing operators, so `"a" - 1` gives NaN there and undefined here.
- Semantics.Exec: when the right-hand side of an assignment to a string key is an `out` or an `if`, the model gives the error StoredNonValue. The source stores that statement's internal result object.
- Semantics.TargetKey: only targets whose `value` is a string are stored. The source also stores under a number, under `undefined` or under a node object, and no Identifier can read those keys back.
- Semantics.RunBody: a top-level `undefined` or `null` result gives the error UndefinedResult. In the source, `isBuffer` reads a field of it and throws a TypeError.
