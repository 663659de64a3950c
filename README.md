# The Lox scanner, modelled and verified in Dafny

This project models the scanner of a Java implementation of the Lox language: the
`Scanner` class, which turns a source string into a list of tokens. Each token has
a type, a lexeme, an optional literal value and a line number. Problems are reported
to the diagnostic sink `Lox.error(line, message)`.

The model has three layers:

- `LoxTokens` (tokens.dfy) holds the vocabulary:
  - the 39 token types;
  - the token record;
  - the literal values (none, a string, or a number carried by its digits);
  - the two diagnostic messages;
  - the reserved-word table.
- `LoxLexing` (lexing.dfy) states the scanner's rules as pure functions:
  - `Step` is what scanning one lexeme from an offset does: where the cursor stops,
    the line it ends on, the token it adds, the diagnostic it reports, and whether
    it reads past the end of the source.
  - `Step` dispatches on the first character's `Lead`, which groups the characters
    exactly as the `switch` of `scanToken` does. Each group has its own
    sub-function: `OneOrTwo`, `SlashStep`, `BlockCommentStep`, `StringStep`,
    `NumberStep` and `IdentifierStep`.
  - `LexFrom` and `Lex` are the whole pass.
- `LoxScanner` (scanner.dfy) is the class itself:
  - Its fields are `source`, `tokens`, `start`, `current` and `line`.
  - The added field `errors` collects the `(line, message)` pairs that go to
    `Lox.error`.
  - It has one method per private method of the Java class that reads or changes
    the scanner's state. The character tests `isAlpha`, `isDigit` and
    `isAlphaNumeric` read no state and are the predicates `IsAlpha`, `IsDigit` and
    `IsAlphaNumeric` of `LoxLexing`.
  - Each lexeme method is proved to change the cursor, the line, the tokens and the
    reports exactly as the corresponding `LoxLexing` function says, including on a
    read past the end. There the model leaves the cursor at the end of the source,
    one short of where Java's `charAt(current++)` leaves it (see "Left out").
  - `ScanTokens` is proved to append `TokensOf(LexFrom(...))`, the tokens of the
    pass from the cursor, whose last lexeme is the EOF lexeme when the pass does not
    read past the end. It is also proved to leave the cursor at the end and, after
    a completed pass, the line at the EOF token's line.
  - `ScanSource` is a fresh scanner followed by `scanTokens`. It is proved to
    produce `Lex(source)`.
  - The model has three methods the Java class does not name separately. `ScanSlash`
    is the `/` case of the switch. `AdvanceDigits` is the digit loop that
    `number()` runs twice. `AdvanceInString` is the loop of `string()`.

`LoxScanProperties` (properties.dfy) proves what the scanner guarantees. It
compares against independent descriptions of the lexical grammar: a punctuator
table read by lexeme text, a number-literal predicate, an identifier-shape
predicate, and the set of characters the switch knows.

- Per lexeme, it proves maximal munch for punctuators, numbers and identifiers. It
  also proves the comment and string rules, the reports, and the line bookkeeping.
- For the whole pass, it proves that:
  - the lexemes tile the source in order;
  - lines never go back;
  - the literals agree with the token types;
  - EOF is last and only there;
  - the EOF line is at most the start line plus the number of line feeds, and
    exactly that when no block comment opener is directly followed by a line feed;
  - reports are well formed.

`LoxScanExamples` (examples.dfy) works through concrete sources.

The scanner's behaviour is reproduced as the code has it, including three places
where it departs from a plain description of Lox scanning:

- **An unterminated string or block comment throws.** Lox scanning is usually
  described as reporting the problem and then finishing with EOF. The code does not
  do that.
  - In `string()`, after reporting "Unterminated string", it calls `advance()` at
    the end of the source.
  - In `multiComments()`, with no closer, the first of its two closing
    `advance()` calls is made at the end of the source.
  - In both cases `charAt` throws. No token list is returned, so there is no EOF
    token.
  - The model follows the code. `Effect.overrun` and `Run.overrun` record this
    ending, and `ScanTokens` returns `StringIndexOutOfBounds(|source|)`. The report
    of an unterminated string is still delivered first.
- **A line feed right after a block comment opener is not counted.** The loop in
  `multiComments()` advances first and then looks at the next character. So a line
  feed that is the very first character of the comment body never adds to `line`
  (`CommentNewlines`, `CommentLineQuirk`).
- **A string token is on the line of its closing quote.** The "Unterminated string"
  report is on the line reached at the end of the source.

A number token carries its lexeme's text (`NumberValue(digits)`), not the `double`
that `Double.parseDouble` makes of it.

## Model

| member | source | states |
|---|---|---|
| LoxScanProperties.KeywordsAreWords | java/com/craftinginterpreters/lox/Scanner.java:20-39 | every reserved word is identifier-shaped, so only `identifier()` can produce it |
| LoxScanProperties.KeywordsAreReserved | java/com/craftinginterpreters/lox/Scanner.java:20-39 | every word in the table maps to a reserved-word type, and the independent type-to-word table `ReservedWord` maps that type back to the same word |
| LoxScanProperties.ReservedTypesHaveWords | java/com/craftinginterpreters/lox/Scanner.java:20-39 | a token type is a reserved-word type exactly when it has a reserved word |
| LoxScanProperties.ReservedWordsInTable | java/com/craftinginterpreters/lox/Scanner.java:20-39 | every reserved-word type's word is in the table and maps back to it, so the table is a bijection onto the reserved-word types |
| LoxScanner.Scanner.constructor | java/com/craftinginterpreters/lox/Scanner.java:11-18 | a fresh scanner holds the source, no tokens and no reports, has `start` and `current` at 0 and `line` at 1, and is valid |
| LoxScanner.Scanner.IsAtEnd | java/com/craftinginterpreters/lox/Scanner.java:218-220 | defined as `current >= |source|`, as at those lines (a definition with no separate contract) |
| LoxScanner.Scanner.Peek | java/com/craftinginterpreters/lox/Scanner.java:192-196 | defined as the character at the cursor, or NUL at the end (a definition with no separate contract) |
| LoxScanner.Scanner.PeekNext | java/com/craftinginterpreters/lox/Scanner.java:198-202 | defined as the character after the cursor, or NUL when there is none (a definition with no separate contract) |
| LoxScanner.Scanner.Advance | java/com/craftinginterpreters/lox/Scanner.java:222-224 | returns the character at the cursor and moves the cursor one place on; defined only before the end (past it Java throws, and the callers model that) |
| LoxScanner.Scanner.Match | java/com/craftinginterpreters/lox/Scanner.java:184-190 | consumes one character exactly when it is the expected one, and reports whether it did |
| LoxScanner.Scanner.AddToken | java/com/craftinginterpreters/lox/Scanner.java:226-233 | appends one token, cut from `source[start..current]`, on the current line, with the given literal |
| LoxScanner.Scanner.Error | java/com/craftinginterpreters/lox/Scanner.java:120 | appends one `(line, message)` report to the diagnostic sink |
| LoxScanner.Scanner.SkipBlockComment | java/com/craftinginterpreters/lox/Scanner.java:126-135 | stops after the first comment closer, or reads past the end when there is none. The line grows by the line feeds of the body except one directly after the opener. Stated as `BlockCommentStep` |
| LoxScanner.Scanner.ScanString | java/com/craftinginterpreters/lox/Scanner.java:163-181 | runs to the next quote, counting every line feed. Terminated, it adds the String token whose literal is the text between the quotes. Unterminated, it reports "Unterminated string" at the line reached and then reads past the end. Stated as `StringStep` |
| LoxScanner.Scanner.AdvanceInString | java/com/craftinginterpreters/lox/Scanner.java:165-168 | moves the cursor to the next quote or the end of the source, `RunEnd(source, old(current), NonQuote)`, and adds to the line the number of line feeds passed |
| LoxScanner.Scanner.AdvanceDigits | java/com/craftinginterpreters/lox/Scanner.java:149 | moves the cursor to the end of the run of digits, `RunEnd(source, old(current), Digits)` |
| LoxScanner.Scanner.ScanNumber | java/com/craftinginterpreters/lox/Scanner.java:148-161 | adds the Number token for the digits, plus `.` and more digits when a digit follows the `.`; its literal is the lexeme's text (`NumberStep`) |
| LoxScanner.Scanner.ScanIdentifier | java/com/craftinginterpreters/lox/Scanner.java:137-146 | adds the token for the maximal letter/digit/underscore run, typed by the reserved-word table or Identifier (`IdentifierStep`) |
| LoxScanner.Scanner.ScanSlash | java/com/craftinginterpreters/lox/Scanner.java:86-95 | `//` skips to the line feed, the block-comment opener skips the comment, otherwise adds Slash (`SlashStep`) |
| LoxScanner.Scanner.ScanToken | java/com/craftinginterpreters/lox/Scanner.java:57-124 | one lexeme changes cursor, line, tokens and reports exactly as `Step` says; the cursor always moves forward and the line never goes back |
| LoxScanner.Scanner.ScanTokens | java/com/craftinginterpreters/lox/Scanner.java:45-55 | appends the tokens of `LexFrom` from the cursor and line, whose last is the EOF token, and appends its reports. Either way the cursor ends at the end of the source. A completed pass leaves the line at the EOF token's line. A pass that reads past the end returns the exception result and adds no EOF |
| LoxScanner.ScanTwice | java/com/craftinginterpreters/lox/Scanner.java:45-55 | calling `scanTokens` again after a completed pass appends only another EOF token, on the same line |
| LoxScanner.ScanSource | java/com/craftinginterpreters/lox/Scanner.java:41-55 | a fresh scanner's `scanTokens` yields exactly the tokens and reports of `Lex(source)`, or the exception at index `|source|` exactly when `Lex` reads past the end |
| LoxLexing.IsDigit | java/com/craftinginterpreters/lox/Scanner.java:214-216 | the ASCII digits `0` to `9` |
| LoxLexing.IsAlpha | java/com/craftinginterpreters/lox/Scanner.java:204-208 | ASCII letters and the underscore |
| LoxLexing.IsAlphaNumeric | java/com/craftinginterpreters/lox/Scanner.java:210-212 | a letter, an underscore or a digit |
| LoxLexing.LeadOf | java/com/craftinginterpreters/lox/Scanner.java:60-123 | the grouping of the switch: one-character punctuation, the four `=`-operators, slash, blanks, line feed, quote, then in `default:` digit before letter, else unexpected |
| LoxLexing.Step | java/com/craftinginterpreters/lox/Scanner.java:57-124 | the effect of one `scanToken` call, chosen by `LeadOf` of the first character |
| LoxLexing.OneOrTwo | java/com/craftinginterpreters/lox/Scanner.java:74-85 | the two-character operator when `=` follows, else the one-character one |
| LoxLexing.SlashStep | java/com/craftinginterpreters/lox/Scanner.java:86-95 | a line comment up to the line feed, a block comment, or the Slash token, in that order of tests |
| LoxLexing.BlockCommentStep | java/com/craftinginterpreters/lox/Scanner.java:126-135 | skips to just after the first comment closer, counting the body's line feeds except a first one, or reads past the end |
| LoxLexing.StringStep | java/com/craftinginterpreters/lox/Scanner.java:163-181 | the String token up to the next quote, on the line reached, or the "Unterminated string" report and a read past the end |
| LoxLexing.NumberStep | java/com/craftinginterpreters/lox/Scanner.java:148-161 | the Number token over the digits, plus `.` and digits when a digit follows the `.` |
| LoxLexing.IdentifierStep | java/com/craftinginterpreters/lox/Scanner.java:137-146 | the token over the maximal letter/digit/underscore run, typed by the reserved-word table or Identifier |
| LoxLexing.LexFrom | java/com/craftinginterpreters/lox/Scanner.java:45-55 | the `scanTokens` loop from a cursor and line: each step's token and report, until the end (then EOF) or a read past the end |
| LoxLexing.Lex | java/com/craftinginterpreters/lox/Scanner.java:41-55 | the pass of a fresh scanner, from offset 0 on line 1 |
| LoxLexing.RunEnd | java/com/craftinginterpreters/lox/Scanner.java:89 | the loops `while (class(peek())) advance()` stop at the end or at the first character outside the class |
| LoxLexing.RunEndSpansClass | java/com/craftinginterpreters/lox/Scanner.java:138 | every character such a loop passes over is in the class, so the run is maximal |
| LoxLexing.RunEndUnique | java/com/craftinginterpreters/lox/Scanner.java:156 | the stopping point of such a loop is determined by those two properties |
| LoxLexing.CommentClose | java/com/craftinginterpreters/lox/Scanner.java:127 | the block-comment loop stops at a comment closer or at the end |
| LoxLexing.CommentCloseIsFirst | java/com/craftinginterpreters/lox/Scanner.java:127 | no closer starts before the one it stops at |
| LoxLexing.NewlinesSplit | java/com/craftinginterpreters/lox/Scanner.java:105 | the line feeds counted over adjacent ranges add up |
| LoxLexing.StepIsShaped | java/com/craftinginterpreters/lox/Scanner.java:57-124 | every lexeme step moves the cursor forward unless it overruns, never moves the line back, and adds at most one token: the text consumed, on the step's final line, never EOF, with the literal its type carries |
| LoxScanProperties.Dispatch | java/com/craftinginterpreters/lox/Scanner.java:86-122 | a digit starts a number (checked before letters), a letter or underscore an identifier, a quote a string, and a slash a comment or Slash |
| LoxScanProperties.LayoutAndStrays | java/com/craftinginterpreters/lox/Scanner.java:97-106 | space, CR and tab are skipped, a line feed is skipped and counted, and any character the switch does not know is reported as "Unexpected character" and skipped, and scanning goes on |
| LoxScanProperties.PunctuatorMaximalMunch | java/com/craftinginterpreters/lox/Scanner.java:61-85 | a punctuator or operator is the longest lexeme in the independent punctuator table at that offset, typed by that table, with no literal |
| LoxScanProperties.LoneSlash | java/com/craftinginterpreters/lox/Scanner.java:92-94 | a `/` followed by neither `/` nor `*` is the Slash token |
| LoxScanProperties.LineComment | java/com/craftinginterpreters/lox/Scanner.java:87-89 | `//` consumes everything up to the next line feed or the end, which it leaves unread, and adds nothing |
| LoxScanProperties.BlockComment | java/com/craftinginterpreters/lox/Scanner.java:90-91 | a block comment reads past the end exactly when no closer follows. Otherwise it ends after the first closer (comments do not nest). It adds nothing, and the line grows by the body's line feeds except one directly after the opener |
| LoxScanProperties.NumberMaximalMunch | java/com/craftinginterpreters/lox/Scanner.java:148-161 | the Number lexeme is a number literal (digits, optionally `.` and digits), no longer prefix is one, and its literal is its text |
| LoxScanProperties.IdentifierMaximalMunch | java/com/craftinginterpreters/lox/Scanner.java:137-146 | the lexeme is identifier-shaped and maximal; its type is the reserved word's when it is one, else Identifier |
| LoxScanProperties.StringLiteral | java/com/craftinginterpreters/lox/Scanner.java:163-181 | a terminated string keeps both quotes in its lexeme, has the text between them as literal, and is on the closing quote's line; an unterminated one reports at the end line and reads past the end |
| LoxScanProperties.StepReports | java/com/craftinginterpreters/lox/Scanner.java:57-181 | a step reports exactly for an unexpected character or an unterminated string, with the matching message |
| LoxScanProperties.StepLineCount | java/com/craftinginterpreters/lox/Scanner.java:57-181 | a step's line grows by the line feeds it consumes, less one when it is a block comment whose body starts with a line feed |
| LoxScanProperties.WordScansAlone | java/com/craftinginterpreters/lox/Scanner.java:137-146 | a source that is one identifier-shaped word scans to that word's token, then EOF |
| LoxScanProperties.KeywordScansAlone | java/com/craftinginterpreters/lox/Scanner.java:20-39 | each reserved word alone scans to its own reserved-word token, then EOF, without reports |
| LoxScanProperties.PassEndsWithEof | java/com/craftinginterpreters/lox/Scanner.java:45-55 | a pass that does not read past the end ends with one EOF token (empty lexeme, at the end of the source), no other token is EOF, and a pass that reads past the end has none |
| LoxScanProperties.PassTilesSource | java/com/craftinginterpreters/lox/Scanner.java:45-55 | each lexeme is the source slice it was cut from, at or after the start offset, the lexemes come in order without overlap, and every one but EOF is nonempty |
| LoxScanProperties.PassLinesNondecreasing | java/com/craftinginterpreters/lox/Scanner.java:45-55 | token lines and report lines start at the start line and never decrease |
| LoxScanProperties.PassLiterals | java/com/craftinginterpreters/lox/Scanner.java:160-181 | only String and Number tokens carry a literal: the text between the quotes and the lexeme's text; every other token, EOF included, carries none |
| LoxScanProperties.PassEofLine | java/com/craftinginterpreters/lox/Scanner.java:45-55 | EOF's line is at most the start line plus the source's line feeds, and exactly that when no block comment opener is directly followed by a line feed |
| LoxScanProperties.PassReports | java/com/craftinginterpreters/lox/Scanner.java:171-176 | every report is one of the two messages; "Unterminated string" can only be the last report, of a pass that reads past the end |
| LoxScanExamples.EmptySource | java/com/craftinginterpreters/lox/Scanner.java:45-55 | the empty source scans to EOF on line 1 |
| LoxScanExamples.Sum | java/com/craftinginterpreters/lox/Scanner.java:148-161 | `1+2` scans to Number, Plus, Number, EOF |
| LoxScanExamples.CommentLineQuirk | java/com/craftinginterpreters/lox/Scanner.java:126-135 | in a two-line block comment whose body starts with a line feed, the following `x` and EOF are on line 1 |
| LoxScanExamples.LineCommentThenLineFeed | java/com/craftinginterpreters/lox/Scanner.java:86-106 | `//c` followed by a line feed leaves EOF on line 2 |
| LoxScanExamples.CommentsDoNotNest | java/com/craftinginterpreters/lox/Scanner.java:126-135 | in a block comment containing another opener, the first closer ends the comment and the second closer scans as Star and Slash |
| LoxScanExamples.MultiLineString | java/com/craftinginterpreters/lox/Scanner.java:163-181 | a string across a line feed keeps it in its literal and is on line 2 |
| LoxScanExamples.UnterminatedStringOverruns | java/com/craftinginterpreters/lox/Scanner.java:171-176 | an unterminated string reports on line 1, then reads past the end with no tokens |
| LoxScanExamples.UnterminatedCommentOverruns | java/com/craftinginterpreters/lox/Scanner.java:126-135 | an unterminated block comment reads past the end without a report |
| LoxScanExamples.StrayCharacter | java/com/craftinginterpreters/lox/Scanner.java:119-121 | `@1` reports "Unexpected character" and still scans the number |
| LoxScanExamples.GreedyOperators | java/com/craftinginterpreters/lox/Scanner.java:74-79 | `!==` scans as BangEqual then Equal |
| LoxScanExamples.TrailingDot | java/com/craftinginterpreters/lox/Scanner.java:152 | in `1.` the dot, with no digit after it, is a Dot token after the Number |

## Left out

- `Double.parseDouble` is not modelled. A Number token's literal is its lexeme text, which is exactly the text the conversion reads. Floating-point values are outside the model.
- `Lox.error` only records its `(line, message)` pair in `errors`. Printing to standard error and setting the interpreter's error flag are I/O outside the scanner.
- `StringIndexOutOfBoundsException` is not a Java exception in the model. `ScanTokens` returns `StringIndexOutOfBounds(|source|)` instead. The tokens and reports added before the throw stay in the scanner's fields, as they do in the Java object.
- Java strings are sequences of UTF-16 code units, and `charAt` reads one unit; the model's source is a sequence of Dafny `char` values, which are Unicode scalar values. A character outside the Basic Multilingual Plane is two code units in Java, each of which reaches `default:` and is reported as "Unexpected character", so Java reports twice where the model reports once; a lone surrogate code unit cannot be represented in the model at all. For sources within the Basic Multilingual Plane the two agree.
- After a read past the end, Java's `charAt(current++)` has already incremented `current`, so the Java object is left with `current == |source| + 1`; the model leaves the cursor at `|source|` (and keeps `Valid()`), with the line, tokens and reports as Java leaves them.
- `scanTokens` returns the scanner's own `tokens` list (Scanner.java:54), so a list returned earlier is the same object and grows when `scanTokens` is called again. The model returns the list as a value: in `ScanTwice` the first result is a snapshot taken before the second call, where Java's first list would end in two EOF tokens too.
- `java.util.HashMap` mechanics (hashing, `null` for a missing key) are modelled as a map lookup with the missing case spelled out.
- `Token.toString`, the token classes outside the scanner, `Lox.java` and the AST generator `GenerateAST.java` are not part of this model.
- The 32-bit `int` of `current` and `line` is unbounded here. A source long enough to overflow them (over 2^31 characters or lines) does not fit in a Java string anyway.
