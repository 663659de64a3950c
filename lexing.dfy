/** The scanner's rules as pure functions over the source text: what scanning one
    lexeme starting at an offset does (Step), and what the whole pass produces
    (LexFrom, Lex). The class in LoxScanner is proved to behave exactly so. */
module LoxLexing {
  import opened Wrappers
  import opened LoxTokens

  // ---------------------------------------------------------------------------
  // Character classes

  predicate IsDigit(c: char) { '0' <= c <= '9' }

  predicate IsAlpha(c: char) { ('a' <= c <= 'z') || ('A' <= c <= 'Z') || c == '_' }

  predicate IsAlphaNumeric(c: char) { IsAlpha(c) || IsDigit(c) }

  /** What `peek` and `peekNext` read: the character at `i`, or NUL past the end. */
  function CharAt(src: string, i: nat): char {
    if i < |src| then src[i] else '\0'
  }

  /** What `match(expected)` tests at offset `i`. */
  predicate Matches(src: string, i: nat, expected: char) {
    i < |src| && src[i] == expected
  }

  /** Number of line feeds in `src[i..j]`. */
  function NewlinesBetween(src: string, i: nat, j: nat): nat
    requires i <= j <= |src|
    decreases j - i
  {
    if i == j then 0 else NewlinesBetween(src, i, j - 1) + (if src[j - 1] == '\n' then 1 else 0)
  }

  /** Counting over adjacent ranges adds up. */
  lemma {:induction false} NewlinesSplit(src: string, i: nat, j: nat, k: nat)
    requires i <= j <= k <= |src|
    ensures NewlinesBetween(src, i, k) == NewlinesBetween(src, i, j) + NewlinesBetween(src, j, k)
    decreases k - j
  {
    if j < k {
      NewlinesSplit(src, i, j, k - 1);
    }
  }

  /** A range holding no line feed counts none. */
  lemma {:induction false} NoNewlines(src: string, i: nat, j: nat)
    requires i <= j <= |src|
    requires forall k :: i <= k < j ==> src[k] != '\n'
    ensures NewlinesBetween(src, i, j) == 0
    decreases j - i
  {
    if i < j {
      NoNewlines(src, i, j - 1);
    }
  }

  // ---------------------------------------------------------------------------
  // Scanning loops, stated by what they stop at

  /** The character classes the scanning loops run over. */
  datatype CharClass = Digits | Word | NonNewline | NonQuote

  predicate InClass(cls: CharClass, c: char) {
    match cls
    case Digits => IsDigit(c)
    case Word => IsAlphaNumeric(c)
    case NonNewline => c != '\n'
    case NonQuote => c != '"'
  }

  /** End of the maximal run of `cls` characters starting at `i`: the first offset
      at or after `i` whose character is outside the class, or the end of the source. */
  function RunEnd(src: string, i: nat, cls: CharClass): (j: nat)
    requires i <= |src|
    ensures i <= j <= |src|
    ensures j == |src| || !InClass(cls, src[j])
    decreases |src| - i
  {
    if i < |src| && InClass(cls, src[i]) then RunEnd(src, i + 1, cls) else i
  }

  /** Everything RunEnd passes over is in the class, so the run is maximal. */
  lemma {:induction false} RunEndSpansClass(src: string, i: nat, cls: CharClass)
    requires i <= |src|
    ensures forall k :: i <= k < RunEnd(src, i, cls) ==> InClass(cls, src[k])
    decreases |src| - i
  {
    if i < |src| && InClass(cls, src[i]) {
      RunEndSpansClass(src, i + 1, cls);
    }
  }

  /** A run end is determined by its two defining properties. */
  lemma {:induction false} RunEndUnique(src: string, i: nat, j: nat, cls: CharClass)
    requires i <= j <= |src|
    requires forall k :: i <= k < j ==> InClass(cls, src[k])
    requires j == |src| || !InClass(cls, src[j])
    ensures RunEnd(src, i, cls) == j
    decreases j - i
  {
    if i < j {
      RunEndUnique(src, i + 1, j, cls);
    }
  }

  /** A comment closer (star, slash) starts at offset `k`. */
  predicate ClosesComment(src: string, k: nat) {
    k + 1 < |src| && src[k] == '*' && src[k + 1] == '/'
  }

  /** Where a block comment whose body starts at `i` stops: the first comment
      closer at or after `i`, or the end of the source. */
  function CommentClose(src: string, i: nat): (k: nat)
    requires i <= |src|
    ensures i <= k <= |src|
    ensures k == |src| || ClosesComment(src, k)
    decreases |src| - i
  {
    if i == |src| || ClosesComment(src, i) then i else CommentClose(src, i + 1)
  }

  /** No comment closer starts before the one CommentClose stops at. */
  lemma {:induction false} CommentCloseIsFirst(src: string, i: nat)
    requires i <= |src|
    ensures forall j :: i <= j < CommentClose(src, i) ==> !ClosesComment(src, j)
    decreases |src| - i
  {
    if !(i == |src| || ClosesComment(src, i)) {
      CommentCloseIsFirst(src, i + 1);
    }
  }

  /** The line feeds a block comment body `src[body..k]` adds to the line count:
      a line feed is counted when it is peeked after a consumed character, so one
      that is the very first character of the body is not counted. */
  function CommentNewlines(src: string, body: nat, k: nat): nat
    requires body <= k <= |src|
  {
    if body < k then NewlinesBetween(src, body + 1, k) else 0
  }

  /** End of a number literal whose digits start at `i`: a digit run, extended by a
      `.` and a second digit run only when a digit follows the `.`. */
  function NumberEnd(src: string, i: nat): nat
    requires i <= |src|
  {
    var d := RunEnd(src, i, Digits);
    if CharAt(src, d) == '.' && IsDigit(CharAt(src, d + 1)) then RunEnd(src, d + 1, Digits) else d
  }

  // ---------------------------------------------------------------------------
  // One lexeme

  /** A token together with the source offsets [from, to) it was cut from. */
  datatype Lexeme = Lexeme(token: Token, from: nat, to: nat)

  /** What scanning one lexeme does: where the cursor ends, the line it ends on, the
      token it adds, the diagnostic it reports, and whether it ends by reading past
      the end of the source (Java's `charAt` throwing). */
  datatype Effect = Effect(next: nat, line: int, emitted: Option<Lexeme>, reported: Option<Report>, overrun: bool) {

    /** The tokens this step appends to the token list. */
    function Added(): seq<Token> {
      if emitted.Some? then [emitted.value.token] else []
    }
  }

  /** The literal a token of this type carries, in terms of its lexeme. */
  predicate LiteralAgrees(t: Token) {
    match t.tokenType
    case String =>
      && 2 <= |t.lexeme| && t.lexeme[0] == '"' && t.lexeme[|t.lexeme| - 1] == '"'
      && t.literal == StringValue(t.lexeme[1..|t.lexeme| - 1])
    case Number => t.literal == NumberValue(t.lexeme)
    case _ => t.literal == NoLiteral
  }

  /** What every lexeme step guarantees. */
  predicate StepShape(src: string, pos: nat, line: int, e: Effect) {
    && (!e.overrun ==> pos < e.next <= |src|)
    && line <= e.line
    && (e.emitted.Some? ==>
          var lx := e.emitted.value;
          && !e.overrun
          && lx.from == pos && lx.to == e.next && e.next <= |src|
          && lx.token.lexeme == src[pos..e.next]
          && lx.token.line == e.line
          && lx.token.tokenType != Eof
          && LiteralAgrees(lx.token))
    && (e.reported.Some? ==> e.reported.value.line == e.line)
  }

  /** Adding the token cut from `src[from..to]`. */
  function Emit(src: string, from: nat, to: nat, kind: TokenType, literal: Literal, line: int): Effect
    requires from <= to <= |src|
  {
    Effect(to, line, Some(Lexeme(Token(kind, src[from..to], literal, line), from, to)), None, false)
  }

  /** Consuming input without adding a token. */
  function Skip(next: nat, line: int): Effect {
    Effect(next, line, None, None, false)
  }

  /** `!`, `=`, `>`, `<`: the two-character form when `=` follows. */
  function OneOrTwo(src: string, pos: nat, line: int, two: TokenType, one: TokenType): Effect
    requires pos < |src|
  {
    if Matches(src, pos + 1, '=') then Emit(src, pos, pos + 2, two, NoLiteral, line)
    else Emit(src, pos, pos + 1, one, NoLiteral, line)
  }

  /** A block comment whose body starts at `body`, just after its opener. */
  function BlockCommentStep(src: string, body: nat, line: int): Effect
    requires body <= |src|
  {
    var k := CommentClose(src, body);
    var l := line + CommentNewlines(src, body, k);
    if k == |src| then Effect(k, l, None, None, true) else Skip(k + 2, l)
  }

  /** A `/` at `pos`: a line comment, a block comment, or the Slash token. */
  function SlashStep(src: string, pos: nat, line: int): Effect
    requires pos < |src|
  {
    if Matches(src, pos + 1, '/') then Skip(RunEnd(src, pos + 2, NonNewline), line)
    else if Matches(src, pos + 1, '*') then BlockCommentStep(src, pos + 2, line)
    else Emit(src, pos, pos + 1, Slash, NoLiteral, line)
  }

  /** A string literal whose opening quote is at `pos`. */
  function StringStep(src: string, pos: nat, line: int): Effect
    requires pos < |src|
  {
    var k := RunEnd(src, pos + 1, NonQuote);
    var l := line + NewlinesBetween(src, pos + 1, k);
    if k == |src| then Effect(k, l, None, Some(Report(l, UnterminatedString)), true)
    else Emit(src, pos, k + 1, String, StringValue(src[pos + 1..k]), l)
  }

  /** A number literal whose first digit is at `pos`. */
  function NumberStep(src: string, pos: nat, line: int): Effect
    requires pos < |src|
  {
    var e := NumberEnd(src, pos + 1);
    Emit(src, pos, e, Number, NumberValue(src[pos..e]), line)
  }

  /** The type of an identifier-shaped lexeme: its reserved word's, or Identifier. */
  function WordType(w: string): TokenType {
    if w in Keywords then Keywords[w] else Identifier
  }

  /** An identifier or reserved word whose first letter is at `pos`. */
  function IdentifierStep(src: string, pos: nat, line: int): Effect
    requires pos < |src|
  {
    var e := RunEnd(src, pos + 1, Word);
    Emit(src, pos, e, WordType(src[pos..e]), NoLiteral, line)
  }

  /** What the first character of a lexeme selects in the scanner's switch. */
  datatype Lead =
    | Single(kind: TokenType)                // one-character punctuation
    | Operator(two: TokenType, one: TokenType) // `!`, `=`, `>`, `<`, maybe followed by `=`
    | SlashLead                              // `/`: a comment or the Slash token
    | Blank                                  // space, carriage return, tab
    | LineBreak                              // line feed
    | Quote                                  // opening quote of a string literal
    | DigitLead                              // first digit of a number literal
    | LetterLead                             // first letter of an identifier or reserved word
    | Stray                                  // anything else: an unexpected character

  function LeadOf(c: char): Lead {
    match c
    case '(' => Single(LeftParen)
    case ')' => Single(RightParen)
    case '{' => Single(LeftBrace)
    case '}' => Single(RightBrace)
    case ',' => Single(Comma)
    case '.' => Single(Dot)
    case '-' => Single(Minus)
    case '+' => Single(Plus)
    case ';' => Single(Semicolon)
    case '*' => Single(Star)
    case '!' => Operator(BangEqual, Bang)
    case '=' => Operator(EqualEqual, Equal)
    case '>' => Operator(GreaterEqual, Greater)
    case '<' => Operator(LessEqual, Less)
    case '/' => SlashLead
    case ' ' | '\r' | '\t' => Blank
    case '\n' => LineBreak
    case '"' => Quote
    case _ => if IsDigit(c) then DigitLead else if IsAlpha(c) then LetterLead else Stray
  }

  /** Scanning the lexeme that starts at `pos`, dispatching on its first character. */
  function Step(src: string, pos: nat, line: int): Effect
    requires pos < |src|
  {
    match LeadOf(src[pos])
    case Single(kind) => Emit(src, pos, pos + 1, kind, NoLiteral, line)
    case Operator(two, one) => OneOrTwo(src, pos, line, two, one)
    case SlashLead => SlashStep(src, pos, line)
    case Blank => Skip(pos + 1, line)
    case LineBreak => Skip(pos + 1, line + 1)
    case Quote => StringStep(src, pos, line)
    case DigitLead => NumberStep(src, pos, line)
    case LetterLead => IdentifierStep(src, pos, line)
    case Stray => Effect(pos + 1, line, None, Some(Report(line, UnexpectedCharacter)), false)
  }

  lemma StringStepShaped(src: string, pos: nat, line: int)
    requires pos < |src| && src[pos] == '"'
    ensures StepShape(src, pos, line, StringStep(src, pos, line))
  {
    var k := RunEnd(src, pos + 1, NonQuote);
    if k < |src| {
      var lexeme := src[pos..k + 1];
      assert lexeme[1..|lexeme| - 1] == src[pos + 1..k];
    }
  }

  lemma SlashStepShaped(src: string, pos: nat, line: int)
    requires pos < |src|
    ensures StepShape(src, pos, line, SlashStep(src, pos, line))
  {
    if !Matches(src, pos + 1, '/') && Matches(src, pos + 1, '*') {
      var k := CommentClose(src, pos + 2);
    }
  }

  lemma NumberStepShaped(src: string, pos: nat, line: int)
    requires pos < |src|
    ensures StepShape(src, pos, line, NumberStep(src, pos, line))
  {
  }

  lemma IdentifierStepShaped(src: string, pos: nat, line: int)
    requires pos < |src|
    ensures StepShape(src, pos, line, IdentifierStep(src, pos, line))
  {
    var e := RunEnd(src, pos + 1, Word);
    var w := src[pos..e];
    assert WordType(w) != Eof && WordType(w) != String && WordType(w) != Number;
  }

  /** Every lexeme step moves the cursor forward (unless it overruns), never moves
      the line back, and emits at most one token: the one cut from the consumed
      text, on the step's final line, never EOF, with the literal its type carries. */
  lemma StepIsShaped(src: string, pos: nat, line: int)
    requires pos < |src|
    ensures StepShape(src, pos, line, Step(src, pos, line))
  {
    match LeadOf(src[pos])
    case Quote => StringStepShaped(src, pos, line);
    case SlashLead => SlashStepShaped(src, pos, line);
    case DigitLead => NumberStepShaped(src, pos, line);
    case LetterLead => IdentifierStepShaped(src, pos, line);
    case _ =>
  }

  // ---------------------------------------------------------------------------
  // The whole pass

  /** Everything one pass produces: the lexemes added to the token list, the
      diagnostics reported, and whether the pass ended by reading past the end. */
  datatype Run = Run(lexemes: seq<Lexeme>, reports: seq<Report>, overrun: bool)

  function EofLexeme(src: string, line: int): Lexeme {
    Lexeme(Token(Eof, "", NoLiteral, line), |src|, |src|)
  }

  /** The pass from cursor `pos` on line `line` to the end of the source. */
  function LexFrom(src: string, pos: nat, line: int): Run
    requires pos <= |src|
    decreases |src| - pos
  {
    if pos == |src| then Run([EofLexeme(src, line)], [], false)
    else
      var e := Step(src, pos, line);
      StepIsShaped(src, pos, line);
      if e.overrun then Run(e.emitted.ToSeq(), e.reported.ToSeq(), true)
      else
        var rest := LexFrom(src, e.next, e.line);
        Run(e.emitted.ToSeq() + rest.lexemes, e.reported.ToSeq() + rest.reports, rest.overrun)
  }

  /** The pass of a fresh scanner: offset 0, line 1. */
  function Lex(src: string): Run {
    LexFrom(src, 0, 1)
  }

  /** The tokens of a list of lexemes, in order. */
  function TokensOf(lexemes: seq<Lexeme>): seq<Token> {
    seq(|lexemes|, i requires 0 <= i < |lexemes| => lexemes[i].token)
  }

  /** Taking tokens distributes over concatenation. */
  lemma TokensAppend(a: seq<Lexeme>, b: seq<Lexeme>)
    ensures TokensOf(a + b) == TokensOf(a) + TokensOf(b)
  {
    assert forall i | 0 <= i < |a + b| :: TokensOf(a + b)[i] == (TokensOf(a) + TokensOf(b))[i];
  }
}
