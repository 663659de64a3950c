/** What the scanner guarantees, proved about the reference functions of LoxLexing
    (and so, through the contracts of LoxScanner, about the class): the rule each
    kind of lexeme follows, and the shape of a whole pass. */
module LoxScanProperties {
  import opened Wrappers
  import opened LoxTokens
  import opened LoxLexing

  // ---------------------------------------------------------------------------
  // Independent descriptions of the lexical grammar

  /** The punctuator and operator lexemes and their token types, as a table read by
      lexeme text rather than by the scanner's dispatch. */
  function PunctuatorType(w: string): Option<TokenType> {
    if |w| == 1 then
      match w[0]
      case '(' => Some(LeftParen)
      case ')' => Some(RightParen)
      case '{' => Some(LeftBrace)
      case '}' => Some(RightBrace)
      case ',' => Some(Comma)
      case '.' => Some(Dot)
      case '-' => Some(Minus)
      case '+' => Some(Plus)
      case ';' => Some(Semicolon)
      case '*' => Some(Star)
      case '/' => Some(Slash)
      case '!' => Some(Bang)
      case '=' => Some(Equal)
      case '>' => Some(Greater)
      case '<' => Some(Less)
      case _ => None
    else if |w| == 2 && w[1] == '=' then
      match w[0]
      case '!' => Some(BangEqual)
      case '=' => Some(EqualEqual)
      case '>' => Some(GreaterEqual)
      case '<' => Some(LessEqual)
      case _ => None
    else None
  }

  predicate AllDigits(s: string) {
    forall i :: 0 <= i < |s| ==> IsDigit(s[i])
  }

  /** A number literal: digits, optionally followed by a `.` and more digits. */
  predicate IsNumberLexeme(w: string) {
    || (0 < |w| && AllDigits(w))
    || (exists d :: 0 < d < |w| - 1 && w[d] == '.' && AllDigits(w[..d]) && AllDigits(w[d + 1..]))
  }

  /** An identifier: a letter or underscore, then letters, underscores and digits. */
  predicate IsIdentifierShaped(w: string) {
    && 0 < |w| && IsAlpha(w[0])
    && forall i :: 0 <= i < |w| ==> IsAlphaNumeric(w[i])
  }

  /** The characters the scanner's switch knows how to start a lexeme with. */
  predicate Expected(c: char) {
    || c == '(' || c == ')' || c == '{' || c == '}' || c == ',' || c == '.'
    || c == '-' || c == '+' || c == ';' || c == '*' || c == '/'
    || c == '!' || c == '=' || c == '>' || c == '<'
    || c == ' ' || c == '\r' || c == '\t' || c == '\n' || c == '"'
    || IsAlphaNumeric(c)
  }

  /** A block comment opener directly followed by a line feed at `pos`: the one line
      feed the scanner does not count. */
  predicate OpensCommentAtLineEnd(src: string, pos: nat) {
    pos + 2 < |src| && src[pos] == '/' && src[pos + 1] == '*' && src[pos + 2] == '\n'
  }

  // ---------------------------------------------------------------------------
  // One lexeme at a time

  /** Punctuation and the operators `!`, `=`, `>`, `<` follow maximal munch: the
      token is the longest punctuator lexeme at `pos`, typed by the table, with no
      literal, on the current line; a two-character operator is taken exactly when
      `=` follows. */
  lemma PunctuatorMaximalMunch(src: string, pos: nat, line: int)
    requires pos < |src| && src[pos] != '/'
    requires PunctuatorType(src[pos..pos + 1]).Some?
    ensures var e := Step(src, pos, line);
      && !e.overrun && e.reported.None? && e.line == line && e.emitted.Some?
      && pos < e.next <= |src|
      && var w := src[pos..e.next];
      && PunctuatorType(w).Some?
      && e.emitted.value.token == Token(PunctuatorType(w).value, w, NoLiteral, line)
      && (e.next < |src| ==> PunctuatorType(src[pos..e.next + 1]).None?)
  {
    var c := src[pos];
    assert src[pos..pos + 1][0] == c;
    if pos + 1 < |src| {
      var w2 := src[pos..pos + 2];
      assert w2[0] == c && w2[1] == src[pos + 1];
      if pos + 2 < |src| {
        assert |src[pos..pos + 3]| == 3;
      }
    }
  }

  /** A `/` not followed by `/` or `*` is the Slash token. */
  lemma LoneSlash(src: string, pos: nat, line: int)
    requires pos < |src| && src[pos] == '/'
    requires !Matches(src, pos + 1, '/') && !Matches(src, pos + 1, '*')
    ensures SlashStep(src, pos, line) == Effect(pos + 1, line, Some(Lexeme(Token(Slash, "/", NoLiteral, line), pos, pos + 1)), None, false)
  {
    assert src[pos..pos + 1] == "/";
  }

  /** `//` skips up to, not including, the next line feed or the end of the source,
      and emits and reports nothing. */
  lemma LineComment(src: string, pos: nat, line: int)
    requires pos + 1 < |src| && src[pos] == '/' && src[pos + 1] == '/'
    ensures var e := SlashStep(src, pos, line);
      && !e.overrun && e.emitted.None? && e.reported.None? && e.line == line
      && pos + 2 <= e.next <= |src|
      && (e.next == |src| || src[e.next] == '\n')
      && (forall k :: pos + 2 <= k < e.next ==> src[k] != '\n')
  {
    RunEndSpansClass(src, pos + 2, NonNewline);
  }

  /** A block comment opener (slash, star) skips to the first comment closer after
      it (comments do not nest) and consumes it, emitting and reporting nothing;
      line feeds inside count, except one directly after the opener. With no
      closer, the scan reads past the end. */
  lemma BlockComment(src: string, pos: nat, line: int)
    requires pos + 1 < |src| && src[pos] == '/' && src[pos + 1] == '*'
    ensures var e := SlashStep(src, pos, line);
      && e.emitted.None? && e.reported.None?
      && (e.overrun <==> forall k :: pos + 2 <= k < |src| ==> !ClosesComment(src, k))
      && (!e.overrun ==>
            && pos + 4 <= e.next && ClosesComment(src, e.next - 2)
            && (forall k :: pos + 2 <= k < e.next - 2 ==> !ClosesComment(src, k))
            && e.line == line + if pos + 2 < e.next - 2 then NewlinesBetween(src, pos + 3, e.next - 2) else 0)
  {
    CommentCloseIsFirst(src, pos + 2);
  }

  /** A number is the longest number-literal prefix at `pos`: a `.` joins it only
      when a digit follows, otherwise the `.` is left for the next lexeme. The
      literal is the lexeme's text. */
  lemma NumberMaximalMunch(src: string, pos: nat, line: int)
    requires pos < |src| && IsDigit(src[pos])
    ensures var e := NumberStep(src, pos, line);
      && !e.overrun && e.reported.None? && e.line == line && e.emitted.Some?
      && pos < e.next <= |src|
      && var w := src[pos..e.next];
      && e.emitted.value.token == Token(Number, w, NumberValue(w), line)
      && IsNumberLexeme(w)
      && (forall j :: e.next < j <= |src| ==> !IsNumberLexeme(src[pos..j]))
  {
    var d := RunEnd(src, pos + 1, Digits);
    RunEndSpansClass(src, pos + 1, Digits);
    var next := NumberEnd(src, pos + 1);
    if next == d {
      DigitsAreNumber(src, pos, d);
      forall j | next < j <= |src| ensures !IsNumberLexeme(src[pos..j]) {
        NumberNotExtended(src, pos, d, j);
      }
    } else {
      var f := RunEnd(src, d + 1, Digits);
      RunEndSpansClass(src, d + 1, Digits);
      FractionIsNumber(src, pos, d, f);
      forall j | next < j <= |src| ensures !IsNumberLexeme(src[pos..j]) {
        FractionNotExtended(src, pos, d, f, j);
      }
    }
  }

  lemma DigitsAreNumber(src: string, pos: nat, d: nat)
    requires pos < d <= |src|
    requires forall k :: pos <= k < d ==> IsDigit(src[k])
    ensures IsNumberLexeme(src[pos..d])
  {
    var w := src[pos..d];
    assert AllDigits(w) by {
      forall i | 0 <= i < |w| ensures IsDigit(w[i]) {
        assert w[i] == src[pos + i];
      }
    }
  }

  lemma FractionIsNumber(src: string, pos: nat, d: nat, f: nat)
    requires pos < d && d + 1 < f <= |src|
    requires forall k :: pos <= k < d ==> IsDigit(src[k])
    requires src[d] == '.'
    requires forall k :: d < k < f ==> IsDigit(src[k])
    ensures IsNumberLexeme(src[pos..f])
  {
    var w := src[pos..f];
    var dot := d - pos;
    var whole, fraction := w[..dot], w[dot + 1..];
    assert w[dot] == '.';
    assert AllDigits(whole) by {
      forall i | 0 <= i < |whole| ensures IsDigit(whole[i]) {
        assert whole[i] == src[pos + i];
      }
    }
    assert AllDigits(fraction) by {
      forall i | 0 <= i < |fraction| ensures IsDigit(fraction[i]) {
        assert fraction[i] == src[d + 1 + i];
      }
    }
  }

  /** An identifier is the maximal run of letters, digits and underscores from a
      letter or underscore; its type is the reserved word's when the lexeme is one,
      and Identifier otherwise. */
  lemma IdentifierMaximalMunch(src: string, pos: nat, line: int)
    requires pos < |src| && IsAlpha(src[pos])
    ensures var e := IdentifierStep(src, pos, line);
      && !e.overrun && e.reported.None? && e.line == line && e.emitted.Some?
      && pos < e.next <= |src|
      && var w := src[pos..e.next];
      && IsIdentifierShaped(w)
      && (e.next == |src| || !IsAlphaNumeric(src[e.next]))
      && e.emitted.value.token == Token(if w in Keywords then Keywords[w] else Identifier, w, NoLiteral, line)
  {
    var next := RunEnd(src, pos + 1, Word);
    RunEndSpansClass(src, pos + 1, Word);
    var w := src[pos..next];
    assert w[0] == src[pos];
    forall i | 0 <= i < |w| ensures IsAlphaNumeric(w[i]) {
      assert w[i] == src[pos + i];
    }
  }

  /** The reserved words, read the other way: from token type to text. */
  function ReservedWord(t: TokenType): Option<string> {
    match t
    case And => Some("and")
    case Class => Some("class")
    case Else => Some("else")
    case False => Some("false")
    case For => Some("for")
    case Fun => Some("fun")
    case If => Some("if")
    case Nil => Some("nil")
    case Or => Some("or")
    case Print => Some("print")
    case Return => Some("return")
    case Super => Some("super")
    case This => Some("this")
    case True => Some("true")
    case Var => Some("var")
    case While => Some("while")
    case _ => None
  }

  /** Every reserved word is shaped like an identifier, so only the identifier rule
      can produce it. */
  lemma KeywordsAreWords()
    ensures forall w :: w in Keywords ==> IsIdentifierShaped(w)
  {
    forall w | w in Keywords ensures IsIdentifierShaped(w) {
      forall i | 0 <= i < |w| ensures IsAlpha(w[i]) {
      }
    }
  }

  /** Every word in the table maps to a reserved-word type, and back to itself. */
  lemma KeywordsAreReserved()
    ensures forall w :: w in Keywords ==> IsReserved(Keywords[w]) && ReservedWord(Keywords[w]) == Some(w)
  {
    forall w | w in Keywords ensures ReservedWord(Keywords[w]) == Some(w) {
    }
    ReservedTypesHaveWords();
  }

  /** The reserved-word types are exactly those with a word. */
  lemma ReservedTypesHaveWords()
    ensures forall t :: IsReserved(t) <==> ReservedWord(t).Some?
  {
  }

  /** Every reserved-word type's word is in the table and maps back to it: together
      with KeywordsAreReserved, the table is one-to-one onto the reserved-word types. */
  lemma ReservedWordsInTable()
    ensures forall t :: IsReserved(t) ==> ReservedWord(t).value in Keywords && Keywords[ReservedWord(t).value] == t
  {
    ReservedTypesHaveWords();
    forall t | IsReserved(t) ensures ReservedWord(t).value in Keywords && Keywords[ReservedWord(t).value] == t {
      match t
      case And =>
      case Class =>
      case Else =>
      case False =>
      case For =>
      case Fun =>
      case If =>
      case Nil =>
      case Or =>
      case Print =>
      case Return =>
      case Super =>
      case This =>
      case True =>
      case Var =>
      case While =>
      case _ =>
    }
  }

  /** A source that is one identifier-shaped word scans to that word's token, its
      reserved-word type when the word is in the table and Identifier otherwise,
      on line 1, followed by EOF. */
  lemma WordScansAlone(w: string)
    requires IsIdentifierShaped(w)
    ensures Lex(w) == Run([Lexeme(Token(WordType(w), w, NoLiteral, 1), 0, |w|), EofLexeme(w, 1)], [], false)
  {
    Dispatch(w, 0, 1);
    RunEndUnique(w, 1, |w|, Word);
    assert w[0..|w|] == w;
    PassUnfold(w, 0, 1);
  }

  /** In particular each reserved word, alone, scans to its own token type. */
  lemma KeywordScansAlone(w: string)
    requires w in Keywords
    ensures TokensOf(Lex(w).lexemes) == [Token(Keywords[w], w, NoLiteral, 1), Token(Eof, "", NoLiteral, 1)]
    ensures Lex(w).reports == [] && !Lex(w).overrun
  {
    KeywordsAreWords();
    WordScansAlone(w);
  }

  /** A string runs from its opening quote to the next quote. Terminated, it is a
      String token whose lexeme keeps both quotes, whose literal is exactly the text
      between them, and whose line is the line at the closing quote (each line feed
      inside counts). Unterminated, "Unterminated string" is reported at the line
      reached at the end of the source and the scan then reads past the end. */
  lemma StringLiteral(src: string, pos: nat, line: int)
    requires pos < |src| && src[pos] == '"'
    ensures var e := StringStep(src, pos, line);
      && (e.overrun <==> forall k :: pos < k < |src| ==> src[k] != '"')
      && (e.overrun ==>
            && e.emitted.None?
            && e.reported == Some(Report(line + NewlinesBetween(src, pos + 1, |src|), UnterminatedString)))
      && (!e.overrun ==>
            && pos + 1 < e.next <= |src| && src[e.next - 1] == '"'
            && (forall k :: pos < k < e.next - 1 ==> src[k] != '"')
            && e.reported.None?
            && e.line == line + NewlinesBetween(src, pos + 1, e.next - 1)
            && e.emitted == Some(Lexeme(Token(String, src[pos..e.next], StringValue(src[pos + 1..e.next - 1]), e.line), pos, e.next)))
  {
    RunEndSpansClass(src, pos + 1, NonQuote);
  }

  /** The first character decides the kind of lexeme: a digit starts a number
      (before the letter test), a letter or underscore an identifier, a quote a
      string, and a slash a comment or the Slash token. */
  lemma Dispatch(src: string, pos: nat, line: int)
    requires pos < |src|
    ensures var c, e := src[pos], Step(src, pos, line);
      && (IsDigit(c) ==> e == NumberStep(src, pos, line))
      && (IsAlpha(c) ==> e == IdentifierStep(src, pos, line))
      && (c == '"' ==> e == StringStep(src, pos, line))
      && (c == '/' ==> e == SlashStep(src, pos, line))
  {
  }

  /** Blanks are skipped, a line feed is skipped and counted, and a character the
      scanner has no rule for is reported as unexpected, consumed, and scanning goes on. */
  lemma LayoutAndStrays(src: string, pos: nat, line: int)
    requires pos < |src|
    ensures var c, e := src[pos], Step(src, pos, line);
      && (c == ' ' || c == '\r' || c == '\t' ==> e == Effect(pos + 1, line, None, None, false))
      && (c == '\n' ==> e == Effect(pos + 1, line + 1, None, None, false))
      && (!Expected(c) ==> e == Effect(pos + 1, line, None, Some(Report(line, UnexpectedCharacter)), false))
  {
  }

  /** A step reports exactly for an unexpected character or an unterminated string. */
  lemma StepReports(src: string, pos: nat, line: int)
    requires pos < |src|
    ensures var c, e := src[pos], Step(src, pos, line);
      && (e.reported.Some? <==> !Expected(c) || (c == '"' && e.overrun))
      && (e.reported.Some? ==>
            e.reported.value.message == if Expected(c) then UnterminatedString else UnexpectedCharacter)
  {
    if src[pos] == '"' {
      StringLiteral(src, pos, line);
    }
  }

  /** Line bookkeeping of one step: the line advances by the line feeds the step
      consumes, except the one directly after a block comment opener. */
  lemma StepLineCount(src: string, pos: nat, line: int)
    requires pos < |src|
    ensures var e := Step(src, pos, line);
      !e.overrun ==>
        && pos < e.next <= |src|
        && e.line == line + NewlinesBetween(src, pos, e.next) - if OpensCommentAtLineEnd(src, pos) then 1 else 0
  {
    var e := Step(src, pos, line);
    if !e.overrun {
      match LeadOf(src[pos])
      case SlashLead => SlashLineCount(src, pos, line);
      case Quote => StringLineCount(src, pos, line);
      case DigitLead => NumberLineCount(src, pos, line);
      case LetterLead => IdentifierLineCount(src, pos, line);
      case LineBreak =>
      case _ => NoNewlines(src, pos, e.next);
    }
  }

  lemma StringLineCount(src: string, pos: nat, line: int)
    requires pos < |src| && src[pos] == '"'
    ensures var e := StringStep(src, pos, line);
      !e.overrun ==> pos < e.next <= |src| && e.line == line + NewlinesBetween(src, pos, e.next)
  {
    var e := StringStep(src, pos, line);
    if !e.overrun {
      var k := e.next - 1;
      NewlinesSplit(src, pos, pos + 1, k);
      NewlinesSplit(src, pos, k, k + 1);
    }
  }

  lemma NumberLineCount(src: string, pos: nat, line: int)
    requires pos < |src| && IsDigit(src[pos])
    ensures var e := NumberStep(src, pos, line);
      pos < e.next <= |src| && NewlinesBetween(src, pos, e.next) == 0
  {
    RunEndSpansClass(src, pos + 1, Digits);
    var d := RunEnd(src, pos + 1, Digits);
    if CharAt(src, d) == '.' && IsDigit(CharAt(src, d + 1)) {
      RunEndSpansClass(src, d + 1, Digits);
    }
    NoNewlines(src, pos, NumberEnd(src, pos + 1));
  }

  lemma IdentifierLineCount(src: string, pos: nat, line: int)
    requires pos < |src| && IsAlpha(src[pos])
    ensures var e := IdentifierStep(src, pos, line);
      pos < e.next <= |src| && NewlinesBetween(src, pos, e.next) == 0
  {
    RunEndSpansClass(src, pos + 1, Word);
    NoNewlines(src, pos, RunEnd(src, pos + 1, Word));
  }

  lemma SlashLineCount(src: string, pos: nat, line: int)
    requires pos < |src| && src[pos] == '/'
    ensures var e := SlashStep(src, pos, line);
      !e.overrun ==>
        && pos < e.next <= |src|
        && e.line == line + NewlinesBetween(src, pos, e.next) - if OpensCommentAtLineEnd(src, pos) then 1 else 0
  {
    var e := SlashStep(src, pos, line);
    if Matches(src, pos + 1, '/') {
      RunEndSpansClass(src, pos + 2, NonNewline);
      NoNewlines(src, pos, e.next);
    } else if Matches(src, pos + 1, '*') && !e.overrun {
      var k := CommentClose(src, pos + 2);
      NoNewlines(src, pos, pos + 2);
      NoNewlines(src, k, k + 2);
      NewlinesSplit(src, pos, pos + 2, k);
      NewlinesSplit(src, pos, k, k + 2);
      if pos + 2 < k {
        NewlinesSplit(src, pos + 2, pos + 3, k);
      }
    }
  }

  /** A number without fraction cannot be extended into a longer number literal. */
  lemma NumberNotExtended(src: string, pos: nat, d: nat, j: nat)
    requires pos < d < j <= |src|
    requires forall k :: pos <= k < d ==> IsDigit(src[k])
    requires !IsDigit(src[d])
    requires !(src[d] == '.' && IsDigit(CharAt(src, d + 1)))
    ensures !IsNumberLexeme(src[pos..j])
  {
    var v := src[pos..j];
    assert v[d - pos] == src[d];
    forall x | 0 < x < |v| - 1 && v[x] == '.' && AllDigits(v[..x])
      ensures !AllDigits(v[x + 1..])
    {
      assert v[x + 1..][0] == src[pos + x + 1];
    }
  }

  /** A number with a fraction cannot be extended into a longer number literal. */
  lemma FractionNotExtended(src: string, pos: nat, d: nat, f: nat, j: nat)
    requires pos < d < f < j <= |src|
    requires forall k :: pos <= k < d ==> IsDigit(src[k])
    requires src[d] == '.'
    requires forall k :: d < k < f ==> IsDigit(src[k])
    requires !IsDigit(src[f])
    ensures !IsNumberLexeme(src[pos..j])
  {
    var v := src[pos..j];
    assert v[d - pos] == '.';
    forall x | 0 < x < |v| - 1 && v[x] == '.' && AllDigits(v[..x])
      ensures !AllDigits(v[x + 1..])
    {
      assert x != d - pos || v[x + 1..][f - pos - x - 1] == src[f];
    }
  }

  // ---------------------------------------------------------------------------
  // The whole pass

  /** One step of the pass: the step's lexeme and report come first, then the pass
      from where the step stopped, unless the step read past the end. */
  lemma PassUnfold(src: string, pos: nat, line: int)
    requires pos < |src|
    ensures var e := Step(src, pos, line);
      var r := LexFrom(src, pos, line);
      && StepShape(src, pos, line, e)
      && (e.overrun ==> r == Run([], e.reported.ToSeq(), true))
      && (!e.overrun ==>
            var rest := LexFrom(src, e.next, e.line);
            r == Run(e.emitted.ToSeq() + rest.lexemes, e.reported.ToSeq() + rest.reports, rest.overrun))
  {
    StepIsShaped(src, pos, line);
  }

  /** Every lexeme is a nonempty slice of `src` at or after `pos` (EOF is the empty
      slice at the end), and the lexemes come in source order without overlap. */
  ghost predicate Tiling(src: string, pos: nat, ls: seq<Lexeme>) {
    && (forall i :: 0 <= i < |ls| ==>
          && pos <= ls[i].from <= ls[i].to <= |src|
          && ls[i].token.lexeme == src[ls[i].from..ls[i].to])
    && (forall i, j :: 0 <= i < j < |ls| ==> ls[i].to <= ls[j].from)
    && (forall i :: 0 <= i < |ls| && ls[i].token.tokenType != Eof ==> ls[i].from < ls[i].to)
  }

  /** Tokens on line `line` or later, in non-decreasing line order. */
  ghost predicate TokenLinesFrom(line: int, ls: seq<Lexeme>) {
    && (forall i :: 0 <= i < |ls| ==> line <= ls[i].token.line)
    && (forall i, j :: 0 <= i < j < |ls| ==> ls[i].token.line <= ls[j].token.line)
  }

  /** Reports on line `line` or later, in non-decreasing line order. */
  ghost predicate ReportLinesFrom(line: int, rs: seq<Report>) {
    && (forall i :: 0 <= i < |rs| ==> line <= rs[i].line)
    && (forall i, j :: 0 <= i < j < |rs| ==> rs[i].line <= rs[j].line)
  }

  ghost predicate LiteralsAgree(ls: seq<Lexeme>) {
    forall i :: 0 <= i < |ls| ==> LiteralAgrees(ls[i].token)
  }

  /** Every report is one of the two messages; "Unterminated string" is at most the
      last one, and only when the pass read past the end. */
  ghost predicate ReportsWellFormed(rs: seq<Report>, overrun: bool) {
    && (forall i :: 0 <= i < |rs| ==>
          rs[i].message == UnexpectedCharacter || rs[i].message == UnterminatedString)
    && (forall i :: 0 <= i < |rs| && (!overrun || i < |rs| - 1) ==>
          rs[i].message == UnexpectedCharacter)
  }

  lemma TilingPrepend(src: string, pos: nat, next: nat, head: seq<Lexeme>, rest: seq<Lexeme>)
    requires pos <= next && |head| <= 1
    requires forall i :: 0 <= i < |head| ==>
      && head[i].from == pos && head[i].to == next && pos < next <= |src|
      && head[i].token.lexeme == src[pos..next]
    requires Tiling(src, next, rest)
    ensures Tiling(src, pos, head + rest)
  {
    var ls := head + rest;
    forall i | 0 <= i < |ls|
      ensures pos <= ls[i].from <= ls[i].to <= |src|
      ensures ls[i].token.lexeme == src[ls[i].from..ls[i].to]
      ensures ls[i].token.tokenType != Eof ==> ls[i].from < ls[i].to
    {
      if i < |head| {
        assert ls[i] == head[i];
      } else {
        assert ls[i] == rest[i - |head|];
      }
    }
    forall i, j | 0 <= i < j < |ls| ensures ls[i].to <= ls[j].from {
      if i < |head| {
        assert ls[j] == rest[j - |head|];
      } else {
        assert ls[i] == rest[i - |head|] && ls[j] == rest[j - |head|];
      }
    }
  }

  lemma TokenLinesPrepend(line: int, mid: int, head: seq<Lexeme>, rest: seq<Lexeme>)
    requires line <= mid && |head| <= 1
    requires forall i :: 0 <= i < |head| ==> line <= head[i].token.line <= mid
    requires TokenLinesFrom(mid, rest)
    ensures TokenLinesFrom(line, head + rest)
  {
    var ls := head + rest;
    forall i | 0 <= i < |ls| ensures line <= ls[i].token.line {
      if i < |head| {
        assert ls[i] == head[i];
      } else {
        assert ls[i] == rest[i - |head|];
      }
    }
    forall i, j | 0 <= i < j < |ls| ensures ls[i].token.line <= ls[j].token.line {
      if i < |head| {
        assert ls[i] == head[i] && ls[j] == rest[j - |head|];
      } else {
        assert ls[i] == rest[i - |head|] && ls[j] == rest[j - |head|];
      }
    }
  }

  lemma ReportLinesPrepend(line: int, mid: int, head: seq<Report>, rest: seq<Report>)
    requires line <= mid && |head| <= 1
    requires forall i :: 0 <= i < |head| ==> line <= head[i].line <= mid
    requires ReportLinesFrom(mid, rest)
    ensures ReportLinesFrom(line, head + rest)
  {
    var rs := head + rest;
    forall i | 0 <= i < |rs| ensures line <= rs[i].line {
      if i < |head| {
        assert rs[i] == head[i];
      } else {
        assert rs[i] == rest[i - |head|];
      }
    }
    forall i, j | 0 <= i < j < |rs| ensures rs[i].line <= rs[j].line {
      if i < |head| {
        assert rs[i] == head[i] && rs[j] == rest[j - |head|];
      } else {
        assert rs[i] == rest[i - |head|] && rs[j] == rest[j - |head|];
      }
    }
  }

  lemma LiteralsAppend(a: seq<Lexeme>, b: seq<Lexeme>)
    requires LiteralsAgree(a) && LiteralsAgree(b)
    ensures LiteralsAgree(a + b)
  {
    var ls := a + b;
    forall i | 0 <= i < |ls| ensures LiteralAgrees(ls[i].token) {
      if i < |a| {
        assert ls[i] == a[i];
      } else {
        assert ls[i] == b[i - |a|];
      }
    }
  }

  lemma ReportsPrepend(head: seq<Report>, rest: seq<Report>, overrun: bool)
    requires |head| <= 1
    requires forall i :: 0 <= i < |head| ==> head[i].message == UnexpectedCharacter
    requires ReportsWellFormed(rest, overrun)
    ensures ReportsWellFormed(head + rest, overrun)
  {
    var rs := head + rest;
    forall i | 0 <= i < |rs|
      ensures rs[i].message == UnexpectedCharacter || rs[i].message == UnterminatedString
      ensures !overrun || i < |rs| - 1 ==> rs[i].message == UnexpectedCharacter
    {
      if i < |head| {
        assert rs[i] == head[i];
      } else {
        assert rs[i] == rest[i - |head|];
      }
    }
  }

  /** No lexeme is EOF except the last one of a pass that did not read past the end. */
  ghost predicate EofOnlyLast(ls: seq<Lexeme>, overrun: bool) {
    forall i :: 0 <= i < |ls| && (overrun || i < |ls| - 1) ==> ls[i].token.tokenType != Eof
  }

  lemma EofPrepend(head: seq<Lexeme>, rest: seq<Lexeme>, overrun: bool)
    requires |head| <= 1
    requires forall i :: 0 <= i < |head| ==> head[i].token.tokenType != Eof
    requires EofOnlyLast(rest, overrun)
    ensures EofOnlyLast(head + rest, overrun)
    ensures 0 < |rest| ==> (head + rest)[|head + rest| - 1] == rest[|rest| - 1]
  {
    var ls := head + rest;
    forall i | 0 <= i < |ls| && (overrun || i < |ls| - 1) ensures ls[i].token.tokenType != Eof {
      if i < |head| {
        assert ls[i] == head[i];
      } else {
        assert ls[i] == rest[i - |head|];
      }
    }
  }

  /** A pass that does not read past the end finishes with exactly one EOF token:
      empty lexeme, no literal, at the end of the source. No other lexeme is EOF, and
      a pass that reads past the end has none. */
  lemma {:induction false} PassEndsWithEof(src: string, pos: nat, line: int)
    requires pos <= |src|
    ensures var r := LexFrom(src, pos, line);
      && (!r.overrun ==>
            && 0 < |r.lexemes|
            && var last := r.lexemes[|r.lexemes| - 1];
            && last == EofLexeme(src, last.token.line))
      && EofOnlyLast(r.lexemes, r.overrun)
    decreases |src| - pos
  {
    if pos < |src| {
      var e := Step(src, pos, line);
      PassUnfold(src, pos, line);
      if !e.overrun {
        var rest := LexFrom(src, e.next, e.line);
        PassEndsWithEof(src, e.next, e.line);
        EofPrepend(e.emitted.ToSeq(), rest.lexemes, rest.overrun);
      }
    }
  }

  /** Lexemes are slices of the source at or after the start offset, in increasing
      order and without overlap; every lexeme but EOF is nonempty. */
  lemma {:induction false} PassTilesSource(src: string, pos: nat, line: int)
    requires pos <= |src|
    ensures Tiling(src, pos, LexFrom(src, pos, line).lexemes)
    decreases |src| - pos
  {
    if pos < |src| {
      var e := Step(src, pos, line);
      PassUnfold(src, pos, line);
      if !e.overrun {
        PassTilesSource(src, e.next, e.line);
        TilingPrepend(src, pos, e.next, e.emitted.ToSeq(), LexFrom(src, e.next, e.line).lexemes);
      }
    }
  }

  /** The line never goes back: every token and every report is on the start line or
      later, and both come in non-decreasing line order. */
  lemma {:induction false} PassLinesNondecreasing(src: string, pos: nat, line: int)
    requires pos <= |src|
    ensures var r := LexFrom(src, pos, line);
      TokenLinesFrom(line, r.lexemes) && ReportLinesFrom(line, r.reports)
    decreases |src| - pos
  {
    if pos < |src| {
      var e := Step(src, pos, line);
      PassUnfold(src, pos, line);
      if !e.overrun {
        var rest := LexFrom(src, e.next, e.line);
        PassLinesNondecreasing(src, e.next, e.line);
        TokenLinesPrepend(line, e.line, e.emitted.ToSeq(), rest.lexemes);
        ReportLinesPrepend(line, e.line, e.reported.ToSeq(), rest.reports);
      } else {
        ReportLinesPrepend(line, e.line, e.reported.ToSeq(), []);
      }
    }
  }

  /** Only String and Number tokens carry a literal: the text between the quotes and
      the lexeme's digits; every other token, EOF included, carries none. */
  lemma {:induction false} PassLiterals(src: string, pos: nat, line: int)
    requires pos <= |src|
    ensures LiteralsAgree(LexFrom(src, pos, line).lexemes)
    decreases |src| - pos
  {
    if pos < |src| {
      var e := Step(src, pos, line);
      PassUnfold(src, pos, line);
      if !e.overrun {
        PassLiterals(src, e.next, e.line);
        LiteralsAppend(e.emitted.ToSeq(), LexFrom(src, e.next, e.line).lexemes);
      }
    }
  }

  /** The EOF token's line is at most the start line plus the line feeds of the
      source, and exactly that when no block comment opener anywhere in the source is
      directly followed by a line feed. (An opener inside a string or another comment
      costs nothing, so the count is not simply one less per opener.) */
  lemma {:induction false} PassEofLine(src: string, pos: nat, line: int)
    requires pos <= |src|
    ensures var r := LexFrom(src, pos, line);
      !r.overrun ==>
        && 0 < |r.lexemes|
        && var eofLine := r.lexemes[|r.lexemes| - 1].token.line;
        && eofLine <= line + NewlinesBetween(src, pos, |src|)
        && ((forall k :: pos <= k < |src| ==> !OpensCommentAtLineEnd(src, k)) ==>
              eofLine == line + NewlinesBetween(src, pos, |src|))
    decreases |src| - pos
  {
    if pos < |src| {
      var e := Step(src, pos, line);
      if !e.overrun {
        StepLineCount(src, pos, line);
        NewlinesSplit(src, pos, e.next, |src|);
        PassEofLine(src, e.next, e.line);
      }
    }
  }

  /** Reports carry one of the two messages; an unexpected character does not stop
      the scan, so "Unterminated string" can only be the last report, of a pass that
      reads past the end. */
  lemma {:induction false} PassReports(src: string, pos: nat, line: int)
    requires pos <= |src|
    ensures var r := LexFrom(src, pos, line);
      ReportsWellFormed(r.reports, r.overrun)
    decreases |src| - pos
  {
    if pos < |src| {
      var e := Step(src, pos, line);
      PassUnfold(src, pos, line);
      StepReports(src, pos, line);
      if !e.overrun {
        var rest := LexFrom(src, e.next, e.line);
        PassReports(src, e.next, e.line);
        ReportsPrepend(e.reported.ToSeq(), rest.reports, rest.overrun);
      }
    }
  }
}
