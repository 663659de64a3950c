/** The Lox scanner as the class it is: a cursor over the source (`start`,
    `current`, `line`) that appends to a token list. Every method is proved to do
    exactly what LoxLexing says the corresponding step of scanning does. */
module LoxScanner {
  import opened Wrappers
  import opened LoxTokens
  import opened LoxLexing

  /** What `scanTokens` hands back: the token list, or the exception thrown when an
      unterminated string or block comment makes `advance` read at `index`. */
  datatype ScanResult = Completed(tokens: seq<Token>) | StringIndexOutOfBounds(index: int)

  class Scanner {
    const source: string
    var tokens: seq<Token>
    /** The (line, message) pairs handed to the diagnostic sink `Lox.error`. */
    var errors: seq<Report>
    var start: nat
    var current: nat
    var line: int

    ghost predicate Valid()
      reads this
    {
      start <= current <= |source| && 1 <= line
    }

    constructor (source: string)
      ensures Valid()
      ensures this.source == source
      ensures tokens == [] && errors == []
      ensures start == 0 && current == 0 && line == 1
    {
      this.source := source;
      tokens := [];
      errors := [];
      start, current, line := 0, 0, 1;
    }

    function IsAtEnd(): (atEnd: bool)
      reads this
    {
      current >= |source|
    }

    /** The next unread character, or NUL at the end. */
    function Peek(): (c: char)
      reads this
    {
      if IsAtEnd() then '\0' else source[current]
    }

    /** The character after the next one, or NUL past the end. */
    function PeekNext(): (c: char)
      reads this
    {
      if current + 1 >= |source| then '\0' else source[current + 1]
    }

    /** `charAt(current++)`: defined only before the end; past it Java throws, and
        each caller models that case explicitly instead. */
    method Advance() returns (c: char)
      requires current < |source|
      modifies this`current
      ensures current == old(current) + 1
      ensures c == source[old(current)]
    {
      c := source[current];
      current := current + 1;
    }

    /** Consumes the next character only when it is `expected`. */
    method Match(expected: char) returns (matched: bool)
      modifies this`current
      ensures matched <==> Matches(source, old(current), expected)
      ensures current == if matched then old(current) + 1 else old(current)
    {
      if IsAtEnd() {
        return false;
      }
      if source[current] != expected {
        return false;
      }
      current := current + 1;
      return true;
    }

    /** Appends the token cut from `source[start..current]` on the current line;
        the one-argument form of the source is `literal == NoLiteral`. */
    method AddToken(kind: TokenType, literal: Literal)
      requires start <= current <= |source|
      modifies this`tokens
      ensures tokens == old(tokens) + [Token(kind, source[start..current], literal, line)]
    {
      tokens := tokens + [Token(kind, source[start..current], literal, line)];
    }

    /** The diagnostic sink `Lox.error`, as a collector. */
    method Error(at: int, message: string)
      modifies this`errors
      ensures errors == old(errors) + [Report(at, message)]
    {
      errors := errors + [Report(at, message)];
    }

    /** Skips a block comment whose opener has been consumed; `ok` is false when no
        closer follows, where the first closing `advance` reads past the end. */
    method SkipBlockComment() returns (ok: bool)
      requires current <= |source|
      modifies this`current, this`line
      ensures old(current) <= current <= |source| && old(line) <= line
      ensures !ok ==> current == |source|
      ensures var e := BlockCommentStep(source, old(current), old(line));
        && ok == !e.overrun
        && current == e.next && line == e.line
    {
      ghost var body := current;
      while (Peek() != '*' || PeekNext() != '/') && !IsAtEnd()
        invariant body <= current <= |source|
        invariant CommentClose(source, current) == CommentClose(source, body)
        invariant line == old(line) + CommentNewlines(source, body, current)
                          + (if body < current && CharAt(source, current) == '\n' then 1 else 0)
        modifies this`current, this`line
        decreases |source| - current
      {
        var _ := Advance();
        if Peek() == '\n' {
          line := line + 1;
        }
      }
      if IsAtEnd() {
        return false;
      }
      var _ := Advance();
      var _ := Advance();
      return true;
    }

    /** The loop of a string literal: up to the closing quote or the end of the
        source, counting the line feeds it passes. */
    method AdvanceInString()
      requires current <= |source|
      modifies this`current, this`line
      ensures current == RunEnd(source, old(current), NonQuote)
      ensures line == old(line) + NewlinesBetween(source, old(current), current)
    {
      while Peek() != '"' && !IsAtEnd()
        invariant old(current) <= current <= |source|
        invariant RunEnd(source, current, NonQuote) == RunEnd(source, old(current), NonQuote)
        invariant line == old(line) + NewlinesBetween(source, old(current), current)
        decreases |source| - current
      {
        if Peek() == '\n' {
          line := line + 1;
        }
        var _ := Advance();
      }
    }

    /** Scans a string literal whose opening quote has been consumed; `ok` is false
        when it is unterminated: the error is reported, then the closing `advance`
        reads past the end. */
    method ScanString() returns (ok: bool)
      requires start + 1 == current <= |source| && source[start] == '"'
      modifies this`current, this`line, this`tokens, this`errors
      ensures start < current <= |source| && old(line) <= line
      ensures !ok ==> current == |source|
      ensures var e := StringStep(source, start, old(line));
        && ok == !e.overrun
        && tokens == old(tokens) + e.Added()
        && errors == old(errors) + e.reported.ToSeq()
        && current == e.next && line == e.line
    {
      AdvanceInString();
      if IsAtEnd() {
        Error(line, UnterminatedString);
        return false;
      }
      var _ := Advance();
      var value := source[start + 1..current - 1];
      AddToken(String, StringValue(value));
      return true;
    }

    /** `while (isDigit(peek())) advance();`, the loop a number literal runs twice. */
    method AdvanceDigits()
      requires current <= |source|
      modifies this`current
      ensures current == RunEnd(source, old(current), Digits)
    {
      while IsDigit(Peek())
        invariant old(current) <= current <= |source|
        invariant RunEnd(source, current, Digits) == RunEnd(source, old(current), Digits)
        decreases |source| - current
      {
        var _ := Advance();
      }
    }

    /** Scans a number literal whose first digit has been consumed. */
    method ScanNumber()
      requires start + 1 == current <= |source|
      modifies this`current, this`tokens
      ensures start < current <= |source|
      ensures var e := NumberStep(source, start, line);
        && current == e.next
        && tokens == old(tokens) + e.Added()
    {
      AdvanceDigits();
      if Peek() == '.' && IsDigit(PeekNext()) {
        var _ := Advance();
        AdvanceDigits();
      }
      AddToken(Number, NumberValue(source[start..current]));
    }

    /** Scans an identifier or reserved word whose first letter has been consumed. */
    method ScanIdentifier()
      requires start + 1 == current <= |source|
      modifies this`current, this`tokens
      ensures start < current <= |source|
      ensures var e := IdentifierStep(source, start, line);
        && current == e.next
        && tokens == old(tokens) + e.Added()
    {
      while IsAlphaNumeric(Peek())
        invariant start < current <= |source|
        invariant RunEnd(source, current, Word) == RunEnd(source, start + 1, Word)
        modifies this`current
        decreases |source| - current
      {
        var _ := Advance();
      }
      var value := source[start..current];
      var kind := if value in Keywords then Keywords[value] else Identifier;
      AddToken(kind, NoLiteral);
    }

    /** The `/` case of the lexeme switch, its slash consumed: a line comment runs
        to the line feed, a block comment to its closer, otherwise a Slash token. */
    method ScanSlash() returns (ok: bool)
      requires start + 1 == current <= |source| && source[start] == '/'
      modifies this`current, this`line, this`tokens
      ensures start < current <= |source| && old(line) <= line
      ensures !ok ==> current == |source|
      ensures var e := SlashStep(source, start, old(line));
        && ok == !e.overrun
        && tokens == old(tokens) + e.Added()
        && current == e.next && line == e.line
    {
      ok := true;
      var lineComment := Match('/');
      if lineComment {
        while Peek() != '\n' && !IsAtEnd()
          invariant start + 2 <= current <= |source|
          invariant RunEnd(source, current, NonNewline) == RunEnd(source, start + 2, NonNewline)
          modifies this`current
          decreases |source| - current
        {
          var _ := Advance();
        }
      } else {
        var blockComment := Match('*');
        if blockComment {
          ok := SkipBlockComment();
        } else {
          AddToken(Slash, NoLiteral);
        }
      }
    }

    /** Scans the lexeme starting at `current`; `ok` is false when it ends by
        reading past the end of the source. The cursor then rests at the end of the
        source, where Java's `charAt(current++)` has moved it one further before
        throwing. */
    method ScanToken() returns (ok: bool)
      requires start == current < |source|
      modifies this`current, this`line, this`tokens, this`errors
      ensures start < current <= |source| && old(line) <= line
      ensures !ok ==> current == |source|
      ensures var e := Step(source, old(current), old(line));
        && ok == !e.overrun
        && tokens == old(tokens) + e.Added()
        && errors == old(errors) + e.reported.ToSeq()
        && current == e.next && line == e.line
    {
      var c := Advance();
      ok := true;
      match LeadOf(c) {
        case Single(kind) =>
          AddToken(kind, NoLiteral);
        case Operator(two, one) =>
          var matched := Match('=');
          AddToken(if matched then two else one, NoLiteral);
        case SlashLead =>
          ok := ScanSlash();
        case Blank =>
        case LineBreak =>
          line := line + 1;
        case Quote =>
          ok := ScanString();
        case DigitLead =>
          ScanNumber();
        case LetterLead =>
          ScanIdentifier();
        case Stray =>
          Error(line, UnexpectedCharacter);
      }
    }

    /** Scans from the cursor to the end of the source and appends the EOF token.
        On a fresh scanner this is the whole pass `Lex(source)`. */
    method ScanTokens() returns (result: ScanResult)
      requires Valid()
      modifies this`start, this`current, this`line, this`tokens, this`errors
      ensures Valid()
      ensures var run := LexFrom(source, old(current), old(line));
        && tokens == old(tokens) + TokensOf(run.lexemes)
        && errors == old(errors) + run.reports
        && result == (if run.overrun then StringIndexOutOfBounds(|source|) else Completed(tokens))
        && current == |source|
        && (!run.overrun ==>
              && 0 < |run.lexemes|
              && line == run.lexemes[|run.lexemes| - 1].token.line)
    {
      ghost var run := LexFrom(source, current, line);
      ghost var emitted: seq<Lexeme> := [];
      ghost var reported: seq<Report> := [];
      while !IsAtEnd()
        invariant start <= current <= |source| && 1 <= line
        invariant var rest := LexFrom(source, current, line);
          && run.lexemes == emitted + rest.lexemes
          && run.reports == reported + rest.reports
          && run.overrun == rest.overrun
        invariant tokens == old(tokens) + TokensOf(emitted)
        invariant errors == old(errors) + reported
        decreases |source| - current
      {
        start := current;
        ghost var e := Step(source, current, line);
        ghost var rest := LexFrom(source, current, line);
        var ok := ScanToken();
        ghost var lexemes, reports := e.emitted.ToSeq(), e.reported.ToSeq();
        TokensAppend(emitted, lexemes);
        assert TokensOf(lexemes) == e.Added();
        AppendAssoc(old(tokens), TokensOf(emitted), e.Added());
        AppendAssoc(old(errors), reported, reports);
        if !ok {
          assert rest == Run(lexemes, reports, true);
          emitted, reported := emitted + lexemes, reported + reports;
          return StringIndexOutOfBounds(|source|);
        }
        ghost var after := LexFrom(source, current, line);
        assert rest == Run(lexemes + after.lexemes, reports + after.reports, after.overrun);
        AppendAssoc(emitted, lexemes, after.lexemes);
        AppendAssoc(reported, reports, after.reports);
        emitted, reported := emitted + lexemes, reported + reports;
      }
      TokensAppend(emitted, [EofLexeme(source, line)]);
      assert TokensOf([EofLexeme(source, line)]) == [Token(Eof, "", NoLiteral, line)];
      tokens := tokens + [Token(Eof, "", NoLiteral, line)];
      return Completed(tokens);
    }
  }

  /** `new Scanner(source).scanTokens()`: one pass of a fresh scanner. */
  method ScanSource(source: string) returns (result: ScanResult, reports: seq<Report>)
    ensures reports == Lex(source).reports
    ensures result.Completed? <==> !Lex(source).overrun
    ensures result.Completed? ==> result.tokens == TokensOf(Lex(source).lexemes)
    ensures result.StringIndexOutOfBounds? ==> result.index == |source|
  {
    var scanner := new Scanner(source);
    result := scanner.ScanTokens();
    reports := scanner.errors;
  }

  /** `scanTokens` called twice on one scanner: after a completed pass the cursor is
      at the end, so the second call appends only another EOF token, on the same
      line. When the first call throws there is no second call (`None`). */
  method ScanTwice(source: string) returns (first: ScanResult, second: Option<ScanResult>)
    ensures first.Completed? <==> !Lex(source).overrun
    ensures first.Completed? ==>
      && 0 < |first.tokens|
      && second == Some(Completed(first.tokens + [Token(Eof, "", NoLiteral, first.tokens[|first.tokens| - 1].line)]))
    ensures first.StringIndexOutOfBounds? ==> second == None
  {
    var scanner := new Scanner(source);
    first := scanner.ScanTokens();
    second := None;
    if first.Completed? {
      ghost var lexemes := Lex(source).lexemes;
      assert first.tokens[|lexemes| - 1] == lexemes[|lexemes| - 1].token;
      assert TokensOf(LexFrom(source, scanner.current, scanner.line).lexemes) == [Token(Eof, "", NoLiteral, scanner.line)];
      var again := scanner.ScanTokens();
      second := Some(again);
    }
  }
}
