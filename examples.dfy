/** Concrete sources and what one pass of a fresh scanner makes of them, including
    the places where the scanner departs from a plain reading of the grammar: the
    uncounted line feed after a block comment opener, and the read past the end on
    an unterminated string or comment. */
module LoxScanExamples {
  import opened Wrappers
  import opened LoxTokens
  import opened LoxLexing

  /** One step of a concrete pass, once the step's effect is known. */
  lemma StepThen(src: string, pos: nat, line: int, e: Effect, rest: Run)
    requires pos < |src| && Step(src, pos, line) == e && !e.overrun && e.next <= |src|
    requires LexFrom(src, e.next, e.line) == rest
    ensures LexFrom(src, pos, line) == Run(e.emitted.ToSeq() + rest.lexemes, e.reported.ToSeq() + rest.reports, rest.overrun)
  {
  }

  /** The empty source is just EOF on line 1. */
  lemma EmptySource()
    ensures Lex("") == Run([Lexeme(Token(Eof, "", NoLiteral, 1), 0, 0)], [], false)
  {
  }

  /** Operators between numbers; each number is its own literal. */
  lemma Sum()
    ensures Lex("1+2") == Run([Lexeme(Token(Number, "1", NumberValue("1"), 1), 0, 1),
      Lexeme(Token(Plus, "+", NoLiteral, 1), 1, 2), Lexeme(Token(Number, "2", NumberValue("2"), 1), 2, 3),
      EofLexeme("1+2", 1)], [], false)
  {
    var s := "1+2";
    var plus := Lexeme(Token(Plus, "+", NoLiteral, 1), 1, 2);
    var two := Lexeme(Token(Number, "2", NumberValue("2"), 1), 2, 3);
    assert s[0..1] == "1" && s[1..2] == "+" && s[2..3] == "2";
    StepThen(s, 2, 1, Effect(3, 1, Some(two), None, false), Run([EofLexeme(s, 1)], [], false));
    StepThen(s, 1, 1, Effect(2, 1, Some(plus), None, false), Run([two, EofLexeme(s, 1)], [], false));
    StepThen(s, 0, 1, Effect(1, 1, Some(Lexeme(Token(Number, "1", NumberValue("1"), 1), 0, 1)), None, false),
      Run([plus, two, EofLexeme(s, 1)], [], false));
  }

  /** The line feed right after a block comment opener is not counted: the `x`
      after this two-line comment is reported on line 1, and so is EOF. */
  lemma CommentLineQuirk()
    ensures TokensOf(Lex("/*\n*/x").lexemes) == [Token(Identifier, "x", NoLiteral, 1), Token(Eof, "", NoLiteral, 1)]
    ensures NewlinesBetween("/*\n*/x", 0, 6) == 1
  {
    var s := "/*\n*/x";
    var x := Lexeme(Token(Identifier, "x", NoLiteral, 1), 5, 6);
    assert s[5..6] == "x";
    StepThen(s, 5, 1, Effect(6, 1, Some(x), None, false), Run([EofLexeme(s, 1)], [], false));
    StepThen(s, 0, 1, Effect(5, 1, None, None, false), Run([x, EofLexeme(s, 1)], [], false));
  }

  /** A line comment runs up to the line feed, which is then scanned and counted. */
  lemma LineCommentThenLineFeed()
    ensures Lex("//c\n") == Run([EofLexeme("//c\n", 2)], [], false)
  {
    var s := "//c\n";
    StepThen(s, 3, 1, Effect(4, 2, None, None, false), Run([EofLexeme(s, 2)], [], false));
    StepThen(s, 0, 1, Effect(3, 1, None, None, false), Run([EofLexeme(s, 2)], [], false));
  }

  /** Block comments do not nest: the first closer ends the comment, and the
      second closer scans as Star and Slash. */
  lemma CommentsDoNotNest()
    ensures TokensOf(Lex("/*/**/*/").lexemes) ==
      [Token(Star, "*", NoLiteral, 1), Token(Slash, "/", NoLiteral, 1), Token(Eof, "", NoLiteral, 1)]
  {
    var s := "/*/**/*/";
    var star := Lexeme(Token(Star, "*", NoLiteral, 1), 6, 7);
    var slash := Lexeme(Token(Slash, "/", NoLiteral, 1), 7, 8);
    assert s[6..7] == "*" && s[7..8] == "/";
    StepThen(s, 7, 1, Effect(8, 1, Some(slash), None, false), Run([EofLexeme(s, 1)], [], false));
    StepThen(s, 6, 1, Effect(7, 1, Some(star), None, false), Run([slash, EofLexeme(s, 1)], [], false));
    StepThen(s, 0, 1, Effect(6, 1, None, None, false), Run([star, slash, EofLexeme(s, 1)], [], false));
  }

  /** A string may span lines: its literal keeps the line feed and its token is on
      the line of the closing quote. */
  lemma MultiLineString()
    ensures TokensOf(Lex("\"a\nb\"").lexemes) ==
      [Token(String, "\"a\nb\"", StringValue("a\nb"), 2), Token(Eof, "", NoLiteral, 2)]
  {
    var s := "\"a\nb\"";
    assert s[0..5] == s && s[1..4] == "a\nb";
    StepThen(s, 0, 1, Effect(5, 2, Some(Lexeme(Token(String, s, StringValue("a\nb"), 2), 0, 5)), None, false),
      Run([EofLexeme(s, 2)], [], false));
  }

  /** An unterminated string is reported, then the scan reads past the end: no
      tokens, not even EOF. */
  lemma UnterminatedStringOverruns()
    ensures Lex("\"ab") == Run([], [Report(1, UnterminatedString)], true)
  {
  }

  /** An unterminated block comment reads past the end without any report. */
  lemma UnterminatedCommentOverruns()
    ensures Lex("/*a") == Run([], [], true)
  {
  }

  /** An unexpected character is reported and skipped; scanning goes on. */
  lemma StrayCharacter()
    ensures Lex("@1") == Run([Lexeme(Token(Number, "1", NumberValue("1"), 1), 1, 2), EofLexeme("@1", 1)],
                             [Report(1, UnexpectedCharacter)], false)
  {
    var s := "@1";
    var one := Lexeme(Token(Number, "1", NumberValue("1"), 1), 1, 2);
    assert s[1..2] == "1";
    StepThen(s, 1, 1, Effect(2, 1, Some(one), None, false), Run([EofLexeme(s, 1)], [], false));
    StepThen(s, 0, 1, Effect(1, 1, None, Some(Report(1, UnexpectedCharacter)), false), Run([one, EofLexeme(s, 1)], [], false));
  }

  /** Two-character operators are taken greedily, left to right. */
  lemma GreedyOperators()
    ensures TokensOf(Lex("!==").lexemes) ==
      [Token(BangEqual, "!=", NoLiteral, 1), Token(Equal, "=", NoLiteral, 1), Token(Eof, "", NoLiteral, 1)]
  {
    var s := "!==";
    var eq := Lexeme(Token(Equal, "=", NoLiteral, 1), 2, 3);
    assert s[0..2] == "!=" && s[2..3] == "=";
    StepThen(s, 2, 1, Effect(3, 1, Some(eq), None, false), Run([EofLexeme(s, 1)], [], false));
    StepThen(s, 0, 1, Effect(2, 1, Some(Lexeme(Token(BangEqual, "!=", NoLiteral, 1), 0, 2)), None, false),
      Run([eq, EofLexeme(s, 1)], [], false));
  }

  /** A dot not followed by a digit is not part of the number. */
  lemma TrailingDot()
    ensures TokensOf(Lex("1.").lexemes) ==
      [Token(Number, "1", NumberValue("1"), 1), Token(Dot, ".", NoLiteral, 1), Token(Eof, "", NoLiteral, 1)]
  {
    var s := "1.";
    var dot := Lexeme(Token(Dot, ".", NoLiteral, 1), 1, 2);
    assert s[0..1] == "1" && s[1..2] == ".";
    StepThen(s, 1, 1, Effect(2, 1, Some(dot), None, false), Run([EofLexeme(s, 1)], [], false));
    StepThen(s, 0, 1, Effect(1, 1, Some(Lexeme(Token(Number, "1", NumberValue("1"), 1), 0, 1)), None, false),
      Run([dot, EofLexeme(s, 1)], [], false));
  }
}
