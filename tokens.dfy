/** Stock utilities: an optional value and sequence concatenation facts. */
module Wrappers {

  lemma AppendAssoc<T>(a: seq<T>, b: seq<T>, c: seq<T>)
    ensures (a + b) + c == a + (b + c)
  {
  }

  datatype Option<+T> = None | Some(value: T) {

    /** The value as a sequence of length zero or one. */
    function ToSeq(): seq<T> {
      if Some? then [value] else []
    }
  }
}

/** The vocabulary the Lox scanner produces: token categories, the token record,
    the reserved-word table and the (line, message) record it reports to the
    diagnostic sink. */
module LoxTokens {

  datatype TokenType =
    // single-character punctuation
    | LeftParen | RightParen | LeftBrace | RightBrace
    | Comma | Dot | Minus | Plus | Semicolon | Slash | Star
    // one- or two-character operators
    | Bang | BangEqual | Equal | EqualEqual
    | Greater | GreaterEqual | Less | LessEqual
    // literals
    | Identifier | String | Number
    // reserved words
    | And | Class | Else | False | Fun | For | If | Nil | Or
    | Print | Return | Super | This | True | Var | While
    | Eof

  /** The token's literal value: Java's `null`, a `String`, or a `Double`.
      A number is carried by the digits the conversion would read. */
  datatype Literal = NoLiteral | StringValue(text: string) | NumberValue(digits: string)

  datatype Token = Token(tokenType: TokenType, lexeme: string, literal: Literal, line: int)

  /** One call of the diagnostic sink `Lox.error(line, message)`. */
  datatype Report = Report(line: int, message: string)

  const UnexpectedCharacter: string := "Unexpected character"
  const UnterminatedString: string := "Unterminated string"

  /** The static reserved-word table. */
  const Keywords: map<string, TokenType> := map[
    "and" := And,
    "class" := Class,
    "else" := Else,
    "false" := False,
    "for" := For,
    "fun" := Fun,
    "if" := If,
    "nil" := Nil,
    "or" := Or,
    "print" := Print,
    "return" := Return,
    "super" := Super,
    "this" := This,
    "true" := True,
    "var" := Var,
    "while" := While
  ]

  /** The token types the reserved words map to. */
  predicate IsReserved(t: TokenType) {
    t in {And, Class, Else, False, For, Fun, If, Nil, Or, Print, Return, Super, This, True, Var, While}
  }
}
