/** Tokens, errors and the result type shared by the lexer and the parser. */
module Tokens {

  /** The kinds of token the lexer produces, in the order of the `iota` constants. */
  datatype TokenType =
    | TokenString
    | TokenNumber
    | TokenBoolean
    | TokenNull
    | TokenLeftBrace
    | TokenRightBrace
    | TokenLeftBracket
    | TokenRightBracket
    | TokenColon
    | TokenComma
    | TokenEOF

  /** A token: its kind and the text the lexer recorded for it. */
  datatype Token = Token(kind: TokenType, value: string)

  /** Every point at which the program panics, as a value. */
  datatype Error =
    | UnexpectedKeyword(word: string)   // "Unexpected keyword: " + word
    | InvalidStart                      // "Invalid JSON start"
    | ExpectedKey                       // "Expected string key in object"
    | ExpectedColon                     // "Expected ':' after key"
    | ExpectedCommaOrBrace              // "Expected ',' or '}' in object"
    | ExpectedCommaOrBracket            // "Expected ',' or ']' in array"
    | UnexpectedToken(text: string)     // "Unexpected token: " + text

  /** A computation that either yields a value or stops with the error the program panics with. */
  datatype Result<+T> = Ok(value: T) | Err(error: Error) {
    predicate IsFailure() {
      Err?
    }

    function PropagateFailure<U>(): Result<U>
      requires Err?
    {
      Err(error)
    }

    function Extract(): T
      requires Ok?
    {
      value
    }
  }

  /** The outcome of a step that produces no value. */
  datatype Outcome = Pass | Fail(error: Error)
}
