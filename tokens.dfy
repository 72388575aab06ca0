/** Tokens as the interpreter and the printers use them: a token type, the
    lexeme it was scanned from and its line (for error reports). */
module Tokens {

  /** The token types the evaluator and the printers dispatch on, plus the
      ones that name identifiers and punctuation carried by AST nodes. */
  datatype TokenType =
    | LeftParen | RightParen | Question | Colon
    | Minus | Plus | Slash | Star
    | Bang | BangEqual | Equal | EqualEqual
    | Greater | GreaterEqual | Less | LessEqual
    | Identifier | And | Or | ReturnKeyword

  datatype Token = Token(tokenType: TokenType, lexeme: string, line: int)
}
