/** Tokens and lexer status codes (token.h, error.h). */
module Tokens {

  /** The token kinds of token.h, plus the keyword and statement kinds that
      lex.cpp and c_gen.cpp use (True .. Block). */
  datatype TokenId =
    | Eof | Plus | Minus | Mult | Div | Mod | Exp | Ident
    | Less | LessEq | Greater | GreaterEq | Equal | NotEqual | Assign | Not
    | LParen | RParen | LBrace | RBrace | LBracket | RBracket
    | And | Or | Dot | At | Integer | Negate | String
    | Colon | Semicolon | Comma | Real | Comment | Null
    | True | False | If | Else | While | Print | Read | Int4 | Block

  /** A token: its kind, the line and column where it starts, and its text. */
  datatype Token = Token(id: TokenId, line: int, col: int, val: string)

  /** The error codes of error.h. */
  datatype ErrorCode = Ok | EndOfFile | UnexpectedEof | FileNotFound | InvalidChar | InvalidToken

  /** The status a lexer call returns: a code and the source position it reports. */
  datatype Error = Error(code: ErrorCode, line: int, col: int)

  predicate IsRelational(id: TokenId) {
    id == Equal || id == NotEqual || id == Less || id == LessEq || id == Greater || id == GreaterEq
  }

  predicate IsLogical(id: TokenId) {
    id == And || id == Or || id == Not || id == True || id == False
  }

  predicate IsArithmetic(id: TokenId) {
    id == Plus || id == Minus || id == Mult || id == Div || id == Mod
  }
}
