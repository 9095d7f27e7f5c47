/** The token vocabulary shared by the lexer and the parser (src/token.rs). */
module Tokens {

  /** Rust's `i64`. */
  newtype i64 = x: int | -0x8000_0000_0000_0000 <= x < 0x8000_0000_0000_0000

  const I64_MAX: int := 0x7FFF_FFFF_FFFF_FFFF

  datatype TokenType =
    // Literals
    | Number(value: i64)
    | Ident(name: string)
    // Keywords
    | Func | Let | If | Else | While | Return
    // Arithmetic operators
    | Plus | Minus | Star | Slash | Percent
    // Comparison operators
    | Lt | Le | Gt | Ge | Eq | Ne
    // Logical operators
    | And | Or | Bang
    // Assignment
    | Assign
    // Delimiters
    | LParen | RParen | LBrace | RBrace | Comma | Semicolon
    // End of input
    | Eof

  /** `std::mem::discriminant(a) == std::mem::discriminant(b)`: the same
      variant, whatever the fields of a number or an identifier hold. */
  predicate SameVariant(a: TokenType, b: TokenType) {
    if a.Number? then b.Number? else if a.Ident? then b.Ident? else a == b
  }

  /** A token with the 1-based line and column of its first character. */
  datatype Token = Token(typ: TokenType, line: nat, column: nat)
}
