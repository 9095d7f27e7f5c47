/** How the lexer's output meets the parser's input. */
module FrontEnd {
  import opened Wrappers
  import opened Tokens
  import LexerSpec
  import LexerProperties
  import ParserSpec

  /** Every token list the lexer produces is one the parser accepts as input:
      non-empty and ended by `Eof`, so the parser's cursor always has a
      token to look at. */
  lemma LexedTokensAreParsable(input: seq<char>)
    ensures LexerSpec.Lex(input).Ok? ==> ParserSpec.WellFormed(LexerSpec.Lex(input).value)
  {
    LexerProperties.LexEndsWithEof(input);
  }
}
