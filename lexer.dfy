/** The lexer of src/lexer.rs as a class whose methods move a cursor over the
    input step by step; each method is proved to compute the function of
    LexerSpec that describes it. */
module Lexer {
  import opened Wrappers
  import opened Tokens
  import opened LexerSpec

  class Lexer {
    const input: seq<char>
    var position: nat
    var line: nat
    var column: nat

    /** The cursor the fields make up. */
    ghost function State(): Cursor
      reads this
    {
      Cursor(position, line, column)
    }

    /** The cursor never passes the end of the input. */
    ghost predicate Valid()
      reads this
    {
      position <= |input|
    }

    /** `Lexer::new`: line 1, column 1, at the first character. */
    constructor (input: seq<char>)
      ensures this.input == input
      ensures Valid() && State() == Start
    {
      this.input := input;
      position := 0;
      line := 1;
      column := 1;
    }

    function IsAtEnd(): (b: bool)
      reads this
      ensures b <==> position >= |input|
    {
      position >= |input|
    }

    function CurrentChar(): (c: char)
      reads this
      ensures c == CharAt(input, position)
    {
      if IsAtEnd() then '\0' else input[position]
    }

    method Advance()
      requires Valid()
      modifies this`position, this`column
      ensures Valid() && State() == LexerSpec.Advance(input, old(State()))
    {
      if !IsAtEnd() {
        position := position + 1;
        column := column + 1;
      }
    }

    method SkipWhitespace()
      requires Valid()
      modifies this`position, this`line, this`column
      ensures Valid() && State() == LexerSpec.SkipWhitespace(input, old(State()))
    {
      while !IsAtEnd()
        invariant Valid()
        invariant LexerSpec.SkipWhitespace(input, State()) == LexerSpec.SkipWhitespace(input, old(State()))
        decreases |input| - position
      {
        var ch := CurrentChar();
        if ch == ' ' || ch == '\t' || ch == '\r' {
          Advance();
        } else if ch == '\n' {
          line := line + 1;
          column := 1;
          position := position + 1;
        } else {
          break;
        }
      }
    }

    method ReadNumber(startLine: nat, startColumn: nat) returns (r: Result<Token, LexError>)
      requires Valid()
      modifies this`position, this`column
      ensures Valid()
      ensures position == DigitsEnd(input, old(position))
      ensures column == old(column) + (position - old(position))
      ensures r == match ScanNumber(input, old(position))
                   case Err(k) => Err(LexError(k, startLine, startColumn))
                   case Ok((t, _)) => Ok(Token(t, startLine, startColumn))
    {
      var numStr := "";
      while !IsAtEnd() && IsDigit(CurrentChar())
        invariant Valid() && old(position) <= position
        invariant numStr == input[old(position)..position]
        invariant column == old(column) + (position - old(position))
        invariant DigitsEnd(input, position) == DigitsEnd(input, old(position))
        decreases |input| - position
      {
        numStr := numStr + [CurrentChar()];
        Advance();
      }
      match ParseI64(numStr) {
        case None =>
          r := Err(LexError(InvalidNumber, startLine, startColumn));
        case Some(value) =>
          r := Ok(Token(Number(value), startLine, startColumn));
      }
    }

    method ReadIdentifier(startLine: nat, startColumn: nat) returns (r: Result<Token, LexError>)
      requires Valid()
      modifies this`position, this`column
      ensures Valid()
      ensures position == IdentEnd(input, old(position))
      ensures column == old(column) + (position - old(position))
      ensures r == Ok(Token(ScanIdentifier(input, old(position)).0, startLine, startColumn))
    {
      var ident := "";
      while !IsAtEnd()
        invariant Valid() && old(position) <= position
        invariant ident == input[old(position)..position]
        invariant column == old(column) + (position - old(position))
        invariant IdentEnd(input, position) == IdentEnd(input, old(position))
        decreases |input| - position
      {
        var ch := CurrentChar();
        if IsAlphanumeric(ch) || ch == '_' {
          ident := ident + [ch];
          Advance();
        } else {
          break;
        }
      }
      r := Ok(Token(KeywordOrIdent(ident), startLine, startColumn));
    }

    /** The step every two-character operator begins with: advance past the
        first character, then past `second` too when it comes next. */
    method AdvancePast(second: char) returns (two: bool)
      requires Valid() && !IsAtEnd() && second != '\0'
      modifies this`position, this`column
      ensures Valid() && line == old(line)
      ensures two <==> CharAt(input, old(position) + 1) == second
      ensures position == old(position) + (if two then 2 else 1)
      ensures column == old(column) + (position - old(position))
    {
      Advance();
      two := CurrentChar() == second;
      if two {
        Advance();
      }
    }

    /** The branch of `next_token` for `=`, `!`, `<` and `>`, each of which
        makes a two-character operator when `=` follows. */
    method ReadComparison(startLine: nat, startColumn: nat) returns (r: Result<Token, LexError>)
      requires Valid() && CurrentChar() in "=!<>"
      modifies this`position, this`column
      ensures Valid()
      ensures match ScanToken(input, old(position))
              case Ok((t, end)) => r == Ok(Token(t, startLine, startColumn)) && position == end
                                   && line == old(line) && column == old(column) + (end - old(position))
              case Err(k) => r == Err(LexError(k, startLine, startColumn))
    {
      var ch := CurrentChar();
      ghost var scanned := ScanToken(input, position);
      assert SingleCharToken(ch).None?;
      var two := AdvancePast('=');
      var t := if ch == '=' then (if two then Eq else Assign)
               else if ch == '!' then (if two then Ne else Bang)
               else if ch == '<' then (if two then Le else Lt)
               else (if two then Ge else Gt);
      assert scanned == Ok((t, position));
      return Ok(Token(t, startLine, startColumn));
    }

    /** The branch of `next_token` for `&` and `|`, which only exist doubled. */
    method ReadLogical(startLine: nat, startColumn: nat) returns (r: Result<Token, LexError>)
      requires Valid() && CurrentChar() in "&|"
      modifies this`position, this`column
      ensures Valid()
      ensures match ScanToken(input, old(position))
              case Ok((t, end)) => r == Ok(Token(t, startLine, startColumn)) && position == end
                                   && line == old(line) && column == old(column) + (end - old(position))
              case Err(k) => r == Err(LexError(k, startLine, startColumn)) && position == old(position) + 1
                             && line == old(line) && column == old(column) + 1
    {
      var ch := CurrentChar();
      ghost var scanned := ScanToken(input, position);
      assert SingleCharToken(ch).None?;
      var two := AdvancePast(ch);
      if two {
        var t := if ch == '&' then And else Or;
        assert scanned == Ok((t, position));
        return Ok(Token(t, startLine, startColumn));
      }
      assert scanned == Err(UnexpectedCharacter(ch));
      return Err(LexError(UnexpectedCharacter(ch), startLine, startColumn));
    }

    method NextToken() returns (r: Result<Token, LexError>)
      requires Valid()
      modifies this`position, this`column
      ensures Valid()
      ensures match LexerSpec.NextToken(input, old(State()))
              case Ok((t, after)) => r == Ok(t) && State() == after
              case Err(e) => r == Err(e) && position == ErrorEnd(input, old(position))
                             && line == old(line) && column == old(column) + (position - old(position))
    {
      var startLine := line;
      var startColumn := column;
      var ch := CurrentChar();
      ghost var scanned := ScanToken(input, position);

      // Single-character tokens
      var single := SingleCharToken(ch);
      if single.Some? {
        assert scanned == Ok((single.value, old(position) + 1));
        Advance();
        return Ok(Token(single.value, startLine, startColumn));
      }

      // Operators of one or two characters
      if ch in "=!<>" {
        r := ReadComparison(startLine, startColumn);
        return;
      }
      if ch in "&|" {
        r := ReadLogical(startLine, startColumn);
        return;
      }

      // Numbers
      if IsDigit(ch) {
        assert scanned == ScanNumber(input, old(position));
        r := ReadNumber(startLine, startColumn);
        return;
      }

      // Identifiers and keywords
      if IsAlphabetic(ch) || ch == '_' {
        assert scanned == Ok(ScanIdentifier(input, old(position)));
        r := ReadIdentifier(startLine, startColumn);
        return;
      }

      assert scanned == Err(UnexpectedCharacter(ch));
      return Err(LexError(UnexpectedCharacter(ch), startLine, startColumn));
    }

    method Tokenize() returns (r: Result<seq<Token>, LexError>)
      requires Valid()
      modifies this`position, this`line, this`column
      ensures Valid()
      ensures r == LexFrom(input, old(State()))
      ensures State() == LexStop(input, old(State()))
      ensures r.Ok? ==> position == |input| && r.value[|r.value| - 1] == Token(Eof, line, column)
    {
      var tokens: seq<Token> := [];
      PrependNothing(LexFrom(input, State()));
      while true
        invariant Valid()
        invariant LexFrom(input, old(State())) == Prepend(tokens, LexFrom(input, State()))
        invariant LexStop(input, old(State())) == LexStop(input, State())
        decreases |input| - position
      {
        SkipWhitespace();
        if IsAtEnd() {
          tokens := tokens + [Token(Eof, line, column)];
          break;
        }
        var token :- NextToken();
        PrependTwice(tokens, token, LexFrom(input, State()));
        tokens := tokens + [token];
      }
      return Ok(tokens);
    }
  }

  lemma PrependNothing(r: Result<seq<Token>, LexError>)
    ensures Prepend([], r) == r
  {
    if r.Ok? {
      assert [] + r.value == r.value;
    }
  }

  lemma PrependTwice(ts: seq<Token>, t: Token, r: Result<seq<Token>, LexError>)
    ensures Prepend(ts, Prepend([t], r)) == Prepend(ts + [t], r)
  {
    if r.Ok? {
      assert ts + ([t] + r.value) == (ts + [t]) + r.value;
    }
  }
}
