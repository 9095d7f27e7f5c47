/** What the lexer of src/lexer.rs computes, as functions over the input and a cursor.
    The class in lexer.dfy is proved to compute exactly these. */
module LexerSpec {
  import opened Wrappers
  import opened Tokens

  datatype LexErrorKind =
    | UnexpectedCharacter(ch: char)   // a lone '&' or '|', or a character outside the alphabet
    | InvalidNumber                   // a digit run whose value does not fit an i64

  /** A lexer error and the line and column of the token it was reading. */
  datatype LexError = LexError(kind: LexErrorKind, line: nat, column: nat)

  /** The lexer's mutable state: the index of the next character and the
      line and column it reports for that character. */
  datatype Cursor = Cursor(pos: nat, line: nat, column: nat)

  /** The state of a fresh lexer. */
  const Start: Cursor := Cursor(0, 1, 1)

  // ---------------------------------------------------------------------------
  // Character classes. Rust's `is_alphabetic` and `is_alphanumeric` are Unicode
  // classifications; this model keeps their ASCII part only.
  // ---------------------------------------------------------------------------

  predicate IsDigit(c: char) {
    '0' <= c <= '9'
  }

  predicate IsAlphabetic(c: char) {
    'a' <= c <= 'z' || 'A' <= c <= 'Z'
  }

  predicate IsAlphanumeric(c: char) {
    IsAlphabetic(c) || IsDigit(c)
  }

  predicate IsIdentStart(c: char) {
    IsAlphabetic(c) || c == '_'
  }

  predicate IsIdentPart(c: char) {
    IsAlphanumeric(c) || c == '_'
  }

  /** Whitespace that moves the column on (space, tab, carriage return). */
  predicate IsBlank(c: char) {
    c == ' ' || c == '\t' || c == '\r'
  }

  predicate IsWhitespace(c: char) {
    IsBlank(c) || c == '\n'
  }

  /** `current_char`: the character under the cursor, or NUL past the end. */
  function CharAt(input: seq<char>, pos: nat): (c: char)
    ensures pos < |input| ==> c == input[pos]
    ensures pos >= |input| ==> c == '\0'
  {
    if pos >= |input| then '\0' else input[pos]
  }

  /** `advance`: one character on, except at the end of the input, where nothing moves. */
  function Advance(input: seq<char>, c: Cursor): (r: Cursor)
    ensures c.pos < |input| ==> r == Cursor(c.pos + 1, c.line, c.column + 1)
    ensures c.pos >= |input| ==> r == c
  {
    if c.pos < |input| then Cursor(c.pos + 1, c.line, c.column + 1) else c
  }

  /** `skip_whitespace`: skips the maximal run of whitespace; a newline moves to
      column 1 of the next line, every other blank moves one column on. */
  function SkipWhitespace(input: seq<char>, c: Cursor): (r: Cursor)
    requires c.pos <= |input|
    ensures c.pos <= r.pos <= |input|
    ensures forall k | c.pos <= k < r.pos :: IsWhitespace(input[k])
    ensures r.pos < |input| ==> !IsWhitespace(input[r.pos])
    decreases |input| - c.pos
  {
    if c.pos < |input| && IsBlank(input[c.pos]) then
      SkipWhitespace(input, Advance(input, c))
    else if c.pos < |input| && input[c.pos] == '\n' then
      SkipWhitespace(input, Cursor(c.pos + 1, c.line + 1, 1))
    else
      c
  }

  // ---------------------------------------------------------------------------
  // Numbers and identifiers
  // ---------------------------------------------------------------------------

  /** The end of the maximal run of ASCII digits that starts at `i`. */
  function DigitsEnd(input: seq<char>, i: nat): (r: nat)
    requires i <= |input|
    ensures i <= r <= |input|
    ensures forall k | i <= k < r :: IsDigit(input[k])
    ensures r < |input| ==> !IsDigit(input[r])
    decreases |input| - i
  {
    if i < |input| && IsDigit(input[i]) then DigitsEnd(input, i + 1) else i
  }

  /** The end of the maximal run of identifier characters that starts at `i`. */
  function IdentEnd(input: seq<char>, i: nat): (r: nat)
    requires i <= |input|
    ensures i <= r <= |input|
    ensures forall k | i <= k < r :: IsIdentPart(input[k])
    ensures r < |input| ==> !IsIdentPart(input[r])
    decreases |input| - i
  {
    if i < |input| && IsIdentPart(input[i]) then IdentEnd(input, i + 1) else i
  }

  function DigitValue(c: char): nat
    requires IsDigit(c)
  {
    (c as int - '0' as int) as nat
  }

  /** The value of a string of decimal digits, most significant digit first. */
  function DecimalValue(digits: seq<char>): nat
    requires forall k | 0 <= k < |digits| :: IsDigit(digits[k])
  {
    if |digits| == 0 then 0
    else 10 * DecimalValue(digits[..|digits| - 1]) + DigitValue(digits[|digits| - 1])
  }

  predicate AllDigits(s: seq<char>) {
    forall k | 0 <= k < |s| :: IsDigit(s[k])
  }

  /** `str::parse::<i64>` on the strings the lexer hands it (digits only):
      the value when there is at least one digit and it fits, and None otherwise. */
  function ParseI64(s: seq<char>): (r: Option<i64>)
    ensures r.Some? <==> |s| > 0 && AllDigits(s) && DecimalValue(s) <= I64_MAX
    ensures r.Some? ==> r.value as int == DecimalValue(s)
  {
    if |s| > 0 && AllDigits(s) && DecimalValue(s) <= I64_MAX then Some(DecimalValue(s) as i64) else None
  }

  /** `read_number`: the maximal digit run from `start`, parsed as an i64. */
  function ScanNumber(input: seq<char>, start: nat): (r: Result<(TokenType, nat), LexErrorKind>)
    requires start <= |input|
    ensures r.Ok? ==> r.value.1 == DigitsEnd(input, start) && r.value.0.Number?
  {
    var end := DigitsEnd(input, start);
    match ParseI64(input[start..end])
    case None => Err(InvalidNumber)
    case Some(v) => Ok((Number(v), end))
  }

  /** The six reserved words, and `Ident` with the exact text for every other word. */
  function KeywordOrIdent(word: string): TokenType {
    if word == "func" then Func
    else if word == "let" then Let
    else if word == "if" then If
    else if word == "else" then Else
    else if word == "while" then While
    else if word == "return" then Return
    else Ident(word)
  }

  /** `read_identifier`: the maximal identifier run from `start`. */
  function ScanIdentifier(input: seq<char>, start: nat): (r: (TokenType, nat))
    requires start <= |input|
    ensures r.1 == IdentEnd(input, start)
  {
    var end := IdentEnd(input, start);
    (KeywordOrIdent(input[start..end]), end)
  }

  /** The one-character tokens that need no look-ahead. */
  function SingleCharToken(ch: char): Option<TokenType> {
    match ch
    case '(' => Some(LParen)
    case ')' => Some(RParen)
    case '{' => Some(LBrace)
    case '}' => Some(RBrace)
    case ',' => Some(Comma)
    case ';' => Some(Semicolon)
    case '+' => Some(Plus)
    case '-' => Some(Minus)
    case '*' => Some(Star)
    case '/' => Some(Slash)
    case '%' => Some(Percent)
    case _ => None
  }

  /** `next_token` without the position bookkeeping: the kind of the token that
      starts at `start` and the index just past it, or the kind of error. */
  function ScanToken(input: seq<char>, start: nat): (r: Result<(TokenType, nat), LexErrorKind>)
    requires start <= |input|
    ensures r.Ok? ==> start < r.value.1 <= |input|
    ensures r.Ok? ==> !r.value.0.Eof?
    ensures r.Ok? ==> forall k | start <= k < r.value.1 :: input[k] != '\n'
  {
    var ch := CharAt(input, start);
    var next := CharAt(input, start + 1);
    if SingleCharToken(ch).Some? then Ok((SingleCharToken(ch).value, start + 1))
    else if ch == '=' then (if next == '=' then Ok((Eq, start + 2)) else Ok((Assign, start + 1)))
    else if ch == '!' then (if next == '=' then Ok((Ne, start + 2)) else Ok((Bang, start + 1)))
    else if ch == '<' then (if next == '=' then Ok((Le, start + 2)) else Ok((Lt, start + 1)))
    else if ch == '>' then (if next == '=' then Ok((Ge, start + 2)) else Ok((Gt, start + 1)))
    else if ch == '&' then (if next == '&' then Ok((And, start + 2)) else Err(UnexpectedCharacter('&')))
    else if ch == '|' then (if next == '|' then Ok((Or, start + 2)) else Err(UnexpectedCharacter('|')))
    else if IsDigit(ch) then ScanNumber(input, start)
    else if IsIdentStart(ch) then Ok(ScanIdentifier(input, start))
    else Err(UnexpectedCharacter(ch))
  }

  /** `next_token` from cursor `c`: the token, stamped with the line and column
      where it starts, and the cursor after it. */
  function NextToken(input: seq<char>, c: Cursor): (r: Result<(Token, Cursor), LexError>)
    requires c.pos <= |input|
    ensures r.Ok? ==> c.pos < r.value.1.pos <= |input|
  {
    match ScanToken(input, c.pos)
    case Err(k) => Err(LexError(k, c.line, c.column))
    case Ok((t, end)) => Ok((Token(t, c.line, c.column), Cursor(end, c.line, c.column + (end - c.pos))))
  }

  /** Where `next_token` leaves the cursor when it fails at `start`: one past a
      lone `&` or `|` (the character is stepped over before the next one is
      looked at), after the digit run of a number that does not fit an i64,
      and still on a character that starts no token. */
  function ErrorEnd(input: seq<char>, start: nat): (r: nat)
    requires start <= |input|
    ensures start <= r <= |input|
  {
    var ch := CharAt(input, start);
    if ch == '&' || ch == '|' then start + 1
    else if IsDigit(ch) then DigitsEnd(input, start)
    else start
  }

  /** Prepends `ts` to a successful token list and passes an error through. */
  function Prepend(ts: seq<Token>, r: Result<seq<Token>, LexError>): Result<seq<Token>, LexError> {
    match r
    case Err(e) => Err(e)
    case Ok(rest) => Ok(ts + rest)
  }

  /** `tokenize` from cursor `c`. */
  function LexFrom(input: seq<char>, c: Cursor): Result<seq<Token>, LexError>
    requires c.pos <= |input|
    decreases |input| - c.pos
  {
    var s := SkipWhitespace(input, c);
    if s.pos >= |input| then Ok([Token(Eof, s.line, s.column)])
    else
      match NextToken(input, s)
      case Err(e) => Err(e)
      case Ok((t, after)) => Prepend([t], LexFrom(input, after))
  }

  /** The cursor `tokenize` from `c` leaves behind: after the Eof token on
      success, and where the failing `next_token` stopped on an error. */
  function LexStop(input: seq<char>, c: Cursor): (r: Cursor)
    requires c.pos <= |input|
    ensures c.pos <= r.pos <= |input|
    decreases |input| - c.pos
  {
    var s := SkipWhitespace(input, c);
    if s.pos >= |input| then s
    else
      match NextToken(input, s)
      case Err(_) =>
        var e := ErrorEnd(input, s.pos);
        Cursor(e, s.line, s.column + (e - s.pos))
      case Ok((_, after)) => LexStop(input, after)
  }

  /** `Lexer::new(input).tokenize()`. */
  function Lex(input: seq<char>): Result<seq<Token>, LexError> {
    LexFrom(input, Start)
  }
}
