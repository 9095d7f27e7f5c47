/** Properties of the lexer of src/lexer.rs, stated over the functions of
    LexerSpec (which the Lexer class is proved to compute). */
module LexerProperties {
  import opened Wrappers
  import opened Tokens
  import opened LexerSpec

  /** The token kinds of a token list. */
  function Types(ts: seq<Token>): (r: seq<TokenType>)
    ensures |r| == |ts|
    ensures forall i | 0 <= i < |ts| :: r[i] == ts[i].typ
  {
    seq(|ts|, i requires 0 <= i < |ts| => ts[i].typ)
  }

  // ---------------------------------------------------------------------------
  // The token list ends with Eof, and only there
  // ---------------------------------------------------------------------------

  predicate EndsWithEof(ts: seq<Token>) {
    && |ts| > 0
    && ts[|ts| - 1].typ.Eof?
    && forall i | 0 <= i < |ts| - 1 :: !ts[i].typ.Eof?
  }

  lemma {:induction false} LexFromEndsWithEof(input: seq<char>, c: Cursor)
    requires c.pos <= |input|
    ensures LexFrom(input, c).Ok? ==> EndsWithEof(LexFrom(input, c).value)
    decreases |input| - c.pos
  {
    var s := SkipWhitespace(input, c);
    if s.pos < |input| {
      match NextToken(input, s)
      case Err(_) =>
      case Ok((t, after)) =>
        LexFromEndsWithEof(input, after);
        assert !t.typ.Eof?;
        if LexFrom(input, after).Ok? {
          var rest := LexFrom(input, after).value;
          assert LexFrom(input, c).value == [t] + rest;
        }
    }
  }

  /** A successful `tokenize` returns a non-empty list whose last token, and
      only that one, is Eof. */
  lemma LexEndsWithEof(input: seq<char>)
    ensures Lex(input).Ok? ==> EndsWithEof(Lex(input).value)
  {
    LexFromEndsWithEof(input, Start);
  }

  /** After a successful `tokenize` the cursor is at the end of the input, and
      the Eof token carries the cursor's line and column. */
  lemma {:induction false} LexStopAtEof(input: seq<char>, c: Cursor)
    requires c.pos <= |input|
    ensures LexFrom(input, c).Ok? ==>
              && LexStop(input, c).pos == |input|
              && |LexFrom(input, c).value| > 0
              && Last(LexFrom(input, c).value) == Token(Eof, LexStop(input, c).line, LexStop(input, c).column)
    decreases |input| - c.pos
  {
    var s := SkipWhitespace(input, c);
    if s.pos < |input| {
      match NextToken(input, s)
      case Err(_) =>
      case Ok((t, after)) =>
        LexStopAtEof(input, after);
        if LexFrom(input, after).Ok? {
          var rest := LexFrom(input, after).value;
          assert LexFrom(input, c).value == [t] + rest;
          assert Last([t] + rest) == Last(rest);
        }
    }
  }

  /** The last token of a non-empty list. */
  function Last(ts: seq<Token>): Token
    requires |ts| > 0
  {
    ts[|ts| - 1]
  }

  // ---------------------------------------------------------------------------
  // Line and column bookkeeping, against line and column computed by counting
  // ---------------------------------------------------------------------------

  /** The line of index `p`: one more than the number of newlines before it. */
  function LineOf(input: seq<char>, p: nat): (l: nat)
    requires p <= |input|
    ensures l >= 1
  {
    if p == 0 then 1 else LineOf(input, p - 1) + (if input[p - 1] == '\n' then 1 else 0)
  }

  /** The column of index `p`: one more than the number of characters between
      the last newline before it (or the start of the input) and `p`. */
  function ColumnOf(input: seq<char>, p: nat): (k: nat)
    requires p <= |input|
    ensures k >= 1
  {
    if p == 0 then 1 else if input[p - 1] == '\n' then 1 else ColumnOf(input, p - 1) + 1
  }

  /** The cursor standing at index `p` with the line and column counted. */
  function At(input: seq<char>, p: nat): Cursor
    requires p <= |input|
  {
    Cursor(p, LineOf(input, p), ColumnOf(input, p))
  }

  /** The index `skip_whitespace` stops at, whatever line and column it reports. */
  function WsEnd(input: seq<char>, p: nat): (r: nat)
    requires p <= |input|
    ensures p <= r <= |input|
    ensures forall k | p <= k < r :: IsWhitespace(input[k])
    ensures r < |input| ==> !IsWhitespace(input[r])
    decreases |input| - p
  {
    if p < |input| && IsWhitespace(input[p]) then WsEnd(input, p + 1) else p
  }

  lemma {:induction false} SkipEnd(input: seq<char>, c: Cursor)
    requires c.pos <= |input|
    ensures SkipWhitespace(input, c).pos == WsEnd(input, c.pos)
    decreases |input| - c.pos
  {
    if c.pos < |input| && IsBlank(input[c.pos]) {
      SkipEnd(input, Advance(input, c));
    } else if c.pos < |input| && input[c.pos] == '\n' {
      SkipEnd(input, Cursor(c.pos + 1, c.line + 1, 1));
    }
  }

  /** Started from a correctly counted cursor, `skip_whitespace` ends on one:
      a newline moves to column 1 of the next line, any other blank one column on. */
  lemma {:induction false} SkipTracks(input: seq<char>, p: nat)
    requires p <= |input|
    ensures SkipWhitespace(input, At(input, p)) == At(input, WsEnd(input, p))
    decreases |input| - p
  {
    if p < |input| && IsBlank(input[p]) {
      assert Advance(input, At(input, p)) == At(input, p + 1);
      SkipTracks(input, p + 1);
    } else if p < |input| && input[p] == '\n' {
      assert Cursor(p + 1, LineOf(input, p) + 1, 1) == At(input, p + 1);
      SkipTracks(input, p + 1);
    }
  }

  /** Over a stretch without newlines the line stays and the column grows by its length. */
  lemma {:induction false} NoNewlineTracks(input: seq<char>, p: nat, q: nat)
    requires p <= q <= |input|
    requires forall k | p <= k < q :: input[k] != '\n'
    ensures LineOf(input, q) == LineOf(input, p)
    ensures ColumnOf(input, q) == ColumnOf(input, p) + (q - p)
    decreases q - p
  {
    if q > p {
      NoNewlineTracks(input, p, q - 1);
    }
  }

  /** `next_token` from a correctly counted cursor stamps the token (or the
      error) with the line and column of its first character and ends on a
      correctly counted cursor. */
  lemma NextTracks(input: seq<char>, p: nat)
    requires p <= |input|
    ensures match NextToken(input, At(input, p))
            case Ok((t, after)) =>
              && t.line == LineOf(input, p) && t.column == ColumnOf(input, p)
              && after.pos <= |input| && after == At(input, after.pos)
            case Err(e) =>
              e.line == LineOf(input, p) && e.column == ColumnOf(input, p)
  {
    match ScanToken(input, p)
    case Err(_) =>
    case Ok((_, end)) => NoNewlineTracks(input, p, end);
  }

  /** The index where each token lexed from `p` starts; the Eof token starts at
      the end of the input. When lexing fails the last index is where the
      offending token starts. */
  function StartsFrom(input: seq<char>, p: nat): (r: seq<nat>)
    requires p <= |input|
    ensures |r| > 0 && r[0] == WsEnd(input, p)
    ensures forall i | 0 <= i < |r| :: p <= r[i] <= |input|
    decreases |input| - p
  {
    var s := WsEnd(input, p);
    if s >= |input| then [s]
    else
      match ScanToken(input, s)
      case Err(_) => [s]
      case Ok((_, end)) => [s] + StartsFrom(input, end)
  }

  /** Token `t` is the one whose first character is at index `s`: it carries the
      line and column of `s`, and it is what scanning from `s` finds (or Eof at
      the end of the input). */
  predicate TokenAt(input: seq<char>, t: Token, s: nat) {
    && s <= |input|
    && t.line == LineOf(input, s)
    && t.column == ColumnOf(input, s)
    && (t.typ.Eof? ==> s == |input|)
    && (!t.typ.Eof? ==>
          && s < |input|
          && !IsWhitespace(input[s])
          && ScanToken(input, s).Ok?
          && ScanToken(input, s).value.0 == t.typ)
  }

  predicate Increasing(starts: seq<nat>) {
    forall i | 0 <= i < |starts| - 1 :: starts[i] < starts[i + 1]
  }

  /** `ts[i]` starts at `starts[i]`, and the start indices increase. */
  predicate Positions(input: seq<char>, ts: seq<Token>, starts: seq<nat>) {
    && |starts| == |ts|
    && Increasing(starts)
    && forall i | 0 <= i < |ts| :: TokenAt(input, ts[i], starts[i])
  }

  /** Error `e` is the failure to scan a token whose first character is at `s`,
      reported at the line and column of `s`. */
  predicate ErrorAt(input: seq<char>, e: LexError, s: nat) {
    && s < |input|
    && ScanToken(input, s) == Err(e.kind)
    && e.line == LineOf(input, s)
    && e.column == ColumnOf(input, s)
  }

  lemma ConsPositions(input: seq<char>, t: Token, s: nat, ts: seq<Token>, starts: seq<nat>)
    requires TokenAt(input, t, s)
    requires Positions(input, ts, starts)
    requires |starts| > 0 ==> s < starts[0]
    ensures Positions(input, [t] + ts, [s] + starts)
  {
    var all, at := [t] + ts, [s] + starts;
    forall i | 0 <= i < |all|
      ensures TokenAt(input, all[i], at[i])
    {
      if i > 0 {
        assert all[i] == ts[i - 1] && at[i] == starts[i - 1];
      }
    }
  }

  /** One step of the lexing loop from `p`: the token whose first character
      is at `s`, then whatever lexing from its end gives. */
  lemma PositionsStep(input: seq<char>, p: nat, s: nat, t: Token, end: nat)
    requires p <= |input| && s == WsEnd(input, p) && s < |input|
    requires ScanToken(input, s) == Ok((t.typ, end))
    requires t == Token(t.typ, LineOf(input, s), ColumnOf(input, s))
    ensures TokenAt(input, t, s) && s < end <= |input|
    ensures LexFrom(input, At(input, p)) == Prepend([t], LexFrom(input, At(input, end)))
    ensures StartsFrom(input, p) == [s] + StartsFrom(input, end)
  {
    SkipTracks(input, p);
    NextTracks(input, s);
    assert NextToken(input, At(input, s)) == Ok((t, At(input, end)));
  }

  lemma {:induction false} LexFromPositions(input: seq<char>, p: nat)
    requires p <= |input|
    ensures var starts := StartsFrom(input, p);
            match LexFrom(input, At(input, p))
            case Ok(ts) => Positions(input, ts, starts)
            case Err(e) => ErrorAt(input, e, starts[|starts| - 1])
    decreases |input| - p
  {
    var s := WsEnd(input, p);
    SkipTracks(input, p);
    if s < |input| {
      NextTracks(input, s);
      var r := ScanToken(input, s);
      if r.Ok? {
        var end := r.value.1;
        var t := Token(r.value.0, LineOf(input, s), ColumnOf(input, s));
        PositionsStep(input, p, s, t, end);
        LexFromPositions(input, end);
        var rest := LexFrom(input, At(input, end));
        if rest.Ok? {
          ConsPositions(input, t, s, rest.value, StartsFrom(input, end));
        }
      }
    }
  }

  /** Every token `tokenize` returns records the line and column of its first
      character, counted from line 1, column 1, with a newline moving to the
      next line; an error is reported at the first character of the token that
      could not be scanned. */
  lemma TokenPositions(input: seq<char>)
    ensures var starts := StartsFrom(input, 0);
            match Lex(input)
            case Ok(ts) => Positions(input, ts, starts)
            case Err(e) => ErrorAt(input, e, starts[|starts| - 1])
  {
    assert At(input, 0) == Start;
    LexFromPositions(input, 0);
  }

  // ---------------------------------------------------------------------------
  // Which characters start which tokens
  // ---------------------------------------------------------------------------

  predicate OneCharComparison(t: TokenType) {
    t.Assign? || t.Bang? || t.Lt? || t.Gt?
  }

  lemma OneCharScan(input: seq<char>, s: nat)
    requires s <= |input|
    ensures ScanToken(input, s).Ok? && OneCharComparison(ScanToken(input, s).value.0) ==>
              CharAt(input, s + 1) != '='
  {
  }

  /** In tokens placed at their start indices, no one-character `=`, `!`, `<`
      or `>` token is followed by `=`. */
  lemma GreedyAt(input: seq<char>, ts: seq<Token>, starts: seq<nat>)
    requires Positions(input, ts, starts)
    ensures forall i | 0 <= i < |ts| :: OneCharComparison(ts[i].typ) ==> CharAt(input, starts[i] + 1) != '='
  {
    forall i | 0 <= i < |ts| && OneCharComparison(ts[i].typ)
      ensures CharAt(input, starts[i] + 1) != '='
    {
      assert TokenAt(input, ts[i], starts[i]);
      OneCharScan(input, starts[i]);
    }
  }

  /** `==`, `!=`, `<=` and `>=` are matched greedily: the one-character `=`,
      `!`, `<` and `>` tokens of a lexed input are never followed by `=`. */
  lemma GreedyOperators(input: seq<char>)
    ensures Lex(input).Ok? ==> |StartsFrom(input, 0)| == |Lex(input).value|
    ensures Lex(input).Ok? ==>
              forall i | 0 <= i < |Lex(input).value| ::
                OneCharComparison(Lex(input).value[i].typ) ==>
                  CharAt(input, StartsFrom(input, 0)[i] + 1) != '='
  {
    TokenPositions(input);
    if Lex(input).Ok? {
      GreedyAt(input, Lex(input).value, StartsFrom(input, 0));
    }
  }

  /** The characters a token can start with. */
  predicate InAlphabet(ch: char) {
    SingleCharToken(ch).Some? || ch in "=!<>&|" || IsDigit(ch) || IsIdentStart(ch)
  }

  /** Scanning fails exactly on a lone `&` or `|`, on a number too large for an
      i64, and on a character outside the alphabet; the error names the kind. */
  lemma ScanErrors(input: seq<char>, s: nat)
    requires s < |input|
    ensures var ch := input[s];
            var next := CharAt(input, s + 1);
            ScanToken(input, s).Err? <==>
              || (ch == '&' && next != '&')
              || (ch == '|' && next != '|')
              || (IsDigit(ch) && DecimalValue(input[s..DigitsEnd(input, s)]) > I64_MAX)
              || !InAlphabet(ch)
    ensures var ch := input[s];
            ScanToken(input, s).Err? ==>
              ScanToken(input, s).error == (if IsDigit(ch) then InvalidNumber else UnexpectedCharacter(ch))
  {
    var ch := input[s];
    if IsDigit(ch) {
      assert SingleCharToken(ch).None? && ch !in "=!<>&|";
      var d := input[s..DigitsEnd(input, s)];
      assert |d| > 0 && AllDigits(d);
    }
  }

  /** A digit starts a number. */
  lemma DigitScan(input: seq<char>, s: nat)
    requires s < |input| && IsDigit(input[s])
    ensures ScanToken(input, s) == ScanNumber(input, s)
  {
    assert SingleCharToken(input[s]).None? && input[s] !in "=!<>&|";
  }

  /** `read_number` on a digit run: its value when that fits an i64, and
      InvalidNumber otherwise. */
  lemma ScanNumberValue(input: seq<char>, s: nat)
    requires s < |input| && IsDigit(input[s])
    ensures var end := DigitsEnd(input, s);
            var v := DecimalValue(input[s..end]);
            && s < end
            && (v <= I64_MAX ==> ScanNumber(input, s) == Ok((Number(v as i64), end)))
            && (v > I64_MAX ==> ScanNumber(input, s) == Err(InvalidNumber))
  {
    var d := input[s..DigitsEnd(input, s)];
    assert AllDigits(d);
  }

  /** A number is the maximal run of digits; it scans to its value when that
      fits an i64 and to InvalidNumber otherwise. */
  lemma ScanNumbers(input: seq<char>, s: nat)
    requires s < |input| && IsDigit(input[s])
    ensures var end := DigitsEnd(input, s);
            var v := DecimalValue(input[s..end]);
            && s < end
            && (v <= I64_MAX ==> ScanToken(input, s) == Ok((Number(v as i64), end)))
            && (v > I64_MAX ==> ScanToken(input, s) == Err(InvalidNumber))
  {
    DigitScan(input, s);
    ScanNumberValue(input, s);
  }

  // ---------------------------------------------------------------------------
  // Rendering tokens back to text, and lexing the rendering
  // ---------------------------------------------------------------------------

  function DigitChar(d: nat): (c: char)
    requires d < 10
    ensures IsDigit(c) && DigitValue(c) == d
  {
    ('0' as int + d) as char
  }

  /** The decimal spelling of `n`, without leading zeros. */
  function DecimalDigits(n: nat): (s: string)
    ensures |s| > 0 && AllDigits(s)
    decreases n
  {
    if n < 10 then [DigitChar(n)] else DecimalDigits(n / 10) + [DigitChar(n % 10)]
  }

  lemma {:induction false} DecimalRoundTrip(n: nat)
    ensures DecimalValue(DecimalDigits(n)) == n
    decreases n
  {
    if n >= 10 {
      DecimalRoundTrip(n / 10);
      var s := DecimalDigits(n);
      assert s[..|s| - 1] == DecimalDigits(n / 10);
    }
  }

  predicate IsKeyword(w: string) {
    w == "func" || w == "let" || w == "if" || w == "else" || w == "while" || w == "return"
  }

  /** The decimal text of a number, with a minus sign when it is negative. */
  function NumberText(v: i64): string {
    if v >= 0 then DecimalDigits(v as int) else "-" + DecimalDigits(-(v as int))
  }

  /** The source text of a token kind. */
  function Spelling(t: TokenType): string {
    match t
    case Number(v) => NumberText(v)
    case Ident(name) => name
    case Func => "func"
    case Let => "let"
    case If => "if"
    case Else => "else"
    case While => "while"
    case Return => "return"
    case Plus => "+"
    case Minus => "-"
    case Star => "*"
    case Slash => "/"
    case Percent => "%"
    case Lt => "<"
    case Le => "<="
    case Gt => ">"
    case Ge => ">="
    case Eq => "=="
    case Ne => "!="
    case And => "&&"
    case Or => "||"
    case Bang => "!"
    case Assign => "="
    case LParen => "("
    case RParen => ")"
    case LBrace => "{"
    case RBrace => "}"
    case Comma => ","
    case Semicolon => ";"
    case Eof => ""
  }

  /** Exactly the six reserved words become keyword tokens, spelled as written;
      every other word becomes `Ident` with the exact text. */
  lemma KeywordsExactly(w: string)
    ensures KeywordOrIdent(w).Ident? <==> !IsKeyword(w)
    ensures KeywordOrIdent(w).Ident? ==> KeywordOrIdent(w).name == w
    ensures Spelling(KeywordOrIdent(w)) == w
  {
  }

  /** An identifier the lexer reads back as `Ident`: a letter or `_`, then
      letters, digits or `_`, and not a reserved word. */
  predicate ValidIdent(w: string) {
    && |w| > 0
    && IsIdentStart(w[0])
    && (forall k | 0 <= k < |w| :: IsIdentPart(w[k]))
    && !IsKeyword(w)
  }

  /** The token kinds that the lexer can produce from their spelling. */
  predicate Lexable(t: TokenType) {
    match t
    case Number(v) => v >= 0
    case Ident(w) => ValidIdent(w)
    case Eof => false
    case _ => true
  }

  predicate AllLexable(ts: seq<TokenType>) {
    forall i | 0 <= i < |ts| :: Lexable(ts[i])
  }

  predicate IsWord(t: TokenType) {
    t.Ident? || t.Func? || t.Let? || t.If? || t.Else? || t.While? || t.Return?
  }

  /** Whether character `c`, right after the spelling of `t`, stops the scan of
      `t`: a word needs a character outside identifiers after it, a number a
      non-digit, and `=`, `!`, `<`, `>` anything but `=`. */
  predicate Ends(t: TokenType, c: char) {
    if IsWord(t) then !IsIdentPart(c)
    else if t.Number? then !IsDigit(c)
    else if OneCharComparison(t) then c != '='
    else true
  }

  /** Words run together, each preceded by a space when `spaced` says so. */
  function Joined(words: seq<string>, spaced: seq<bool>): string
    requires |spaced| == |words|
    decreases |words|
  {
    if |words| == 0 then ""
    else (if spaced[0] then " " else "") + words[0] + Joined(words[1..], spaced[1..])
  }

  function Words(ts: seq<TokenType>): (ws: seq<string>)
    ensures |ws| == |ts|
    ensures forall i | 0 <= i < |ts| :: ws[i] == Spelling(ts[i])
  {
    seq(|ts|, i requires 0 <= i < |ts| => Spelling(ts[i]))
  }

  /** The token kinds spelled out, each preceded by a space when `spaced` says so. */
  function Layout(ts: seq<TokenType>, spaced: seq<bool>): string
    requires |spaced| == |ts|
  {
    Joined(Words(ts), spaced)
  }

  /** `b` written right after `a`, with no space, does not run into it. */
  predicate Joins(a: TokenType, b: TokenType) {
    |Spelling(b)| > 0 && Ends(a, Spelling(b)[0])
  }

  /** Every two neighbouring tokens without a space between them do not run together. */
  predicate Separated(ts: seq<TokenType>, spaced: seq<bool>)
    requires |spaced| == |ts|
    decreases |ts|
  {
    |ts| <= 1 || ((spaced[1] || Joins(ts[0], ts[1])) && Separated(ts[1..], spaced[1..]))
  }

  lemma {:induction false} JoinedAppend(a: seq<string>, sa: seq<bool>, b: seq<string>, sb: seq<bool>)
    requires |sa| == |a| && |sb| == |b|
    ensures Joined(a + b, sa + sb) == Joined(a, sa) + Joined(b, sb)
    decreases |a|
  {
    if |a| > 0 {
      JoinedAppend(a[1..], sa[1..], b, sb);
      assert (a + b)[1..] == a[1..] + b;
      assert (sa + sb)[1..] == sa[1..] + sb;
    } else {
      assert a + b == b && sa + sb == sb;
    }
  }

  lemma LayoutAppend(a: seq<TokenType>, sa: seq<bool>, b: seq<TokenType>, sb: seq<bool>)
    requires |sa| == |a| && |sb| == |b|
    ensures Layout(a + b, sa + sb) == Layout(a, sa) + Layout(b, sb)
  {
    assert Words(a + b) == Words(a) + Words(b);
    JoinedAppend(Words(a), sa, Words(b), sb);
  }

  lemma {:induction false} SeparatedAppend(a: seq<TokenType>, sa: seq<bool>, b: seq<TokenType>, sb: seq<bool>)
    requires |sa| == |a| && |sb| == |b| && |a| > 0 && |b| > 0
    requires Separated(a, sa) && Separated(b, sb)
    requires sb[0] || Joins(a[|a| - 1], b[0])
    ensures Separated(a + b, sa + sb)
    decreases |a|
  {
    if |a| > 1 {
      SeparatedAppend(a[1..], sa[1..], b, sb);
      assert (a + b)[1..] == a[1..] + b;
      assert (sa + sb)[1..] == sa[1..] + sb;
    }
  }

  lemma SpellingStartsToken(t: TokenType)
    requires Lexable(t)
    ensures |Spelling(t)| > 0 && !IsWhitespace(Spelling(t)[0])
  {
    if t.Number? {
      assert IsDigit(Spelling(t)[0]);
    }
  }

  lemma {:induction false} IdentRun(input: seq<char>, s: nat, e: nat)
    requires s <= e <= |input|
    requires forall k | s <= k < e :: IsIdentPart(input[k])
    requires e == |input| || !IsIdentPart(input[e])
    ensures IdentEnd(input, s) == e
    decreases e - s
  {
    if s < e {
      IdentRun(input, s + 1, e);
    }
  }

  lemma {:induction false} DigitRun(input: seq<char>, s: nat, e: nat)
    requires s <= e <= |input|
    requires forall k | s <= k < e :: IsDigit(input[k])
    requires e == |input| || !IsDigit(input[e])
    ensures DigitsEnd(input, s) == e
    decreases e - s
  {
    if s < e {
      DigitRun(input, s + 1, e);
    }
  }

  /** `Spelling(t)` stands at `s`, followed by the end of the input or by a
      character that stops the scan of `t`. */
  predicate SpelledAt(input: seq<char>, s: nat, t: TokenType) {
    && s + |Spelling(t)| <= |input|
    && input[s..s + |Spelling(t)|] == Spelling(t)
    && (s + |Spelling(t)| == |input| || Ends(t, input[s + |Spelling(t)|]))
  }

  lemma SpelledChars(input: seq<char>, s: nat, t: TokenType)
    requires Lexable(t) && SpelledAt(input, s, t)
    ensures forall k | s <= k < s + |Spelling(t)| :: input[k] == Spelling(t)[k - s]
    ensures s < |input| && input[s] == Spelling(t)[0]
    ensures |Spelling(t)| > 1 ==> CharAt(input, s + 1) == Spelling(t)[1]
    ensures |Spelling(t)| == 1 && OneCharComparison(t) ==> CharAt(input, s + 1) != '='
  {
    var sp := Spelling(t);
    SpellingStartsToken(t);
    forall k | s <= k < s + |sp|
      ensures input[k] == sp[k - s]
    {
      assert input[s..s + |sp|][k - s] == input[k];
    }
  }

  lemma ScanWordSpelling(input: seq<char>, s: nat, t: TokenType)
    requires Lexable(t) && SpelledAt(input, s, t)
    requires IsWord(t)
    ensures ScanToken(input, s) == Ok((t, s + |Spelling(t)|))
  {
    var sp := Spelling(t);
    SpelledChars(input, s, t);
    assert IsIdentStart(sp[0]) && forall k | 0 <= k < |sp| :: IsIdentPart(sp[k]);
    IdentRun(input, s, s + |sp|);
    assert input[s..IdentEnd(input, s)] == sp;
    assert KeywordOrIdent(sp) == t;
    assert SingleCharToken(input[s]).None? && input[s] !in "=!<>&|" && !IsDigit(input[s]);
  }

  lemma ScanNumberSpelling(input: seq<char>, s: nat, t: TokenType)
    requires Lexable(t) && SpelledAt(input, s, t)
    requires t.Number?
    ensures ScanToken(input, s) == Ok((t, s + |Spelling(t)|))
  {
    var sp := Spelling(t);
    SpelledChars(input, s, t);
    DigitRun(input, s, s + |sp|);
    DecimalRoundTrip(t.value as int);
    assert input[s..DigitsEnd(input, s)] == sp;
    assert SingleCharToken(input[s]).None? && input[s] !in "=!<>&|";
  }

  lemma ScanPunctuationSpelling(input: seq<char>, s: nat, t: TokenType)
    requires Lexable(t) && SpelledAt(input, s, t)
    requires t.Plus? || t.Minus? || t.Star? || t.Slash? || t.Percent?
          || t.LParen? || t.RParen? || t.LBrace? || t.RBrace? || t.Comma? || t.Semicolon?
    ensures ScanToken(input, s) == Ok((t, s + |Spelling(t)|))
  {
    SpelledChars(input, s, t);
    assert SingleCharToken(input[s]) == Some(t);
  }

  lemma ScanOperatorSpelling(input: seq<char>, s: nat, t: TokenType)
    requires Lexable(t) && SpelledAt(input, s, t)
    requires t.Lt? || t.Le? || t.Gt? || t.Ge? || t.Eq? || t.Ne? || t.And? || t.Or? || t.Bang? || t.Assign?
    ensures ScanToken(input, s) == Ok((t, s + |Spelling(t)|))
  {
    SpelledChars(input, s, t);
    assert SingleCharToken(input[s]).None?;
  }

  /** A lexable token's spelling, followed by the end of the input or by a
      character that stops its scan, scans back to that token. */
  lemma ScanSpelling(input: seq<char>, s: nat, t: TokenType)
    requires Lexable(t) && SpelledAt(input, s, t)
    ensures ScanToken(input, s) == Ok((t, s + |Spelling(t)|))
  {
    if IsWord(t) {
      ScanWordSpelling(input, s, t);
    } else if t.Number? {
      ScanNumberSpelling(input, s, t);
    } else if t.Plus? || t.Minus? || t.Star? || t.Slash? || t.Percent?
           || t.LParen? || t.RParen? || t.LBrace? || t.RBrace? || t.Comma? || t.Semicolon? {
      ScanPunctuationSpelling(input, s, t);
    } else {
      ScanOperatorSpelling(input, s, t);
    }
  }

  /** The text of non-empty joined words: the optional space, the first word, the rest. */
  lemma JoinedText(input: seq<char>, p: nat, ws: seq<string>, spaced: seq<bool>)
    requires p <= |input| && |spaced| == |ws| && |ws| > 0
    requires input[p..] == Joined(ws, spaced)
    ensures var q := p + (if spaced[0] then 1 else 0);
            var e := q + |ws[0]|;
            && e <= |input|
            && (spaced[0] ==> input[p] == ' ')
            && input[q..e] == ws[0]
            && input[e..] == Joined(ws[1..], spaced[1..])
  {
    var pre: string := if spaced[0] then " " else "";
    SplitSuffix(input, p, pre + ws[0], Joined(ws[1..], spaced[1..]));
    SplitSuffix(input, p, pre, ws[0]);
    if spaced[0] {
      assert input[p] == input[p..p + 1][0];
    }
  }

  /** The first character of non-empty joined words whose first word is not empty. */
  lemma JoinedFirst(ws: seq<string>, spaced: seq<bool>)
    requires |spaced| == |ws| && |ws| > 0 && |ws[0]| > 0
    ensures |Joined(ws, spaced)| > 0
    ensures Joined(ws, spaced)[0] == (if spaced[0] then ' ' else ws[0][0])
  {
  }

  /** A non-empty layout: the optional space, the first token's spelling, the
      layout of the rest. */
  lemma LayoutText(input: seq<char>, p: nat, ts: seq<TokenType>, spaced: seq<bool>)
    requires p <= |input| && |spaced| == |ts| && |ts| > 0
    requires input[p..] == Layout(ts, spaced)
    ensures var q := p + (if spaced[0] then 1 else 0);
            var e := q + |Spelling(ts[0])|;
            && e <= |input|
            && (spaced[0] ==> input[p] == ' ')
            && input[q..e] == Spelling(ts[0])
            && input[e..] == Layout(ts[1..], spaced[1..])
  {
    JoinedText(input, p, Words(ts), spaced);
    assert Words(ts[1..]) == Words(ts)[1..];
  }

  /** The first character of a non-empty layout of lexable tokens. */
  lemma LayoutFirst(input: seq<char>, e: nat, ts: seq<TokenType>, spaced: seq<bool>)
    requires e <= |input| && |spaced| == |ts| && |ts| > 0 && Lexable(ts[0])
    requires input[e..] == Layout(ts, spaced)
    ensures e < |input|
    ensures input[e] == if spaced[0] then ' ' else Spelling(ts[0])[0]
  {
    SpellingStartsToken(ts[0]);
    JoinedFirst(Words(ts), spaced);
    assert input[e] == input[e..][0];
  }

  /** The first token of a layout is spelled right after its optional space,
      and the rest of the layout follows it. */
  lemma LayoutHead(input: seq<char>, p: nat, ts: seq<TokenType>, spaced: seq<bool>)
    requires p <= |input| && |spaced| == |ts|
    requires input[p..] == Layout(ts, spaced)
    requires |ts| > 0 && AllLexable(ts) && Separated(ts, spaced)
    ensures WsEnd(input, p) == p + (if spaced[0] then 1 else 0)
    ensures SpelledAt(input, WsEnd(input, p), ts[0])
    ensures WsEnd(input, p) + |Spelling(ts[0])| <= |input|
    ensures input[WsEnd(input, p) + |Spelling(ts[0])|..] == Layout(ts[1..], spaced[1..])
    ensures AllLexable(ts[1..]) && Separated(ts[1..], spaced[1..])
  {
    var q := p + (if spaced[0] then 1 else 0);
    var e := q + |Spelling(ts[0])|;
    LayoutText(input, p, ts, spaced);
    LayoutFirst(input, p, ts, spaced);
    SpellingStartsToken(ts[0]);
    assert input[q] == input[q..e][0];
    if spaced[0] {
      assert WsEnd(input, p + 1) == p + 1;
    }
    if |ts| > 1 {
      LayoutFirst(input, e, ts[1..], spaced[1..]);
    }
  }

  /** `input[p..]` starting with `x` and going on with `y`, read back in two parts. */
  lemma SplitSuffix(input: seq<char>, p: nat, x: string, y: string)
    requires p <= |input|
    requires (p + |x| + |y| <= |input| && input[p..p + |x| + |y|] == x + y) || input[p..] == x + y
    ensures p + |x| + |y| <= |input|
    ensures input[p..p + |x|] == x
    ensures input[p + |x|..p + |x| + |y|] == y
    ensures input[p..] == x + y ==> input[p + |x|..] == y
  {
    assert input[p..p + |x| + |y|] == x + y by {
      if input[p..] == x + y {
        assert input[p..p + |x| + |y|] == input[p..];
      }
    }
    assert input[p..p + |x|] == (x + y)[..|x|];
    assert input[p + |x|..p + |x| + |y|] == (x + y)[|x|..];
  }

  /** One turn of the `tokenize` loop that reads a token: the list lexed from
      `c` is that token followed by the list lexed after it. */
  lemma LexFromStep(input: seq<char>, c: Cursor, t: Token, after: Cursor)
    requires c.pos <= |input|
    requires SkipWhitespace(input, c).pos < |input|
    requires NextToken(input, SkipWhitespace(input, c)) == Ok((t, after))
    ensures after.pos <= |input|
    ensures LexFrom(input, c) == Prepend([t], LexFrom(input, after))
  {
  }

  /** `next_token` stamps a scanned token with the cursor's line and column
      and moves the column on by the token's length. */
  lemma NextFromScan(input: seq<char>, c: Cursor, typ: TokenType, end: nat)
    requires c.pos <= |input|
    requires ScanToken(input, c.pos) == Ok((typ, end))
    ensures NextToken(input, c) == Ok((Token(typ, c.line, c.column), Cursor(end, c.line, c.column + (end - c.pos))))
  {
  }

  /** Prepending a token to a successful list prepends its kind to the kinds. */
  lemma PrependTypes(t: Token, r: Result<seq<Token>, LexError>)
    ensures Prepend([t], r).Ok? <==> r.Ok?
    ensures r.Ok? ==> Types(Prepend([t], r).value) == [t.typ] + Types(r.value)
  {
  }

  lemma {:induction false} LayoutLexes(input: seq<char>, c: Cursor, ts: seq<TokenType>, spaced: seq<bool>)
    requires c.pos <= |input| && |spaced| == |ts|
    requires input[c.pos..] == Layout(ts, spaced)
    requires AllLexable(ts) && Separated(ts, spaced)
    ensures LexFrom(input, c).Ok?
    ensures Types(LexFrom(input, c).value) == ts + [Eof]
    decreases |ts|
  {
    var s := SkipWhitespace(input, c);
    SkipEnd(input, c);
    if |ts| == 0 {
      assert s.pos == |input|;
      assert LexFrom(input, c) == Ok([Token(Eof, s.line, s.column)]);
    } else {
      var e := s.pos + |Spelling(ts[0])|;
      LayoutHead(input, c.pos, ts, spaced);
      ScanSpelling(input, s.pos, ts[0]);
      var t := Token(ts[0], s.line, s.column);
      var after := Cursor(e, s.line, s.column + (e - s.pos));
      NextFromScan(input, s, ts[0], e);
      LexFromStep(input, c, t, after);
      LayoutLexes(input, after, ts[1..], spaced[1..]);
      PrependTypes(t, LexFrom(input, after));
      ConsAppend(ts, Eof);
    }
  }

  lemma ConsAppend<T>(s: seq<T>, x: T)
    requires |s| > 0
    ensures s + [x] == [s[0]] + (s[1..] + [x])
  {
  }

  /** Lexing lexable token kinds laid out with spaces wherever two of them would
      otherwise run together gives those kinds back, followed by Eof. */
  lemma LexLayout(ts: seq<TokenType>, spaced: seq<bool>)
    requires |spaced| == |ts| && AllLexable(ts) && Separated(ts, spaced)
    ensures Lex(Layout(ts, spaced)).Ok?
    ensures Types(Lex(Layout(ts, spaced)).value) == ts + [Eof]
  {
    var input := Layout(ts, spaced);
    assert input[0..] == input;
    LayoutLexes(input, Start, ts, spaced);
  }

  // ---------------------------------------------------------------------------
  // The unit tests of src/lexer.rs
  // ---------------------------------------------------------------------------

  /** `text` is the layout of lexable token kinds `ts`, spaced apart where
      they would otherwise run together. */
  predicate Piece(ts: seq<TokenType>, spaced: seq<bool>, text: string) {
    && |spaced| == |ts|
    && Layout(ts, spaced) == text
    && AllLexable(ts)
    && Separated(ts, spaced)
  }

  lemma PieceAppend(a: seq<TokenType>, sa: seq<bool>, x: string, b: seq<TokenType>, sb: seq<bool>, y: string)
    requires Piece(a, sa, x) && Piece(b, sb, y) && |a| > 0 && |b| > 0
    requires sb[0] || Joins(a[|a| - 1], b[0])
    ensures Piece(a + b, sa + sb, x + y)
  {
    LayoutAppend(a, sa, b, sb);
    SeparatedAppend(a, sa, b, sb);
    assert forall i | 0 <= i < |a + b| :: (a + b)[i] == if i < |a| then a[i] else b[i - |a|];
  }

  function Concat<T>(parts: seq<seq<T>>): (r: seq<T>)
  {
    if |parts| == 0 then [] else parts[0] + Concat(parts[1..])
  }

  lemma ConcatOne<T>(parts: seq<seq<T>>)
    requires |parts| == 1
    ensures Concat(parts) == parts[0]
  {
    assert Concat(parts[1..]) == [];
    assert parts[0] + [] == parts[0];
  }

  /** Non-empty pieces laid out one after the other, each either starting
      with a space or not running into the piece before it. */
  predicate Pieces(ts: seq<seq<TokenType>>, spaced: seq<seq<bool>>, texts: seq<string>)
    decreases |ts|
  {
    && |spaced| == |ts| == |texts| > 0
    && |ts[0]| > 0
    && Piece(ts[0], spaced[0], texts[0])
    && (|ts| > 1 ==>
          && |ts[1]| > 0 && |spaced[1]| > 0
          && (spaced[1][0] || Joins(ts[0][|ts[0]| - 1], ts[1][0]))
          && Pieces(ts[1..], spaced[1..], texts[1..]))
  }

  /** Such pieces lex to their kinds in order. */
  lemma LexPieces(input: string, ts: seq<seq<TokenType>>, spaced: seq<seq<bool>>, texts: seq<string>)
    requires Pieces(ts, spaced, texts)
    requires input == Concat(texts)
    ensures Lex(input).Ok?
    ensures Types(Lex(input).value) == Concat(ts) + [Eof]
  {
    PiecesJoin(ts, spaced, texts);
    LexLayout(Concat(ts), Concat(spaced));
  }

  lemma {:induction false} PiecesJoin(ts: seq<seq<TokenType>>, spaced: seq<seq<bool>>, texts: seq<string>)
    requires Pieces(ts, spaced, texts)
    ensures |Concat(ts)| > 0 && Piece(Concat(ts), Concat(spaced), Concat(texts))
    ensures Concat(ts)[0] == ts[0][0]
    decreases |ts|
  {
    if |ts| == 1 {
      ConcatOne(ts);
      ConcatOne(spaced);
      ConcatOne(texts);
    } else {
      PiecesJoin(ts[1..], spaced[1..], texts[1..]);
      PieceAppend(ts[0], spaced[0], texts[0], Concat(ts[1..]), Concat(spaced[1..]), Concat(texts[1..]));
    }
  }

  lemma FuncMainPiece()
    ensures Piece([Func, Ident("main")], [false, true], "func main")
  {
  }

  lemma ParensPiece()
    ensures Piece([LParen, RParen, LBrace], [false, false, true], "() {")
  {
  }

  lemma LetPiece()
    ensures Piece([Let, Ident("x"), Assign], [true, true, true], " let x =")
  {
  }

  lemma NumberPiece()
    ensures Piece([Number(42), Semicolon, RBrace], [true, false, true], " 42; }")
  {
    assert DecimalDigits(42) == "42";
  }

  /** `func main() { let x = 42; }` lexes to Func, Ident, LParen, ... */
  lemma BasicTokensExample(input: string)
    requires input == "func main() { let x = 42; }"
    ensures Lex(input).Ok?
    ensures Types(Lex(input).value)
            == [Func, Ident("main"), LParen, RParen, LBrace, Let, Ident("x"), Assign,
                Number(42), Semicolon, RBrace, Eof]
  {
    BasicPieces();
    BasicTokensJoin(input);
    LexPieces(input, BasicKinds, BasicSpaces, BasicTexts);
  }

  const BasicKinds: seq<seq<TokenType>> :=
    [[Func, Ident("main")], [LParen, RParen, LBrace], [Let, Ident("x"), Assign], [Number(42), Semicolon, RBrace]]
  const BasicSpaces: seq<seq<bool>> := [[false, true], [false, false, true], [true, true, true], [true, false, true]]
  const BasicTexts: seq<string> := ["func main", "() {", " let x =", " 42; }"]

  lemma BasicPieces()
    ensures Pieces(BasicKinds, BasicSpaces, BasicTexts)
  {
    FuncMainPiece();
    ParensPiece();
    LetPiece();
    NumberPiece();
    assert Joins(Ident("main"), LParen);
  }

  lemma BasicTokensJoin(input: string)
    requires input == "func main() { let x = 42; }"
    ensures Concat(BasicTexts) == input
    ensures Concat(BasicKinds) + [Eof]
            == [Func, Ident("main"), LParen, RParen, LBrace, Let, Ident("x"), Assign, Number(42), Semicolon, RBrace, Eof]
  {
  }

  lemma ArithmeticPiece()
    ensures Piece([Plus, Minus, Star, Slash, Percent], [false, true, true, true, true], "+ - * / %")
  {
  }

  lemma ComparisonPiece()
    ensures Piece([Lt, Le, Gt, Ge], [true, true, true, true], " < <= > >=")
  {
  }

  lemma EqualityPiece()
    ensures Piece([Eq, Ne], [true, true], " == !=")
  {
  }

  lemma LogicPiece()
    ensures Piece([And, Or, Bang], [true, true, true], " && || !")
  {
  }

  /** `+ - * / % < <= > >= == != && || !` lexes to Plus, Minus, Star, ... */
  lemma OperatorsExample(input: string)
    requires input == "+ - * / % < <= > >= == != && || !"
    ensures Lex(input).Ok?
    ensures Types(Lex(input).value)
            == [Plus, Minus, Star, Slash, Percent, Lt, Le, Gt, Ge, Eq, Ne, And, Or, Bang, Eof]
  {
    OperatorPieces();
    OperatorsJoin(input);
    LexPieces(input, OperatorKinds, OperatorSpaces, OperatorTexts);
  }

  const OperatorKinds: seq<seq<TokenType>> := [[Plus, Minus, Star, Slash, Percent], [Lt, Le, Gt, Ge], [Eq, Ne], [And, Or, Bang]]
  const OperatorSpaces: seq<seq<bool>> := [[false, true, true, true, true], [true, true, true, true], [true, true], [true, true, true]]
  const OperatorTexts: seq<string> := ["+ - * / %", " < <= > >=", " == !=", " && || !"]

  lemma OperatorPieces()
    ensures Pieces(OperatorKinds, OperatorSpaces, OperatorTexts)
  {
    ArithmeticPiece();
    ComparisonPiece();
    EqualityPiece();
    LogicPiece();
  }

  lemma OperatorsJoin(input: string)
    requires input == "+ - * / % < <= > >= == != && || !"
    ensures Concat(OperatorTexts) == input
    ensures Concat(OperatorKinds) + [Eof]
            == [Plus, Minus, Star, Slash, Percent, Lt, Le, Gt, Ge, Eq, Ne, And, Or, Bang, Eof]
  {
  }
}
