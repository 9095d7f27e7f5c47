/** What the recursive-descent parser of src/parser.rs computes, as functions
    over the token list and a cursor (an index into it). Each function returns
    the value parsed and the cursor after it, or the error. The class in
    parser.dfy is proved to compute exactly these. */
module ParserSpec {
  import opened Wrappers
  import opened Tokens
  import Ast

  datatype ParseErrorKind =
    | Expected(kind: TokenType)   // `expect` found another token
    | ExpectedFunctionName
    | ExpectedParameterName
    | ExpectedVariableName
    | ExpectedExpression

  /** A parse error and the line and column of the token the cursor was on. */
  datatype ParseError = ParseError(kind: ParseErrorKind, line: nat, column: nat)

  /** A parsed value and the cursor after it, or the first error. */
  type Parsed<T> = Result<(T, nat), ParseError>

  /** What the parser needs of its input, and what the lexer provides: the list
      is not empty and its last token is Eof. */
  predicate WellFormed(toks: seq<Token>) {
    |toks| > 0 && toks[|toks| - 1].typ.Eof?
  }

  /** A cursor on a token of a well-formed list. */
  predicate ValidPos(toks: seq<Token>, pos: nat) {
    WellFormed(toks) && pos < |toks|
  }

  // ---------------------------------------------------------------------------
  // The helpers `is_at_end`, `check`, `advance`, `expect`, `error`
  // ---------------------------------------------------------------------------

  predicate AtEnd(toks: seq<Token>, pos: nat)
    requires pos < |toks|
  {
    toks[pos].typ.Eof?
  }

  /** `check`: false at Eof, otherwise whether the token is of the same
      variant as `kind` (its fields, if any, are not compared). */
  predicate Check(toks: seq<Token>, pos: nat, kind: TokenType)
    requires pos < |toks|
  {
    !AtEnd(toks, pos) && SameVariant(toks[pos].typ, kind)
  }

  /** `advance`: one token on, except at Eof, where the cursor stays. */
  function Advance(toks: seq<Token>, pos: nat): (p: nat)
    requires ValidPos(toks, pos)
    ensures ValidPos(toks, p)
    ensures AtEnd(toks, pos) ==> p == pos
    ensures !AtEnd(toks, pos) ==> p == pos + 1
  {
    if AtEnd(toks, pos) then pos else pos + 1
  }

  /** `error`: the message kind, at the line and column of the current token. */
  function ErrorAt(toks: seq<Token>, pos: nat, kind: ParseErrorKind): (e: ParseError)
    requires pos < |toks|
    ensures e.line == toks[pos].line && e.column == toks[pos].column
  {
    ParseError(kind, toks[pos].line, toks[pos].column)
  }

  /** `expect`: consumes a token of the given kind, or fails at the current token. */
  function Expect(toks: seq<Token>, pos: nat, kind: TokenType): (r: Result<nat, ParseError>)
    requires ValidPos(toks, pos)
    ensures r.Ok? <==> Check(toks, pos, kind)
    ensures r.Ok? ==> r.value == pos + 1 && ValidPos(toks, r.value)
    ensures r.Err? ==> r.error == ErrorAt(toks, pos, Expected(kind))
  {
    if Check(toks, pos, kind) then Ok(Advance(toks, pos)) else Err(ErrorAt(toks, pos, Expected(kind)))
  }

  /** An error reported at the line and column of a token at or after `pos`. */
  predicate ReportedFrom(toks: seq<Token>, pos: nat, e: ParseError) {
    exists i | pos <= i < |toks| :: e.line == toks[i].line && e.column == toks[i].column
  }

  // ---------------------------------------------------------------------------
  // Expressions: seven levels, from `parse_primary` (0) to `parse_logic_or` (7)
  // ---------------------------------------------------------------------------

  const PrimaryLevel: nat := 0
  const UnaryLevel: nat := 1
  const ExprLevel: nat := 7

  /** The binary precedence level of an operator token: 2 for `* / %` (binds
      tightest), 3 for `+ -`, 4 for `< <= > >=`, 5 for `== !=`, 6 for `&&`, 7 for
      `||` (binds loosest), and 0 for every token that is no binary operator. */
  function OpLevel(t: TokenType): nat {
    match t
    case Star => 2
    case Slash => 2
    case Percent => 2
    case Plus => 3
    case Minus => 3
    case Lt => 4
    case Le => 4
    case Gt => 4
    case Ge => 4
    case Eq => 5
    case Ne => 5
    case And => 6
    case Or => 7
    case _ => 0
  }

  /** The AST operator of a binary operator token. */
  function BinOpOf(t: TokenType): Ast.BinOp
    requires OpLevel(t) >= 2
  {
    match t
    case Star => Ast.Mul
    case Slash => Ast.Div
    case Percent => Ast.Mod
    case Plus => Ast.Add
    case Minus => Ast.Sub
    case Lt => Ast.Lt
    case Le => Ast.Le
    case Gt => Ast.Gt
    case Ge => Ast.Ge
    case Eq => Ast.Eq
    case Ne => Ast.Ne
    case And => Ast.And
    case Or => Ast.Or
  }

  /** The expression parser at `level`: `parse_primary` (0), `parse_unary` (1),
      `parse_mul` (2), `parse_add` (3), `parse_relational` (4),
      `parse_equality` (5), `parse_logic_and` (6), `parse_logic_or` (7), which
      is `parse_expr`. A success consumes at least one token. */
  function ParseLevel(toks: seq<Token>, pos: nat, level: nat): (r: Parsed<Ast.Expr>)
    requires ValidPos(toks, pos) && level <= ExprLevel
    ensures r.Ok? ==> pos < r.value.1 < |toks|
    ensures r.Err? ==> ReportedFrom(toks, pos, r.error)
    decreases |toks| - pos, level, 1
  {
    if level == PrimaryLevel then
      ParsePrimary(toks, pos)
    else if level == UnaryLevel then
      if Check(toks, pos, Bang) || Check(toks, pos, Minus) then
        var op := if Check(toks, pos, Bang) then Ast.Not else Ast.Neg;
        var operand :- ParseLevel(toks, Advance(toks, pos), UnaryLevel);
        Ok((Ast.Unary(op, operand.0), operand.1))
      else
        ParsePrimary(toks, pos)
    else
      var left :- ParseLevel(toks, pos, level - 1);
      LevelRest(toks, left.1, level, left.0)
  }

  /** The `while` loop of a binary level: as long as the current token is an
      operator of this level, consume it and the next operand from the level
      below, and make `left` the left operand of the new node. */
  function LevelRest(toks: seq<Token>, pos: nat, level: nat, left: Ast.Expr): (r: Parsed<Ast.Expr>)
    requires ValidPos(toks, pos) && 2 <= level <= ExprLevel
    ensures r.Ok? ==> pos <= r.value.1 < |toks|
    ensures r.Err? ==> ReportedFrom(toks, pos, r.error)
    decreases |toks| - pos, level, 1
  {
    if OpLevel(toks[pos].typ) == level then
      var op := BinOpOf(toks[pos].typ);
      var right :- ParseLevel(toks, Advance(toks, pos), level - 1);
      LevelRest(toks, right.1, level, Ast.Binary(op, left, right.0))
    else
      Ok((left, pos))
  }

  /** `parse_primary`: a number, a variable, a call, or a parenthesized expression. */
  function ParsePrimary(toks: seq<Token>, pos: nat): (r: Parsed<Ast.Expr>)
    requires ValidPos(toks, pos)
    ensures r.Ok? ==> pos < r.value.1 < |toks|
    ensures r.Err? ==> ReportedFrom(toks, pos, r.error)
    decreases |toks| - pos, 0, 0
  {
    var t := toks[pos].typ;
    if t.Number? then
      Ok((Ast.Number(t.value), Advance(toks, pos)))
    else if t.Ident? then
      var p := Advance(toks, pos);
      if Check(toks, p, LParen) then
        var args :- ParseArgs(toks, Advance(toks, p));
        var q :- Expect(toks, args.1, RParen);
        Ok((Ast.Call(t.name, args.0), q))
      else
        Ok((Ast.Variable(t.name), p))
    else if Check(toks, pos, LParen) then
      var inner :- ParseLevel(toks, Advance(toks, pos), ExprLevel);
      var q :- Expect(toks, inner.1, RParen);
      Ok((inner.0, q))
    else
      Err(ErrorAt(toks, pos, ExpectedExpression))
  }

  /** `parse_arg_list`: empty when the next token is `)`, otherwise expressions
      separated by commas. */
  function ParseArgs(toks: seq<Token>, pos: nat): (r: Parsed<seq<Ast.Expr>>)
    requires ValidPos(toks, pos)
    ensures r.Ok? ==> pos <= r.value.1 < |toks|
    ensures r.Err? ==> ReportedFrom(toks, pos, r.error)
    decreases |toks| - pos, ExprLevel + 1, 0
  {
    if Check(toks, pos, RParen) then
      Ok(([], pos))
    else
      var first :- ParseLevel(toks, pos, ExprLevel);
      ArgsRest(toks, first.1, [first.0])
  }

  /** The `while` loop of `parse_arg_list`. */
  function ArgsRest(toks: seq<Token>, pos: nat, args: seq<Ast.Expr>): (r: Parsed<seq<Ast.Expr>>)
    requires ValidPos(toks, pos)
    ensures r.Ok? ==> pos <= r.value.1 < |toks|
    ensures r.Err? ==> ReportedFrom(toks, pos, r.error)
    decreases |toks| - pos, ExprLevel + 1, 0
  {
    if Check(toks, pos, Comma) then
      var next :- ParseLevel(toks, Advance(toks, pos), ExprLevel);
      ArgsRest(toks, next.1, args + [next.0])
    else
      Ok((args, pos))
  }

  /** `parse_expr`. */
  function ParseExpr(toks: seq<Token>, pos: nat): (r: Parsed<Ast.Expr>)
    requires ValidPos(toks, pos)
    ensures r.Ok? ==> pos < r.value.1 < |toks|
    ensures r.Err? ==> ReportedFrom(toks, pos, r.error)
  {
    ParseLevel(toks, pos, ExprLevel)
  }

  // ---------------------------------------------------------------------------
  // Statements, blocks, functions, programs
  // ---------------------------------------------------------------------------

  /** `parse_statement`. An identifier followed by `=` starts an assignment;
      any other identifier is given back (the cursor moves back one token) and
      starts an expression statement. */
  function ParseStatement(toks: seq<Token>, pos: nat): (r: Parsed<Ast.Statement>)
    requires ValidPos(toks, pos)
    ensures r.Ok? ==> pos < r.value.1 < |toks|
    ensures r.Err? ==> ReportedFrom(toks, pos, r.error)
    decreases |toks| - pos, 0
  {
    if Check(toks, pos, Let) then
      var p := Advance(toks, pos);
      if !toks[p].typ.Ident? then
        Err(ErrorAt(toks, p, ExpectedVariableName))
      else
        var q :- Expect(toks, Advance(toks, p), Assign);
        var value :- ParseExpr(toks, q);
        var e :- Expect(toks, value.1, Semicolon);
        Ok((Ast.VarDecl(toks[p].typ.name, value.0), e))
    else if Check(toks, pos, If) then
      var cond :- ParseExpr(toks, Advance(toks, pos));
      var thenBlock :- ParseBlock(toks, cond.1);
      if Check(toks, thenBlock.1, Else) then
        var elseBlock :- ParseBlock(toks, Advance(toks, thenBlock.1));
        Ok((Ast.If(cond.0, thenBlock.0, Some(elseBlock.0)), elseBlock.1))
      else
        Ok((Ast.If(cond.0, thenBlock.0, None), thenBlock.1))
    else if Check(toks, pos, While) then
      var cond :- ParseExpr(toks, Advance(toks, pos));
      var body :- ParseBlock(toks, cond.1);
      Ok((Ast.While(cond.0, body.0), body.1))
    else if Check(toks, pos, Return) then
      var value :- ParseExpr(toks, Advance(toks, pos));
      var e :- Expect(toks, value.1, Semicolon);
      Ok((Ast.Return(value.0), e))
    else if toks[pos].typ.Ident? && Check(toks, Advance(toks, pos), Assign) then
      var value :- ParseExpr(toks, Advance(toks, Advance(toks, pos)));
      var e :- Expect(toks, value.1, Semicolon);
      Ok((Ast.Assignment(toks[pos].typ.name, value.0), e))
    else
      var expr :- ParseExpr(toks, pos);
      var e :- Expect(toks, expr.1, Semicolon);
      Ok((Ast.ExprStmt(expr.0), e))
  }

  /** `parse_block`: `{`, statements up to `}` or Eof, then `}`. */
  function ParseBlock(toks: seq<Token>, pos: nat): (r: Parsed<Ast.Block>)
    requires ValidPos(toks, pos)
    ensures r.Ok? ==> pos < r.value.1 < |toks|
    ensures r.Err? ==> ReportedFrom(toks, pos, r.error)
    decreases |toks| - pos, 2
  {
    var p :- Expect(toks, pos, LBrace);
    BlockRest(toks, p, Ast.Block.New())
  }

  /** The `while` loop of `parse_block` and the closing `expect`. */
  function BlockRest(toks: seq<Token>, pos: nat, block: Ast.Block): (r: Parsed<Ast.Block>)
    requires ValidPos(toks, pos)
    ensures r.Ok? ==> pos < r.value.1 < |toks|
    ensures r.Err? ==> ReportedFrom(toks, pos, r.error)
    decreases |toks| - pos, 1
  {
    if !Check(toks, pos, RBrace) && !AtEnd(toks, pos) then
      var stmt :- ParseStatement(toks, pos);
      BlockRest(toks, stmt.1, block.AddStatement(stmt.0))
    else
      var p :- Expect(toks, pos, RBrace);
      Ok((block, p))
  }

  /** The error `parse_param_list` reports at `i`: the token before is a comma
      and the token at `i` is no identifier. */
  predicate ParamNameMissing(toks: seq<Token>, i: nat, e: ParseError) {
    && 0 < i < |toks|
    && toks[i - 1].typ == Comma && !toks[i].typ.Ident?
    && e == ErrorAt(toks, i, ExpectedParameterName)
  }

  /** `parse_param_list`: empty unless the current token is an identifier,
      otherwise identifiers separated by commas. The list stops at the first
      token that is no comma; its only error is a comma followed by a token
      that is no identifier. */
  function ParseParams(toks: seq<Token>, pos: nat): (r: Parsed<seq<string>>)
    requires ValidPos(toks, pos)
    ensures r.Ok? ==> pos <= r.value.1 < |toks|
    ensures r.Ok? && !toks[pos].typ.Ident? ==> r.value == ([], pos)
    ensures r.Ok? && toks[pos].typ.Ident? ==>
              && |r.value.0| > 0 && r.value.0[0] == toks[pos].typ.name
              && !Check(toks, r.value.1, Comma)
    ensures r.Err? ==> exists i | pos < i < |toks| :: ParamNameMissing(toks, i, r.error)
    ensures r.Err? ==> ReportedFrom(toks, pos, r.error)
  {
    if toks[pos].typ.Ident? then ParamsRest(toks, Advance(toks, pos), [toks[pos].typ.name])
    else Ok(([], pos))
  }

  /** The `while` loop of `parse_param_list`: a comma must be followed by an
      identifier; the names read are appended after `params`. */
  function ParamsRest(toks: seq<Token>, pos: nat, params: seq<string>): (r: Parsed<seq<string>>)
    requires ValidPos(toks, pos)
    ensures r.Ok? ==> pos <= r.value.1 < |toks|
    ensures r.Ok? ==> |r.value.0| >= |params| && r.value.0[..|params|] == params
    ensures r.Ok? ==> !Check(toks, r.value.1, Comma)
    ensures r.Err? ==> exists i | pos < i < |toks| :: ParamNameMissing(toks, i, r.error)
    ensures r.Err? ==> ReportedFrom(toks, pos, r.error)
    decreases |toks| - pos
  {
    if Check(toks, pos, Comma) then
      var p := Advance(toks, pos);
      if toks[p].typ.Ident? then ParamsRest(toks, Advance(toks, p), params + [toks[p].typ.name])
      else
        assert ParamNameMissing(toks, p, ErrorAt(toks, p, ExpectedParameterName));
        Err(ErrorAt(toks, p, ExpectedParameterName))
    else
      Ok((params, pos))
  }

  /** `parse_function`: `func`, a name, a parenthesized parameter list, a block. */
  function ParseFunction(toks: seq<Token>, pos: nat): (r: Parsed<Ast.Function>)
    requires ValidPos(toks, pos)
    ensures r.Ok? ==> pos < r.value.1 < |toks|
    ensures r.Err? ==> ReportedFrom(toks, pos, r.error)
  {
    var p :- Expect(toks, pos, Func);
    if !toks[p].typ.Ident? then
      Err(ErrorAt(toks, p, ExpectedFunctionName))
    else
      var q :- Expect(toks, Advance(toks, p), LParen);
      var params :- ParseParams(toks, q);
      var b :- Expect(toks, params.1, RParen);
      var body :- ParseBlock(toks, b);
      Ok((Ast.Function(toks[p].typ.name, params.0, body.0), body.1))
  }

  /** The `while` loop of `parse`: functions up to Eof, appended in source order. */
  function ParseFrom(toks: seq<Token>, pos: nat, program: Ast.Program): (r: Result<Ast.Program, ParseError>)
    requires ValidPos(toks, pos)
    ensures r.Err? ==> ReportedFrom(toks, pos, r.error)
    decreases |toks| - pos
  {
    if AtEnd(toks, pos) then
      Ok(program)
    else
      var f :- ParseFunction(toks, pos);
      ParseFrom(toks, f.1, program.AddFunction(f.0))
  }

  /** `Parser::new(tokens).parse()`. */
  function Parse(toks: seq<Token>): (r: Result<Ast.Program, ParseError>)
    requires WellFormed(toks)
    ensures r.Err? ==> ReportedFrom(toks, 0, r.error)
  {
    ParseFrom(toks, 0, Ast.Program.New())
  }
}
