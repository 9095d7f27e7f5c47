/** Statements, blocks, functions and whole programs: the parser of
    src/parser.rs reads back what a printer writes, so `parse` keeps every
    statement and every function, in source order. Builds on the expression
    round trip of ParserProperties. */
module ParserStatements {
  import opened Wrappers
  import opened Tokens
  import Ast
  import opened ParserSpec
  import opened ParserProperties

  // ---------------------------------------------------------------------------
  // The printer
  // ---------------------------------------------------------------------------

  /** A statement as tokens. Expressions are printed at the loosest level. */
  function PrintStmt(s: Ast.Statement): seq<TokenType>
    decreases s, 3, 0
  {
    match s
    case VarDecl(x, v) => [Let, Ident(x), Assign] + (Print(v) + [Semicolon])
    case Assignment(x, v) => [Ident(x), Assign] + (Print(v) + [Semicolon])
    case If(c, t, els) => [If] + (Print(c) + (PrintBlock(t) + PrintElse(els)))
    case While(c, b) => [While] + (Print(c) + PrintBlock(b))
    case Return(v) => [Return] + (Print(v) + [Semicolon])
    case ExprStmt(e) => Print(e) + [Semicolon]
  }

  function PrintElse(els: Option<Ast.Block>): seq<TokenType>
    decreases els, 3, 0
  {
    match els
    case None => []
    case Some(b) => [Else] + PrintBlock(b)
  }

  /** A block: its statements between braces. */
  function PrintBlock(b: Ast.Block): seq<TokenType>
    decreases b, 2, 0
  {
    [LBrace] + PrintStmts(b, 0) + [RBrace]
  }

  /** The statements of `b` from the `i`-th on. */
  function PrintStmts(b: Ast.Block, i: nat): seq<TokenType>
    requires i <= |b.statements|
    decreases b, 1, |b.statements| - i
  {
    if i == |b.statements| then [] else PrintStmt(b.statements[i]) + PrintStmts(b, i + 1)
  }

  /** The parameters from the `i`-th on, separated by commas. */
  function PrintParams(ps: seq<string>, i: nat): seq<TokenType>
    requires i <= |ps|
    decreases |ps| - i
  {
    if i == |ps| then []
    else (if i == 0 then [] else [Comma]) + ([Ident(ps[i])] + PrintParams(ps, i + 1))
  }

  function PrintFunction(f: Ast.Function): seq<TokenType> {
    [Func, Ident(f.name), LParen] + (PrintParams(f.params, 0) + ([RParen] + PrintBlock(f.body)))
  }

  /** The functions of a program from the `i`-th on. */
  function PrintFunctions(fs: seq<Ast.Function>, i: nat): seq<TokenType>
    requires i <= |fs|
    decreases |fs| - i
  {
    if i == |fs| then [] else PrintFunction(fs[i]) + PrintFunctions(fs, i + 1)
  }

  function PrintProgram(p: Ast.Program): seq<TokenType> {
    PrintFunctions(p.functions, 0)
  }

  /** The tokens a statement can start with; `}`, `else` and Eof are not among them. */
  predicate StartsStmt(t: TokenType) {
    t == Let || t == If || t == While || t == Return || StartsExpr(t)
  }

  lemma StmtStart(s: Ast.Statement)
    ensures |PrintStmt(s)| > 0 && StartsStmt(PrintStmt(s)[0])
  {
    if s.ExprStmt? {
      PrintStart(s.expr, ExprLevel);
    }
  }

  /** After the `i`-th statement of a block printed in full comes either the next
      statement or the closing brace; never `else`. */
  lemma NextNotElse(toks: seq<Token>, pos: nat, b: Ast.Block, i: nat, z: nat)
    requires i <= |b.statements|
    requires z == pos + |PrintStmts(b, i)| && Spells(toks, pos, PrintStmts(b, i))
    requires toks[z].typ == RBrace
    ensures toks[pos].typ == RBrace || StartsStmt(toks[pos].typ)
  {
    if i < |b.statements| {
      StmtStart(b.statements[i]);
      assert PrintStmts(b, i)[0] == PrintStmt(b.statements[i])[0];
      SpellsAt(toks, pos, PrintStmts(b, i), 0, pos);
    }
  }

  // ---------------------------------------------------------------------------
  // One step of the parser at a time
  // ---------------------------------------------------------------------------

  lemma Heads3(toks: seq<Token>, pos: nat, a: TokenType, b: TokenType, c: TokenType)
    requires Spells(toks, pos, [a, b, c])
    ensures toks[pos].typ == a && toks[pos + 1].typ == b && toks[pos + 2].typ == c
  {
    SpellsAt(toks, pos, [a, b, c], 0, pos);
    SpellsAt(toks, pos, [a, b, c], 1, pos + 1);
    SpellsAt(toks, pos, [a, b, c], 2, pos + 2);
  }

  lemma Heads2(toks: seq<Token>, pos: nat, a: TokenType, b: TokenType)
    requires Spells(toks, pos, [a, b])
    ensures toks[pos].typ == a && toks[pos + 1].typ == b
  {
    SpellsAt(toks, pos, [a, b], 0, pos);
    SpellsAt(toks, pos, [a, b], 1, pos + 1);
  }

  lemma LetStep(toks: seq<Token>, pos: nat, x: string, v: Ast.Expr, q: nat, end: nat)
    requires ValidPos(toks, pos + 3)
    requires toks[pos].typ == Let && toks[pos + 1].typ == Ident(x) && toks[pos + 2].typ == Assign
    requires ParseExpr(toks, pos + 3) == Ok((v, q)) && toks[q].typ == Semicolon && end == q + 1 && end < |toks|
    ensures ParseStatement(toks, pos) == Ok((Ast.VarDecl(x, v), end))
  {
  }

  lemma AssignStep(toks: seq<Token>, pos: nat, x: string, v: Ast.Expr, q: nat, end: nat)
    requires ValidPos(toks, pos + 2)
    requires toks[pos].typ == Ident(x) && toks[pos + 1].typ == Assign
    requires ParseExpr(toks, pos + 2) == Ok((v, q)) && toks[q].typ == Semicolon && end == q + 1 && end < |toks|
    ensures ParseStatement(toks, pos) == Ok((Ast.Assignment(x, v), end))
  {
  }

  lemma ReturnStep(toks: seq<Token>, pos: nat, v: Ast.Expr, q: nat, end: nat)
    requires ValidPos(toks, pos + 1) && toks[pos].typ == Return
    requires ParseExpr(toks, pos + 1) == Ok((v, q)) && toks[q].typ == Semicolon && end == q + 1 && end < |toks|
    ensures ParseStatement(toks, pos) == Ok((Ast.Return(v), end))
  {
  }

  /** An expression statement: the one-token look-ahead past an identifier
      finds no `=`, so the parser backs up and reads an expression. */
  lemma ExprStmtStep(toks: seq<Token>, pos: nat, e: Ast.Expr, q: nat, end: nat)
    requires ValidPos(toks, pos + 1) && StartsExpr(toks[pos].typ) && toks[pos + 1].typ != Assign
    requires ParseExpr(toks, pos) == Ok((e, q)) && toks[q].typ == Semicolon && end == q + 1 && end < |toks|
    ensures ParseStatement(toks, pos) == Ok((Ast.ExprStmt(e), end))
  {
  }

  lemma WhileStep(toks: seq<Token>, pos: nat, c: Ast.Expr, b: Ast.Block, q: nat, r: nat)
    requires ValidPos(toks, pos + 1) && toks[pos].typ == While
    requires ParseExpr(toks, pos + 1) == Ok((c, q)) && ParseBlock(toks, q) == Ok((b, r))
    ensures ParseStatement(toks, pos) == Ok((Ast.While(c, b), r))
  {
  }

  lemma IfStep(toks: seq<Token>, pos: nat, c: Ast.Expr, t: Ast.Block, els: Option<Ast.Block>, q: nat, r: nat, end: nat)
    requires ValidPos(toks, pos + 1) && toks[pos].typ == If
    requires ParseExpr(toks, pos + 1) == Ok((c, q)) && ParseBlock(toks, q) == Ok((t, r))
    requires els == None && end == r + |PrintElse(els)| && toks[end].typ != Else
    ensures ParseStatement(toks, pos) == Ok((Ast.If(c, t, els), end))
  {
  }

  lemma IfElseStep(toks: seq<Token>, pos: nat, c: Ast.Expr, t: Ast.Block, e: Ast.Block, q: nat, r: nat, z: nat)
    requires ValidPos(toks, pos + 1) && toks[pos].typ == If
    requires ParseExpr(toks, pos + 1) == Ok((c, q)) && ParseBlock(toks, q) == Ok((t, r))
    requires toks[r].typ == Else && ValidPos(toks, r + 1) && ParseBlock(toks, r + 1) == Ok((e, z))
    ensures ParseStatement(toks, pos) == Ok((Ast.If(c, t, Some(e)), z))
  {
  }

  lemma BlockStep(toks: seq<Token>, pos: nat)
    requires ValidPos(toks, pos + 1) && toks[pos].typ == LBrace
    ensures ParseBlock(toks, pos) == BlockRest(toks, pos + 1, Ast.Block([]))
  {
  }

  lemma BlockRestStep(toks: seq<Token>, pos: nat, b: Ast.Block, i: nat, q: nat)
    requires i < |b.statements| && ValidPos(toks, pos) && StartsStmt(toks[pos].typ)
    requires ParseStatement(toks, pos) == Ok((b.statements[i], q))
    ensures BlockRest(toks, pos, Ast.Block(b.statements[..i])) == BlockRest(toks, q, Ast.Block(b.statements[..i + 1]))
  {
    assert b.statements[..i] + [b.statements[i]] == b.statements[..i + 1];
  }

  lemma BlockEndStep(toks: seq<Token>, pos: nat, block: Ast.Block)
    requires ValidPos(toks, pos + 1) && toks[pos].typ == RBrace
    ensures BlockRest(toks, pos, block) == Ok((block, pos + 1))
  {
  }

  // ---------------------------------------------------------------------------
  // Statements and blocks read back
  // ---------------------------------------------------------------------------

  /** A printed statement, ending at `end`, is read back whole, provided no
      `else` follows it (which would attach to an `if` without one). */
  lemma {:induction false} ParseStmt(toks: seq<Token>, pos: nat, s: Ast.Statement, end: nat)
    requires end == pos + |PrintStmt(s)| && Spells(toks, pos, PrintStmt(s))
    requires toks[end].typ != Else
    ensures ParseStatement(toks, pos) == Ok((s, end))
    decreases s, 4, 0, 0
  {
    match s
    case VarDecl(x, v) => ParseLet(toks, pos, x, v, end);
    case Assignment(x, v) => ParseAssignment(toks, pos, x, v, end);
    case If(c, t, els) => ParseIf(toks, pos, c, t, els, end);
    case While(c, b) => ParseWhile(toks, pos, c, b, end);
    case Return(v) => ParseReturn(toks, pos, v, end);
    case ExprStmt(e) => ParseExprStmt(toks, pos, e, end);
  }

  lemma ParseLet(toks: seq<Token>, pos: nat, x: string, v: Ast.Expr, end: nat)
    requires end == pos + |PrintStmt(Ast.VarDecl(x, v))| && Spells(toks, pos, PrintStmt(Ast.VarDecl(x, v)))
    ensures ParseStatement(toks, pos) == Ok((Ast.VarDecl(x, v), end))
  {
    var p := pos + 3;
    var q := p + |Print(v)|;
    SpellsSplit(toks, pos, [Let, Ident(x), Assign], Print(v) + [Semicolon], p);
    SpellsSnoc(toks, p, Print(v), Semicolon, q);
    Heads3(toks, pos, Let, Ident(x), Assign);
    ExprRoundTrip(toks, p, v, q);
    LetStep(toks, pos, x, v, q, end);
  }

  lemma ParseAssignment(toks: seq<Token>, pos: nat, x: string, v: Ast.Expr, end: nat)
    requires end == pos + |PrintStmt(Ast.Assignment(x, v))| && Spells(toks, pos, PrintStmt(Ast.Assignment(x, v)))
    ensures ParseStatement(toks, pos) == Ok((Ast.Assignment(x, v), end))
  {
    var p := pos + 2;
    var q := p + |Print(v)|;
    SpellsSplit(toks, pos, [Ident(x), Assign], Print(v) + [Semicolon], p);
    SpellsSnoc(toks, p, Print(v), Semicolon, q);
    Heads2(toks, pos, Ident(x), Assign);
    ExprRoundTrip(toks, p, v, q);
    AssignStep(toks, pos, x, v, q, end);
  }

  lemma ParseReturn(toks: seq<Token>, pos: nat, v: Ast.Expr, end: nat)
    requires end == pos + |PrintStmt(Ast.Return(v))| && Spells(toks, pos, PrintStmt(Ast.Return(v)))
    ensures ParseStatement(toks, pos) == Ok((Ast.Return(v), end))
  {
    var p := pos + 1;
    var q := p + |Print(v)|;
    SpellsCons(toks, pos, Return, Print(v) + [Semicolon], p);
    SpellsSnoc(toks, p, Print(v), Semicolon, q);
    ExprRoundTrip(toks, p, v, q);
    ReturnStep(toks, pos, v, q, end);
  }

  lemma ParseExprStmt(toks: seq<Token>, pos: nat, e: Ast.Expr, end: nat)
    requires end == pos + |PrintStmt(Ast.ExprStmt(e))| && Spells(toks, pos, PrintStmt(Ast.ExprStmt(e)))
    ensures ParseStatement(toks, pos) == Ok((Ast.ExprStmt(e), end))
  {
    var q := pos + |Print(e)|;
    SpellsSnoc(toks, pos, Print(e), Semicolon, q);
    NoAssignSecond(toks, pos, e);
    ExprRoundTrip(toks, pos, e, q);
    ExprStmtStep(toks, pos, e, q, end);
  }

  /** A printed expression statement starts like an expression, and its second
      token is no `=`. */
  lemma NoAssignSecond(toks: seq<Token>, pos: nat, e: Ast.Expr)
    requires Spells(toks, pos, Print(e) + [Semicolon])
    ensures StartsExpr(toks[pos].typ) && toks[pos + 1].typ != Assign
  {
    var t := Print(e) + [Semicolon];
    PrintStart(e, ExprLevel);
    PrintNoAssign(e, ExprLevel);
    SpellsAt(toks, pos, t, 0, pos);
    SpellsAt(toks, pos, t, 1, pos + 1);
    if |Print(e)| > 1 {
      assert t[1] == Print(e)[1];
    }
  }

  lemma {:induction false} ParseWhile(toks: seq<Token>, pos: nat, c: Ast.Expr, b: Ast.Block, end: nat)
    requires end == pos + |PrintStmt(Ast.While(c, b))| && Spells(toks, pos, PrintStmt(Ast.While(c, b)))
    ensures ParseStatement(toks, pos) == Ok((Ast.While(c, b), end))
    decreases Ast.While(c, b), 3, 0, 0
  {
    var p := pos + 1;
    var q := WhileShape(toks, pos, c, b, p, end);
    ExprRoundTrip(toks, p, c, q);
    WhileBody(toks, pos, c, b, p, q, end);
  }

  lemma WhileShape(toks: seq<Token>, pos: nat, c: Ast.Expr, b: Ast.Block, p: nat, end: nat) returns (q: nat)
    requires p == pos + 1
    requires end == pos + |PrintStmt(Ast.While(c, b))| && Spells(toks, pos, PrintStmt(Ast.While(c, b)))
    ensures toks[pos].typ == While && q == p + |Print(c)| && end == q + |PrintBlock(b)|
    ensures Spells(toks, p, Print(c)) && Spells(toks, q, PrintBlock(b)) && toks[q].typ == LBrace
  {
    q := p + |Print(c)|;
    SpellsCons(toks, pos, While, Print(c) + PrintBlock(b), p);
    SpellsSplit(toks, p, Print(c), PrintBlock(b), q);
    SpellsAt(toks, q, PrintBlock(b), 0, q);
  }

  /** Once the condition is read, the loop body. */
  lemma {:induction false} WhileBody(toks: seq<Token>, pos: nat, c: Ast.Expr, b: Ast.Block, p: nat, q: nat, end: nat)
    requires p == pos + 1 && ValidPos(toks, p) && toks[pos].typ == While
    requires ParseExpr(toks, p) == Ok((c, q))
    requires end == q + |PrintBlock(b)| && Spells(toks, q, PrintBlock(b))
    ensures ParseStatement(toks, pos) == Ok((Ast.While(c, b), end))
    decreases Ast.While(c, b), 2, 0, 0
  {
    ParseBlockAt(toks, q, b, end);
    WhileStep(toks, pos, c, b, q, end);
  }

  lemma {:induction false} ParseIf(toks: seq<Token>, pos: nat, c: Ast.Expr, t: Ast.Block, els: Option<Ast.Block>, end: nat)
    requires end == pos + |PrintStmt(Ast.If(c, t, els))| && Spells(toks, pos, PrintStmt(Ast.If(c, t, els)))
    requires toks[end].typ != Else
    ensures ParseStatement(toks, pos) == Ok((Ast.If(c, t, els), end))
    decreases Ast.If(c, t, els), 3, 0, 0
  {
    var p := pos + 1;
    var q, r := IfShape(toks, pos, c, t, els, p, end);
    ExprRoundTrip(toks, p, c, q);
    IfBody(toks, pos, c, t, els, p, q, r, end);
  }

  lemma IfShape(toks: seq<Token>, pos: nat, c: Ast.Expr, t: Ast.Block, els: Option<Ast.Block>, p: nat, end: nat)
    returns (q: nat, r: nat)
    requires p == pos + 1
    requires end == pos + |PrintStmt(Ast.If(c, t, els))| && Spells(toks, pos, PrintStmt(Ast.If(c, t, els)))
    ensures toks[pos].typ == If && q == p + |Print(c)| && Spells(toks, p, Print(c))
    ensures r == q + |PrintBlock(t)| && Spells(toks, q, PrintBlock(t)) && toks[q].typ == LBrace
    ensures end == r + |PrintElse(els)| && Spells(toks, r, PrintElse(els))
  {
    q := p + |Print(c)|;
    r := q + |PrintBlock(t)|;
    SpellsCons(toks, pos, If, Print(c) + (PrintBlock(t) + PrintElse(els)), p);
    SpellsSplit(toks, p, Print(c), PrintBlock(t) + PrintElse(els), q);
    SpellsSplit(toks, q, PrintBlock(t), PrintElse(els), r);
    SpellsAt(toks, q, PrintBlock(t), 0, q);
  }

  /** Once the condition is read, the then-block and any else branch. */
  lemma {:induction false} IfBody(toks: seq<Token>, pos: nat, c: Ast.Expr, t: Ast.Block, els: Option<Ast.Block>,
                                  p: nat, q: nat, r: nat, end: nat)
    requires p == pos + 1 && ValidPos(toks, p) && toks[pos].typ == If
    requires ParseExpr(toks, p) == Ok((c, q))
    requires r == q + |PrintBlock(t)| && Spells(toks, q, PrintBlock(t))
    requires end == r + |PrintElse(els)| && Spells(toks, r, PrintElse(els))
    requires toks[end].typ != Else
    ensures ParseStatement(toks, pos) == Ok((Ast.If(c, t, els), end))
    decreases Ast.If(c, t, els), 2, 0, 0
  {
    ParseBlockAt(toks, q, t, r);
    match els
    case None =>
      IfStep(toks, pos, c, t, els, q, r, end);
    case Some(e) =>
      ElseBody(toks, pos, c, t, e, p, q, r, end);
  }

  /** The else branch: `else` and a block. */
  lemma {:induction false} ElseBody(toks: seq<Token>, pos: nat, c: Ast.Expr, t: Ast.Block, e: Ast.Block,
                                    p: nat, q: nat, r: nat, end: nat)
    requires p == pos + 1 && ValidPos(toks, p) && toks[pos].typ == If
    requires ParseExpr(toks, p) == Ok((c, q)) && ParseBlock(toks, q) == Ok((t, r))
    requires end == r + |PrintElse(Some(e))| && Spells(toks, r, PrintElse(Some(e)))
    ensures ParseStatement(toks, pos) == Ok((Ast.If(c, t, Some(e)), end))
    decreases Ast.If(c, t, Some(e)), 1, 0, 0
  {
    var n := r + 1;
    SpellsCons(toks, r, Else, PrintBlock(e), n);
    ParseBlockAt(toks, n, e, end);
    IfElseStep(toks, pos, c, t, e, q, r, end);
  }

  /** `parse_block` past `{`: the loop that starts with no statements. */
  lemma BlockOpen(toks: seq<Token>, pos: nat, b: Ast.Block, p: nat, z: nat, end: nat)
    requires p == pos + 1 && ValidPos(toks, p) && toks[pos].typ == LBrace
    requires BlockRest(toks, p, Ast.Block(b.statements[..0])) == Ok((b, z + 1)) && end == z + 1
    ensures ParseBlock(toks, pos) == Ok((b, end))
  {
    assert b.statements[..0] == [];
    BlockStep(toks, pos);
  }

  /** A printed block, ending at `end`, is read back whole by `parse_block`. */
  lemma {:induction false} ParseBlockAt(toks: seq<Token>, pos: nat, b: Ast.Block, end: nat)
    requires end == pos + |PrintBlock(b)| && Spells(toks, pos, PrintBlock(b))
    ensures ParseBlock(toks, pos) == Ok((b, end))
    decreases b, 2, 0, 0
  {
    var p := pos + 1;
    var z := p + |PrintStmts(b, 0)|;
    SpellsAround(toks, pos, LBrace, PrintStmts(b, 0), RBrace, p, z);
    ParseStmtsFrom(toks, p, b, 0, z);
    BlockOpen(toks, pos, b, p, z, end);
  }

  /** The loop of `parse_block`, having read the first `i` statements of `b`,
      reads the others and the closing brace at `z`. */
  lemma {:induction false} ParseStmtsFrom(toks: seq<Token>, pos: nat, b: Ast.Block, i: nat, z: nat)
    requires i <= |b.statements|
    requires z == pos + |PrintStmts(b, i)| && Spells(toks, pos, PrintStmts(b, i))
    requires toks[z].typ == RBrace
    ensures BlockRest(toks, pos, Ast.Block(b.statements[..i])) == Ok((b, z + 1))
    decreases b, 1, |b.statements| - i, 1
  {
    if i == |b.statements| {
      assert b.statements[..i] == b.statements;
      BlockEndStep(toks, pos, Ast.Block(b.statements[..i]));
    } else {
      var j := i + 1;
      var q := StmtsStep(toks, pos, b, i, z);
      ParseStmtsFrom(toks, q, b, j, z);
    }
  }

  /** One turn of the loop of `parse_block`. */
  lemma {:induction false} StmtsStep(toks: seq<Token>, pos: nat, b: Ast.Block, i: nat, z: nat) returns (q: nat)
    requires i < |b.statements|
    requires z == pos + |PrintStmts(b, i)| && Spells(toks, pos, PrintStmts(b, i))
    requires toks[z].typ == RBrace
    ensures z == q + |PrintStmts(b, i + 1)| && Spells(toks, q, PrintStmts(b, i + 1))
    ensures BlockRest(toks, pos, Ast.Block(b.statements[..i])) == BlockRest(toks, q, Ast.Block(b.statements[..i + 1]))
    decreases b, 1, |b.statements| - i, 0
  {
    var s := b.statements[i];
    q := StmtsShape(toks, pos, b, i, z);
    ParseStmt(toks, pos, s, q);
    BlockRestStep(toks, pos, b, i, q);
  }

  lemma StmtsShape(toks: seq<Token>, pos: nat, b: Ast.Block, i: nat, z: nat) returns (q: nat)
    requires i < |b.statements|
    requires z == pos + |PrintStmts(b, i)| && Spells(toks, pos, PrintStmts(b, i))
    requires toks[z].typ == RBrace
    ensures q == pos + |PrintStmt(b.statements[i])| && z == q + |PrintStmts(b, i + 1)|
    ensures Spells(toks, pos, PrintStmt(b.statements[i])) && Spells(toks, q, PrintStmts(b, i + 1))
    ensures StartsStmt(toks[pos].typ) && toks[q].typ != Else
  {
    var s := b.statements[i];
    var j := i + 1;
    q := pos + |PrintStmt(s)|;
    SpellsSplit(toks, pos, PrintStmt(s), PrintStmts(b, j), q);
    StmtStart(s);
    SpellsAt(toks, pos, PrintStmt(s), 0, pos);
    NextNotElse(toks, q, b, j, z);
  }

  // ---------------------------------------------------------------------------
  // Parameters, functions and programs read back
  // ---------------------------------------------------------------------------

  lemma ParamsRestStep(toks: seq<Token>, pos: nat, done: seq<string>, x: string)
    requires ValidPos(toks, pos + 2) && toks[pos].typ == Comma && toks[pos + 1].typ == Ident(x)
    ensures ParamsRest(toks, pos, done) == ParamsRest(toks, pos + 2, done + [x])
  {
  }

  /** The printed parameter list, followed by `)` at `end`. */
  lemma {:induction false} ParseParamsAt(toks: seq<Token>, pos: nat, ps: seq<string>, end: nat)
    requires end == pos + |PrintParams(ps, 0)| && Spells(toks, pos, PrintParams(ps, 0))
    requires toks[end].typ == RParen
    ensures ParseParams(toks, pos) == Ok((ps, end))
  {
    if |ps| > 0 {
      var p := pos + 1;
      assert PrintParams(ps, 0) == [Ident(ps[0])] + PrintParams(ps, 1);
      SpellsCons(toks, pos, Ident(ps[0]), PrintParams(ps, 1), p);
      assert [ps[0]] == ps[..1];
      ParamsFrom(toks, p, ps, 1, end);
    }
  }

  /** The loop of `parse_param_list`, having read the first `i` names. */
  lemma {:induction false} ParamsFrom(toks: seq<Token>, pos: nat, ps: seq<string>, i: nat, end: nat)
    requires 0 < i <= |ps|
    requires end == pos + |PrintParams(ps, i)| && Spells(toks, pos, PrintParams(ps, i))
    requires toks[end].typ == RParen
    ensures ParamsRest(toks, pos, ps[..i]) == Ok((ps, end))
    decreases |ps| - i
  {
    if i == |ps| {
      assert ps[..i] == ps;
    } else {
      var j, q := i + 1, pos + 2;
      assert PrintParams(ps, i) == [Comma, Ident(ps[i])] + PrintParams(ps, j);
      SpellsSplit(toks, pos, [Comma, Ident(ps[i])], PrintParams(ps, j), q);
      Heads2(toks, pos, Comma, Ident(ps[i]));
      ParamsRestStep(toks, pos, ps[..i], ps[i]);
      assert ps[..i] + [ps[i]] == ps[..j];
      ParamsFrom(toks, q, ps, j, end);
    }
  }

  lemma FunctionStep(toks: seq<Token>, pos: nat, f: Ast.Function, q: nat, r: nat)
    requires ValidPos(toks, pos + 3)
    requires toks[pos].typ == Func && toks[pos + 1].typ == Ident(f.name) && toks[pos + 2].typ == LParen
    requires ParseParams(toks, pos + 3) == Ok((f.params, q)) && toks[q].typ == RParen
    requires ValidPos(toks, q + 1) && ParseBlock(toks, q + 1) == Ok((f.body, r))
    ensures ParseFunction(toks, pos) == Ok((f, r))
  {
  }

  lemma FunctionShape(toks: seq<Token>, pos: nat, f: Ast.Function, p: nat, end: nat) returns (q: nat, n: nat)
    requires p == pos + 3
    requires end == pos + |PrintFunction(f)| && Spells(toks, pos, PrintFunction(f))
    ensures toks[pos].typ == Func && toks[pos + 1].typ == Ident(f.name) && toks[pos + 2].typ == LParen
    ensures q == p + |PrintParams(f.params, 0)| && Spells(toks, p, PrintParams(f.params, 0)) && toks[q].typ == RParen
    ensures n == q + 1 && end == n + |PrintBlock(f.body)| && Spells(toks, n, PrintBlock(f.body))
  {
    var ps := PrintParams(f.params, 0);
    q := p + |ps|;
    n := q + 1;
    SpellsSplit(toks, pos, [Func, Ident(f.name), LParen], ps + ([RParen] + PrintBlock(f.body)), p);
    SpellsSplit(toks, p, ps, [RParen] + PrintBlock(f.body), q);
    SpellsCons(toks, q, RParen, PrintBlock(f.body), n);
    Heads3(toks, pos, Func, Ident(f.name), LParen);
  }

  /** A printed function, ending at `end`, is read back whole by `parse_function`. */
  lemma ParseFunctionAt(toks: seq<Token>, pos: nat, f: Ast.Function, end: nat)
    requires end == pos + |PrintFunction(f)| && Spells(toks, pos, PrintFunction(f))
    ensures ParseFunction(toks, pos) == Ok((f, end))
  {
    var p := pos + 3;
    var q, n := FunctionShape(toks, pos, f, p, end);
    ParseParamsAt(toks, p, f.params, q);
    FunctionBody(toks, pos, f, p, q, n, end);
  }

  /** Once the parameters are read, the closing `)` and the body. */
  lemma FunctionBody(toks: seq<Token>, pos: nat, f: Ast.Function, p: nat, q: nat, n: nat, end: nat)
    requires p == pos + 3 && ValidPos(toks, p)
    requires toks[pos].typ == Func && toks[pos + 1].typ == Ident(f.name) && toks[pos + 2].typ == LParen
    requires ParseParams(toks, p) == Ok((f.params, q)) && toks[q].typ == RParen
    requires n == q + 1 && end == n + |PrintBlock(f.body)| && Spells(toks, n, PrintBlock(f.body))
    ensures ParseFunction(toks, pos) == Ok((f, end))
  {
    ParseBlockAt(toks, n, f.body, end);
    FunctionStep(toks, pos, f, q, end);
  }

  lemma ParseFromStep(toks: seq<Token>, pos: nat, program: Ast.Program, f: Ast.Function, q: nat)
    requires ValidPos(toks, pos) && toks[pos].typ == Func
    requires ParseFunction(toks, pos) == Ok((f, q))
    ensures ParseFrom(toks, pos, program) == ParseFrom(toks, q, Ast.Program(program.functions + [f]))
  {
  }

  /** The loop of `parse`, having read the first `i` functions; Eof is at `end`. */
  lemma {:induction false} FunctionsFrom(toks: seq<Token>, pos: nat, fs: seq<Ast.Function>, i: nat, end: nat)
    requires i <= |fs|
    requires end == pos + |PrintFunctions(fs, i)| && Spells(toks, pos, PrintFunctions(fs, i))
    requires toks[end].typ == Eof
    ensures ParseFrom(toks, pos, Ast.Program(fs[..i])) == Ok(Ast.Program(fs))
    decreases |fs| - i, 1
  {
    if i == |fs| {
      assert fs[..i] == fs;
    } else {
      var j := i + 1;
      var q := FunctionsStep(toks, pos, fs, i, end);
      FunctionsFrom(toks, q, fs, j, end);
    }
  }

  /** One turn of the loop of `parse`. */
  lemma FunctionsStep(toks: seq<Token>, pos: nat, fs: seq<Ast.Function>, i: nat, end: nat) returns (q: nat)
    requires i < |fs|
    requires end == pos + |PrintFunctions(fs, i)| && Spells(toks, pos, PrintFunctions(fs, i))
    ensures end == q + |PrintFunctions(fs, i + 1)| && Spells(toks, q, PrintFunctions(fs, i + 1))
    ensures ParseFrom(toks, pos, Ast.Program(fs[..i])) == ParseFrom(toks, q, Ast.Program(fs[..i + 1]))
  {
    var j := i + 1;
    q := pos + |PrintFunction(fs[i])|;
    SpellsSplit(toks, pos, PrintFunction(fs[i]), PrintFunctions(fs, j), q);
    SpellsAt(toks, pos, PrintFunction(fs[i]), 0, pos);
    ParseFunctionAt(toks, pos, fs[i], q);
    ParseFromStep(toks, pos, Ast.Program(fs[..i]), fs[i], q);
    assert fs[..i] + [fs[i]] == fs[..j];
  }

  /** `parse` reads back every printed program: all its functions, each whole,
      in source order. The token list is the printed program followed by Eof. */
  lemma ParseRoundTrip(toks: seq<Token>, p: Ast.Program)
    requires WellFormed(toks) && |toks| == |PrintProgram(p)| + 1
    requires forall i | 0 <= i < |PrintProgram(p)| :: toks[i].typ == PrintProgram(p)[i]
    ensures Parse(toks) == Ok(p)
  {
    var end := |PrintProgram(p)|;
    assert Spells(toks, 0, PrintProgram(p));
    assert p.functions[..0] == [];
    FunctionsFrom(toks, 0, p.functions, 0, end);
  }
}
