/** Properties of the parser of src/parser.rs, stated over the functions of
    ParserSpec (which the Parser class is proved to compute). The central one:
    the parser inverts a printer that writes parentheses only where precedence
    and left associativity need them, so it reads `a + b * 2` as
    `a + (b * 2)` and `a - b - c` as `(a - b) - c`. */
module ParserProperties {
  import opened Wrappers
  import opened Tokens
  import Ast
  import opened ParserSpec

  // ---------------------------------------------------------------------------
  // Token lists spelling a given sequence of kinds
  // ---------------------------------------------------------------------------

  /** From `pos` on, the token list spells `ts`, and one more token follows. */
  predicate Spells(toks: seq<Token>, pos: nat, ts: seq<TokenType>) {
    && WellFormed(toks)
    && pos + |ts| < |toks|
    && forall i | 0 <= i < |ts| :: toks[pos + i].typ == ts[i]
  }

  // The splitting lemmas below name every position they speak about, so that
  // their conclusions use the caller's own position variables.

  lemma SpellsSplit(toks: seq<Token>, pos: nat, a: seq<TokenType>, b: seq<TokenType>, mid: nat)
    requires mid == pos + |a| && Spells(toks, pos, a + b)
    ensures Spells(toks, pos, a) && Spells(toks, mid, b)
  {
    forall i | 0 <= i < |a|
      ensures toks[pos + i].typ == a[i]
    {
      assert (a + b)[i] == a[i];
    }
    forall i | 0 <= i < |b|
      ensures toks[mid + i].typ == b[i]
    {
      assert (a + b)[|a| + i] == b[i];
    }
  }

  lemma SpellsAt(toks: seq<Token>, pos: nat, ts: seq<TokenType>, i: nat, at: nat)
    requires at == pos + i && Spells(toks, pos, ts) && i < |ts|
    ensures toks[at].typ == ts[i]
  {
  }

  lemma SpellsCons(toks: seq<Token>, pos: nat, x: TokenType, rest: seq<TokenType>, next: nat)
    requires next == pos + 1 && Spells(toks, pos, [x] + rest)
    ensures toks[pos].typ == x && Spells(toks, next, rest)
  {
    SpellsSplit(toks, pos, [x], rest, next);
    SpellsAt(toks, pos, [x], 0, pos);
  }

  lemma SpellsSnoc(toks: seq<Token>, pos: nat, rest: seq<TokenType>, y: TokenType, end: nat)
    requires end == pos + |rest| && Spells(toks, pos, rest + [y])
    ensures Spells(toks, pos, rest) && toks[end].typ == y
  {
    SpellsSplit(toks, pos, rest, [y], end);
    SpellsAt(toks, end, [y], 0, end);
  }

  /** Splits `[x, y] + m + [z]`, the shape of a call. */
  lemma SpellsCall(toks: seq<Token>, pos: nat, x: TokenType, y: TokenType, m: seq<TokenType>, z: TokenType,
                   inner: nat, end: nat)
    requires inner == pos + 2 && end == inner + |m| && Spells(toks, pos, [x, y] + m + [z])
    ensures toks[pos].typ == x && toks[pos + 1].typ == y
    ensures Spells(toks, inner, m) && toks[end].typ == z
  {
    SpellsSnoc(toks, pos, [x, y] + m, z, end);
    SpellsSplit(toks, pos, [x, y], m, inner);
    SpellsAt(toks, pos, [x, y], 0, pos);
    SpellsAt(toks, pos, [x, y], 1, pos + 1);
  }

  /** Splits `[x] + m + [z]`, the shape of a parenthesized expression and of a block. */
  lemma SpellsAround(toks: seq<Token>, pos: nat, x: TokenType, m: seq<TokenType>, z: TokenType,
                     inner: nat, end: nat)
    requires inner == pos + 1 && end == inner + |m| && Spells(toks, pos, [x] + m + [z])
    ensures toks[pos].typ == x
    ensures Spells(toks, inner, m) && toks[end].typ == z
  {
    SpellsSnoc(toks, pos, [x] + m, z, end);
    SpellsCons(toks, pos, x, m, inner);
  }

  /** Splits `a + [x] + b` into its three parts. */
  lemma SpellsMiddle(toks: seq<Token>, pos: nat, a: seq<TokenType>, x: TokenType, b: seq<TokenType>,
                     mid: nat, next: nat)
    requires mid == pos + |a| && next == mid + 1 && Spells(toks, pos, a + [x] + b)
    ensures Spells(toks, pos, a) && toks[mid].typ == x && Spells(toks, next, b)
  {
    SpellsSplit(toks, pos, a + [x], b, next);
    SpellsSplit(toks, pos, a, [x], mid);
    SpellsAt(toks, mid, [x], 0, mid);
  }

  // ---------------------------------------------------------------------------
  // Printing expressions with as few parentheses as the grammar allows
  // ---------------------------------------------------------------------------

  /** The token of a binary operator; the parser maps it back to the operator. */
  function OpToken(op: Ast.BinOp): (t: TokenType)
    ensures 2 <= OpLevel(t) <= ExprLevel
    ensures BinOpOf(t) == op
  {
    match op
    case Add => Plus
    case Sub => Minus
    case Mul => Star
    case Div => Slash
    case Mod => Percent
    case Lt => Lt
    case Le => Le
    case Gt => Gt
    case Ge => Ge
    case Eq => Eq
    case Ne => Ne
    case And => And
    case Or => Or
  }

  /** The precedence level of a binary operator: 2 binds tightest, 7 loosest. */
  function Prec(op: Ast.BinOp): nat {
    OpLevel(OpToken(op))
  }

  function UnaryToken(u: Ast.UnaryOp): TokenType {
    match u
    case Neg => Minus
    case Not => Bang
  }

  /** A binary expression needs parentheses where only operators up to level
      `k` are read without them. */
  predicate NeedsParens(e: Ast.Expr, k: nat) {
    e.Binary? && Prec(e.op) > k
  }

  /** `e` printed to be read by the parser at level `k`. A left operand is
      printed at its operator's level and a right operand one level below, so
      an operand of equal precedence is parenthesized only on the right. */
  function PrintAt(e: Ast.Expr, k: nat): seq<TokenType>
    decreases e, 2, 0
  {
    if NeedsParens(e, k) then [LParen] + Bare(e) + [RParen] else Bare(e)
  }

  /** `e` printed without parentheses around itself. */
  function Bare(e: Ast.Expr): seq<TokenType>
    decreases e, 1, 0
  {
    match e
    case Number(v) => [Number(v)]
    case Variable(x) => [Ident(x)]
    case Binary(op, l, r) => PrintAt(l, Prec(op)) + [OpToken(op)] + PrintAt(r, Prec(op) - 1)
    case Unary(u, x) => [UnaryToken(u)] + PrintAt(x, UnaryLevel)
    case Call(f, args) => [Ident(f), LParen] + PrintArgs(e, 0) + [RParen]
  }

  /** The arguments of call `e` from the `i`-th on, separated by commas. */
  function PrintArgs(e: Ast.Expr, i: nat): seq<TokenType>
    requires e.Call? && i <= |e.args|
    decreases e, 0, |e.args| - i
  {
    if i == |e.args| then []
    else (if i == 0 then [] else [Comma]) + PrintAt(e.args[i], ExprLevel) + PrintArgs(e, i + 1)
  }

  /** An expression as it may appear anywhere: at the loosest level. */
  function Print(e: Ast.Expr): seq<TokenType> {
    PrintAt(e, ExprLevel)
  }

  /** The tokens an expression can start with. */
  predicate StartsExpr(t: TokenType) {
    t.Number? || t.Ident? || t == Bang || t == Minus || t == LParen
  }

  lemma {:induction false} PrintStart(e: Ast.Expr, k: nat)
    ensures |PrintAt(e, k)| > 0 && StartsExpr(PrintAt(e, k)[0])
    decreases e
  {
    match e
    case Binary(op, l, r) =>
      PrintStart(l, Prec(op));
    case _ =>
  }

  /** No printed expression contains `=`: an expression statement is never
      mistaken for an assignment. */
  lemma {:induction false} PrintNoAssign(e: Ast.Expr, k: nat)
    ensures Assign !in PrintAt(e, k)
    decreases e, 1, 0
  {
    match e
    case Number(_) =>
    case Variable(_) =>
    case Binary(op, l, r) =>
      PrintNoAssign(l, Prec(op));
      PrintNoAssign(r, Prec(op) - 1);
    case Unary(u, x) =>
      PrintNoAssign(x, UnaryLevel);
    case Call(f, args) =>
      ArgsNoAssign(e, 0);
  }

  lemma {:induction false} ArgsNoAssign(e: Ast.Expr, i: nat)
    requires e.Call? && i <= |e.args|
    ensures Assign !in PrintArgs(e, i)
    decreases e, 0, |e.args| - i
  {
    if i < |e.args| {
      PrintNoAssign(e.args[i], ExprLevel);
      ArgsNoAssign(e, i + 1);
    }
  }

  // ---------------------------------------------------------------------------
  // The parser inverts the printer
  // ---------------------------------------------------------------------------

  /** A token that may follow an expression read at level `k`: not `(` (which
      would turn a variable into a call) and no operator of a level below `k`
      (which the parser would have taken into the expression). */
  predicate Follows(t: TokenType, k: nat) {
    t != LParen && !(2 <= OpLevel(t) < k)
  }

  /** What the parser at level `k` does once it has read `e` and stands at `q`:
      at a binary level it goes on looking for operators of that level. */
  function Then(toks: seq<Token>, q: nat, k: nat, e: Ast.Expr): Parsed<Ast.Expr>
    requires ValidPos(toks, q) && 1 <= k <= ExprLevel
  {
    if k >= 2 then LevelRest(toks, q, k, e) else Ok((e, q))
  }

  // One step of the parser at a time

  lemma ThenStops(toks: seq<Token>, q: nat, k: nat, e: Ast.Expr)
    requires ValidPos(toks, q) && 1 <= k <= ExprLevel && OpLevel(toks[q].typ) != k
    ensures Then(toks, q, k, e) == Ok((e, q))
  {
  }

  /** A binary level meets an operator of its own level: it reads the right
      operand one level below and makes the left one the node's left child. */
  lemma LevelStep(toks: seq<Token>, m: nat, j: nat, l: Ast.Expr, r: Ast.Expr, q: nat)
    requires ValidPos(toks, m) && 2 <= j <= ExprLevel && OpLevel(toks[m].typ) == j
    requires ValidPos(toks, m + 1) && ParseLevel(toks, m + 1, j - 1) == Ok((r, q))
    ensures LevelRest(toks, m, j, l) == LevelRest(toks, q, j, Ast.Binary(BinOpOf(toks[m].typ), l, r))
  {
  }

  /** The unary level leaves every token but `!` and `-` to `parse_primary`. */
  lemma UnaryPrimary(toks: seq<Token>, pos: nat)
    requires ValidPos(toks, pos) && toks[pos].typ != Bang && toks[pos].typ != Minus
    ensures ParseLevel(toks, pos, UnaryLevel) == ParsePrimary(toks, pos)
  {
  }

  lemma UnaryStep(toks: seq<Token>, pos: nat, u: Ast.UnaryOp, x: Ast.Expr, q: nat)
    requires ValidPos(toks, pos) && toks[pos].typ == UnaryToken(u)
    requires ValidPos(toks, pos + 1) && ParseLevel(toks, pos + 1, UnaryLevel) == Ok((x, q))
    ensures ParseLevel(toks, pos, UnaryLevel) == Ok((Ast.Unary(u, x), q))
  {
  }

  lemma CallStep(toks: seq<Token>, pos: nat, f: string, args: seq<Ast.Expr>, q: nat)
    requires ValidPos(toks, pos + 2) && toks[pos].typ == Ident(f) && toks[pos + 1].typ == LParen
    requires ParseArgs(toks, pos + 2) == Ok((args, q))
    requires toks[q].typ == RParen && q + 1 < |toks|
    ensures ParseLevel(toks, pos, UnaryLevel) == Ok((Ast.Call(f, args), q + 1))
  {
    UnaryPrimary(toks, pos);
  }

  lemma ParensStep(toks: seq<Token>, pos: nat, e: Ast.Expr, q: nat)
    requires ValidPos(toks, pos + 1) && toks[pos].typ == LParen
    requires ParseLevel(toks, pos + 1, ExprLevel) == Ok((e, q))
    requires toks[q].typ == RParen && q + 1 < |toks|
    ensures ParseLevel(toks, pos, UnaryLevel) == Ok((e, q + 1))
  {
    UnaryPrimary(toks, pos);
  }

  /** Once level `i` has read `e` and the next token is no operator of the levels
      between `i` and `k`, level `k` has read `e` too and stands at `q`. */
  lemma {:induction false} Lift(toks: seq<Token>, pos: nat, i: nat, k: nat, e: Ast.Expr, q: nat)
    requires 1 <= i < k <= ExprLevel && ValidPos(toks, pos) && ValidPos(toks, q)
    requires ParseLevel(toks, pos, i) == Ok((e, q))
    requires !(i < OpLevel(toks[q].typ) < k)
    ensures ParseLevel(toks, pos, k) == LevelRest(toks, q, k, e)
    decreases k
  {
    if k - 1 > i {
      Lift(toks, pos, i, k - 1, e, q);
      ThenStops(toks, q, k - 1, e);
    }
  }

  /** The printer's main inverse property, at every level `k`: the parser at
      level `k` reads back exactly the printed expression, which ends at `q`,
      and then carries on as it would after any expression. */
  lemma {:induction false} ParseAt(toks: seq<Token>, pos: nat, e: Ast.Expr, k: nat, q: nat)
    requires 1 <= k <= ExprLevel
    requires q == pos + |PrintAt(e, k)| && Spells(toks, pos, PrintAt(e, k))
    requires Follows(toks[q].typ, k)
    ensures ParseLevel(toks, pos, k) == Then(toks, q, k, e)
    decreases e, 4, 0
  {
    if e.Binary? && Prec(e.op) <= k {
      ParseAtBinary(toks, pos, e, k, q);
    } else {
      ParseOperand(toks, pos, e, k, q);
      if k > 1 {
        Lift(toks, pos, 1, k, e, q);
      }
    }
  }

  /** A binary expression that needs no parentheses at level `k`. */
  lemma {:induction false} ParseAtBinary(toks: seq<Token>, pos: nat, e: Ast.Expr, k: nat, q: nat)
    requires 1 <= k <= ExprLevel && e.Binary? && Prec(e.op) <= k
    requires q == pos + |PrintAt(e, k)| && Spells(toks, pos, PrintAt(e, k))
    requires Follows(toks[q].typ, k)
    ensures ParseLevel(toks, pos, k) == Then(toks, q, k, e)
    decreases e, 3, 0
  {
    var j := Prec(e.op);
    ParseBinary(toks, pos, e.op, e.left, e.right, k, q);
    if j < k {
      ThenStops(toks, q, j, e);
      Lift(toks, pos, j, k, e, q);
    }
  }

  /** A bare binary expression of level `j`: level `j` reads it whole and then
      looks at the token after it. */
  lemma {:induction false} ParseBinary(toks: seq<Token>, pos: nat, op: Ast.BinOp, l: Ast.Expr, r: Ast.Expr, k: nat, q: nat)
    requires Prec(op) <= k <= ExprLevel
    requires q == pos + |Bare(Ast.Binary(op, l, r))| && Spells(toks, pos, Bare(Ast.Binary(op, l, r)))
    requires Follows(toks[q].typ, k)
    ensures ParseLevel(toks, pos, Prec(op)) == LevelRest(toks, q, Prec(op), Ast.Binary(op, l, r))
    decreases Ast.Binary(op, l, r), 1, 0
  {
    var j := Prec(op);
    var m := pos + |PrintAt(l, j)|;
    var n := m + 1;
    SpellsMiddle(toks, pos, PrintAt(l, j), OpToken(op), PrintAt(r, j - 1), m, n);
    ParseAt(toks, pos, l, j, m);
    ParseRight(toks, m, op, l, r, k, n, q);
  }

  /** At an operator of its own level `j`, the level reads the right operand one
      level below and builds the node. */
  lemma {:induction false} ParseRight(toks: seq<Token>, m: nat, op: Ast.BinOp, l: Ast.Expr, r: Ast.Expr, k: nat, n: nat, q: nat)
    requires Prec(op) <= k <= ExprLevel && n == m + 1
    requires q == n + |PrintAt(r, Prec(op) - 1)| && Spells(toks, n, PrintAt(r, Prec(op) - 1))
    requires toks[m].typ == OpToken(op) && Follows(toks[q].typ, k)
    ensures LevelRest(toks, m, Prec(op), l) == LevelRest(toks, q, Prec(op), Ast.Binary(op, l, r))
    decreases r, 4, 1
  {
    var j := Prec(op);
    ParseAt(toks, n, r, j - 1, q);
    ThenStops(toks, q, j - 1, r);
    LevelStep(toks, m, j, l, r, q);
  }

  /** An expression that is no bare binary one at level `k` (a number, a
      variable, a call, a unary or a parenthesized expression) is read whole
      by the unary level. */
  lemma {:induction false} ParseOperand(toks: seq<Token>, pos: nat, e: Ast.Expr, k: nat, q: nat)
    requires 1 <= k <= ExprLevel && !(e.Binary? && Prec(e.op) <= k)
    requires q == pos + |PrintAt(e, k)| && Spells(toks, pos, PrintAt(e, k))
    requires toks[q].typ != LParen
    ensures ParseLevel(toks, pos, UnaryLevel) == Ok((e, q))
    decreases e, 2, 0
  {
    if e.Binary? {
      ParseParenthesized(toks, pos, e.op, e.left, e.right, k, q);
    } else {
      ParseAtom(toks, pos, e, q);
    }
  }

  /** A number, a variable, a call or a unary expression, never parenthesized. */
  lemma {:induction false} ParseAtom(toks: seq<Token>, pos: nat, e: Ast.Expr, q: nat)
    requires !e.Binary?
    requires q == pos + |Bare(e)| && Spells(toks, pos, Bare(e))
    requires toks[q].typ != LParen
    ensures ParseLevel(toks, pos, UnaryLevel) == Ok((e, q))
    decreases e, 1, 3
  {
    match e
    case Number(v) =>
      SpellsAt(toks, pos, [Number(v)], 0, pos);
      UnaryPrimary(toks, pos);
    case Variable(x) =>
      SpellsAt(toks, pos, [Ident(x)], 0, pos);
      UnaryPrimary(toks, pos);
    case Unary(u, x) =>
      ParseUnary(toks, pos, u, x, q);
    case Call(f, args) =>
      ParseCall(toks, pos, f, args, q);
  }

  /** A prefix operator and its operand, itself read at the unary level. */
  lemma {:induction false} ParseUnary(toks: seq<Token>, pos: nat, u: Ast.UnaryOp, x: Ast.Expr, q: nat)
    requires q == pos + |Bare(Ast.Unary(u, x))| && Spells(toks, pos, Bare(Ast.Unary(u, x)))
    requires toks[q].typ != LParen
    ensures ParseLevel(toks, pos, UnaryLevel) == Ok((Ast.Unary(u, x), q))
    decreases Ast.Unary(u, x), 1, 0
  {
    var n := pos + 1;
    SpellsCons(toks, pos, UnaryToken(u), PrintAt(x, UnaryLevel), n);
    ParseAt(toks, n, x, UnaryLevel, q);
    UnaryStep(toks, pos, u, x, q);
  }

  /** A call: the name, `(`, the arguments and `)`. */
  lemma {:induction false} ParseCall(toks: seq<Token>, pos: nat, f: string, args: seq<Ast.Expr>, q: nat)
    requires q == pos + |Bare(Ast.Call(f, args))| && Spells(toks, pos, Bare(Ast.Call(f, args)))
    ensures ParseLevel(toks, pos, UnaryLevel) == Ok((Ast.Call(f, args), q))
    decreases Ast.Call(f, args), 1, 0
  {
    var e := Ast.Call(f, args);
    var printed := PrintArgs(e, 0);
    var inner := pos + 2;
    var end := inner + |printed|;
    assert Bare(e) == [Ident(f), LParen] + printed + [RParen];
    assert q == end + 1;
    SpellsCall(toks, pos, Ident(f), LParen, printed, RParen, inner, end);
    ParseArgList(toks, inner, e, end);
    CallStep(toks, pos, f, args, end);
  }

  /** A binary expression in parentheses, read by `parse_primary`. */
  lemma {:induction false} ParseParenthesized(toks: seq<Token>, pos: nat, op: Ast.BinOp, l: Ast.Expr, r: Ast.Expr, k: nat, q: nat)
    requires Prec(op) > k
    requires q == pos + |PrintAt(Ast.Binary(op, l, r), k)| && Spells(toks, pos, PrintAt(Ast.Binary(op, l, r), k))
    ensures ParseLevel(toks, pos, UnaryLevel) == Ok((Ast.Binary(op, l, r), q))
    decreases Ast.Binary(op, l, r), 1, 2
  {
    var e := Ast.Binary(op, l, r);
    var inner := pos + 1;
    var end := inner + |Bare(e)|;
    SpellsAround(toks, pos, LParen, Bare(e), RParen, inner, end);
    ParseInner(toks, inner, op, l, r, end);
    ParensStep(toks, pos, e, end);
  }

  /** Inside parentheses: a bare binary expression followed by `)`. */
  lemma {:induction false} ParseInner(toks: seq<Token>, pos: nat, op: Ast.BinOp, l: Ast.Expr, r: Ast.Expr, q: nat)
    requires q == pos + |Bare(Ast.Binary(op, l, r))| && Spells(toks, pos, Bare(Ast.Binary(op, l, r)))
    requires toks[q].typ == RParen
    ensures ParseLevel(toks, pos, ExprLevel) == Ok((Ast.Binary(op, l, r), q))
    decreases Ast.Binary(op, l, r), 1, 1
  {
    var e := Ast.Binary(op, l, r);
    ParseBinary(toks, pos, op, l, r, ExprLevel, q);
    ThenStops(toks, q, Prec(op), e);
    if Prec(op) < ExprLevel {
      Lift(toks, pos, Prec(op), ExprLevel, e, q);
    }
  }

  /** One argument, read whole at the loosest level; `,` or `)` follows it. */
  lemma {:induction false} ParseArg(toks: seq<Token>, start: nat, e: Ast.Expr, i: nat, m: nat, end: nat)
    requires e.Call? && i < |e.args|
    requires m == start + |PrintAt(e.args[i], ExprLevel)| && end == m + |PrintArgs(e, i + 1)|
    requires Spells(toks, start, PrintAt(e.args[i], ExprLevel) + PrintArgs(e, i + 1))
    requires toks[end].typ == RParen
    ensures Spells(toks, m, PrintArgs(e, i + 1))
    ensures ParseLevel(toks, start, ExprLevel) == Ok((e.args[i], m))
    decreases e, 0, |e.args| - i, 0
  {
    var a := e.args[i];
    SpellsSplit(toks, start, PrintAt(a, ExprLevel), PrintArgs(e, i + 1), m);
    if i + 1 < |e.args| {
      SpellsAt(toks, m, PrintArgs(e, i + 1), 0, m);
    }
    ParseAt(toks, start, a, ExprLevel, m);
    ThenStops(toks, m, ExprLevel, a);
  }

  lemma ArgsFirstStep(toks: seq<Token>, pos: nat, a: Ast.Expr, m: nat)
    requires ValidPos(toks, pos) && toks[pos].typ != RParen
    requires ParseLevel(toks, pos, ExprLevel) == Ok((a, m))
    ensures ParseArgs(toks, pos) == ArgsRest(toks, m, [a])
  {
  }

  lemma ArgsNextStep(toks: seq<Token>, pos: nat, done: seq<Ast.Expr>, a: Ast.Expr, m: nat)
    requires ValidPos(toks, pos + 1) && toks[pos].typ == Comma
    requires ParseLevel(toks, pos + 1, ExprLevel) == Ok((a, m))
    ensures ArgsRest(toks, pos, done) == ArgsRest(toks, m, done + [a])
  {
  }

  /** The whole argument list of call `e`, followed by `)` at `end`. */
  lemma {:induction false} ParseArgList(toks: seq<Token>, pos: nat, e: Ast.Expr, end: nat)
    requires e.Call?
    requires end == pos + |PrintArgs(e, 0)| && Spells(toks, pos, PrintArgs(e, 0))
    requires toks[end].typ == RParen
    ensures ParseArgs(toks, pos) == Ok((e.args, end))
    decreases e, 0, |e.args| + 1, 1
  {
    if |e.args| > 0 {
      var m := ParseFirstArg(toks, pos, e, end);
      ParseLaterArgs(toks, m, e, 1, end);
    }
  }

  /** The first argument opens the list: `parse_arg_list` reads it and moves
      on to the loop over the others. */
  lemma {:induction false} ParseFirstArg(toks: seq<Token>, pos: nat, e: Ast.Expr, end: nat) returns (m: nat)
    requires e.Call? && |e.args| > 0
    requires end == pos + |PrintArgs(e, 0)| && Spells(toks, pos, PrintArgs(e, 0))
    requires toks[end].typ == RParen
    ensures end == m + |PrintArgs(e, 1)|
    ensures Spells(toks, m, PrintArgs(e, 1))
    ensures ParseArgs(toks, pos) == ArgsRest(toks, m, e.args[..1])
    decreases e, 0, |e.args| + 1, 0
  {
    var a := e.args[0];
    m := pos + |PrintAt(a, ExprLevel)|;
    assert PrintArgs(e, 0) == PrintAt(a, ExprLevel) + PrintArgs(e, 1);
    PrintStart(a, ExprLevel);
    SpellsAt(toks, pos, PrintArgs(e, 0), 0, pos);
    ParseArg(toks, pos, e, 0, m, end);
    ArgsFirstStep(toks, pos, a, m);
    assert [a] == e.args[..1];
  }

  /** The arguments of call `e` from the `i`-th on (each after its comma),
      followed by `)` at `end`, read by the loop of `parse_arg_list`. */
  lemma {:induction false} ParseLaterArgs(toks: seq<Token>, pos: nat, e: Ast.Expr, i: nat, end: nat)
    requires e.Call? && 0 < i <= |e.args|
    requires end == pos + |PrintArgs(e, i)| && Spells(toks, pos, PrintArgs(e, i))
    requires toks[end].typ == RParen
    ensures ArgsRest(toks, pos, e.args[..i]) == Ok((e.args, end))
    decreases e, 0, |e.args| - i, 1
  {
    if i == |e.args| {
      assert e.args[..i] == e.args;
    } else {
      var a := e.args[i];
      var j := i + 1;
      var n := pos + 1;
      var m := n + |PrintAt(a, ExprLevel)|;
      assert PrintArgs(e, i) == [Comma] + (PrintAt(a, ExprLevel) + PrintArgs(e, j));
      SpellsCons(toks, pos, Comma, PrintAt(a, ExprLevel) + PrintArgs(e, j), n);
      ParseArg(toks, n, e, i, m, end);
      ArgsNextStep(toks, pos, e.args[..i], a, m);
      assert e.args[..i] + [a] == e.args[..j];
      ParseLaterArgs(toks, m, e, j, end);
    }
  }

  /** An expression followed by a token that is neither an operator nor `(`
      is read back exactly by `parse_expr`. */
  lemma ExprRoundTrip(toks: seq<Token>, pos: nat, e: Ast.Expr, q: nat)
    requires q == pos + |Print(e)| && Spells(toks, pos, Print(e))
    requires OpLevel(toks[q].typ) == 0 && toks[q].typ != LParen
    ensures ParseExpr(toks, pos) == Ok((e, q))
  {
    ParseAt(toks, pos, e, ExprLevel, q);
  }
}
