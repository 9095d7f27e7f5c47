/** Precedence, associativity and error reporting of src/parser.rs on small
    token lists, the cases the parser promises: `a + b * 2` groups the
    product, `a - b - c` groups to the left, prefix operators bind tighter than
    any binary one, and a trailing comma is reported at the token after it. */
module ParserExamples {
  import opened Wrappers
  import opened Tokens
  import Ast
  import opened ParserSpec
  import opened ParserProperties

  /** A token that ends an expression at every level. */
  predicate Ender(t: TokenType) {
    OpLevel(t) == 0 && t != LParen
  }

  /** `a + b * 2` is `a + (b * 2)`: `*` binds tighter than `+`. */
  lemma PrecedenceExample(toks: seq<Token>, pos: nat, end: nat)
    requires Spells(toks, pos, [Ident("a"), Plus, Ident("b"), Star, Number(2)])
    requires end == pos + 5 && Ender(toks[end].typ)
    ensures ParseExpr(toks, pos)
            == Ok((Ast.Binary(Ast.Add, Ast.Variable("a"), Ast.Binary(Ast.Mul, Ast.Variable("b"), Ast.Number(2))), end))
  {
    var e := Ast.Binary(Ast.Add, Ast.Variable("a"), Ast.Binary(Ast.Mul, Ast.Variable("b"), Ast.Number(2)));
    assert Print(e) == [Ident("a"), Plus, Ident("b"), Star, Number(2)];
    ExprRoundTrip(toks, pos, e, end);
  }

  /** `a * b + 2` is `(a * b) + 2`. */
  lemma PrecedenceLeftExample(toks: seq<Token>, pos: nat, end: nat)
    requires Spells(toks, pos, [Ident("a"), Star, Ident("b"), Plus, Number(2)])
    requires end == pos + 5 && Ender(toks[end].typ)
    ensures ParseExpr(toks, pos)
            == Ok((Ast.Binary(Ast.Add, Ast.Binary(Ast.Mul, Ast.Variable("a"), Ast.Variable("b")), Ast.Number(2)), end))
  {
    var e := Ast.Binary(Ast.Add, Ast.Binary(Ast.Mul, Ast.Variable("a"), Ast.Variable("b")), Ast.Number(2));
    assert Print(e) == [Ident("a"), Star, Ident("b"), Plus, Number(2)];
    ExprRoundTrip(toks, pos, e, end);
  }

  /** `a - b - c` is `(a - b) - c`: operators of one level group to the left. */
  lemma AssociativityExample(toks: seq<Token>, pos: nat, end: nat)
    requires Spells(toks, pos, [Ident("a"), Minus, Ident("b"), Minus, Ident("c")])
    requires end == pos + 5 && Ender(toks[end].typ)
    ensures ParseExpr(toks, pos)
            == Ok((Ast.Binary(Ast.Sub, Ast.Binary(Ast.Sub, Ast.Variable("a"), Ast.Variable("b")), Ast.Variable("c")), end))
  {
    var e := Ast.Binary(Ast.Sub, Ast.Binary(Ast.Sub, Ast.Variable("a"), Ast.Variable("b")), Ast.Variable("c"));
    assert Print(e) == [Ident("a"), Minus, Ident("b"), Minus, Ident("c")];
    ExprRoundTrip(toks, pos, e, end);
  }

  /** `a || b && c` is `a || (b && c)`: `&&` binds tighter than `||`. */
  lemma LogicExample(toks: seq<Token>, pos: nat, end: nat)
    requires Spells(toks, pos, [Ident("a"), Or, Ident("b"), And, Ident("c")])
    requires end == pos + 5 && Ender(toks[end].typ)
    ensures ParseExpr(toks, pos)
            == Ok((Ast.Binary(Ast.Or, Ast.Variable("a"), Ast.Binary(Ast.And, Ast.Variable("b"), Ast.Variable("c"))), end))
  {
    var e := Ast.Binary(Ast.Or, Ast.Variable("a"), Ast.Binary(Ast.And, Ast.Variable("b"), Ast.Variable("c")));
    assert Print(e) == [Ident("a"), Or, Ident("b"), And, Ident("c")];
    ExprRoundTrip(toks, pos, e, end);
  }

  /** `- a * b` is `(-a) * b`: a prefix operator binds tighter than `*`. */
  lemma UnaryExample(toks: seq<Token>, pos: nat, end: nat)
    requires Spells(toks, pos, [Minus, Ident("a"), Star, Ident("b")])
    requires end == pos + 4 && Ender(toks[end].typ)
    ensures ParseExpr(toks, pos)
            == Ok((Ast.Binary(Ast.Mul, Ast.Unary(Ast.Neg, Ast.Variable("a")), Ast.Variable("b")), end))
  {
    var e := Ast.Binary(Ast.Mul, Ast.Unary(Ast.Neg, Ast.Variable("a")), Ast.Variable("b"));
    assert Print(e) == [Minus, Ident("a"), Star, Ident("b")];
    ExprRoundTrip(toks, pos, e, end);
  }

  /** `! ! x` is `!(!x)`: prefix operators nest to the right. */
  lemma NestedUnaryExample(toks: seq<Token>, pos: nat, end: nat)
    requires Spells(toks, pos, [Bang, Bang, Ident("x")])
    requires end == pos + 3 && Ender(toks[end].typ)
    ensures ParseExpr(toks, pos) == Ok((Ast.Unary(Ast.Not, Ast.Unary(Ast.Not, Ast.Variable("x"))), end))
  {
    var e := Ast.Unary(Ast.Not, Ast.Unary(Ast.Not, Ast.Variable("x")));
    assert Print(e) == [Bang, Bang, Ident("x")];
    ExprRoundTrip(toks, pos, e, end);
  }

  /** `( a + b ) * 2`: parentheses override precedence. */
  lemma ParenthesesExample(toks: seq<Token>, pos: nat, end: nat)
    requires Spells(toks, pos, [LParen, Ident("a"), Plus, Ident("b"), RParen, Star, Number(2)])
    requires end == pos + 7 && Ender(toks[end].typ)
    ensures ParseExpr(toks, pos)
            == Ok((Ast.Binary(Ast.Mul, Ast.Binary(Ast.Add, Ast.Variable("a"), Ast.Variable("b")), Ast.Number(2)), end))
  {
    var e := Ast.Binary(Ast.Mul, Ast.Binary(Ast.Add, Ast.Variable("a"), Ast.Variable("b")), Ast.Number(2));
    assert Print(e) == [LParen, Ident("a"), Plus, Ident("b"), RParen, Star, Number(2)];
    ExprRoundTrip(toks, pos, e, end);
  }

  /** `f ( )`: an empty argument list. */
  lemma EmptyCallExample(toks: seq<Token>, pos: nat, end: nat)
    requires Spells(toks, pos, [Ident("f"), LParen, RParen])
    requires end == pos + 3 && Ender(toks[end].typ)
    ensures ParseExpr(toks, pos) == Ok((Ast.Call("f", []), end))
  {
    var e := Ast.Call("f", []);
    assert Print(e) == [Ident("f"), LParen, RParen];
    ExprRoundTrip(toks, pos, e, end);
  }

  // ---------------------------------------------------------------------------
  // Errors
  // ---------------------------------------------------------------------------

  /** At a token no expression starts with, every level of the expression
      parser fails with ExpectedExpression, reported at that token. */
  lemma {:induction false} NoExpression(toks: seq<Token>, p: nat, k: nat)
    requires ValidPos(toks, p) && k <= ExprLevel && !StartsExpr(toks[p].typ)
    ensures ParseLevel(toks, p, k) == Err(ErrorAt(toks, p, ExpectedExpression))
    decreases k
  {
    if k > UnaryLevel {
      NoExpression(toks, p, k - 1);
    }
  }

  /** An error of the unary level is the error of every binary level above it. */
  lemma {:induction false} ErrorLifts(toks: seq<Token>, p: nat, k: nat, e: ParseError)
    requires ValidPos(toks, p) && UnaryLevel <= k <= ExprLevel
    requires ParseLevel(toks, p, UnaryLevel) == Err(e)
    ensures ParseLevel(toks, p, k) == Err(e)
    decreases k
  {
    if k > UnaryLevel {
      ErrorLifts(toks, p, k - 1, e);
    }
  }

  /** `f ( a , )`: a comma must be followed by another argument; the error is
      ExpectedExpression at the `)`. */
  lemma TrailingCommaArgs(toks: seq<Token>, pos: nat)
    requires Spells(toks, pos, [Ident("f"), LParen, Ident("a"), Comma, RParen])
    ensures ParseExpr(toks, pos) == Err(ErrorAt(toks, pos + 4, ExpectedExpression))
  {
    var ts := [Ident("f"), LParen, Ident("a"), Comma, RParen];
    var a, c, r := pos + 2, pos + 3, pos + 4;
    var err := ErrorAt(toks, r, ExpectedExpression);
    SpellsAt(toks, pos, ts, 0, pos);
    SpellsAt(toks, pos, ts, 1, pos + 1);
    SpellsAt(toks, pos, ts, 2, a);
    SpellsAt(toks, pos, ts, 3, c);
    SpellsAt(toks, pos, ts, 4, r);
    ArgsAfterComma(toks, a, c, r);
    assert ParsePrimary(toks, pos) == Err(err);
    assert ParseLevel(toks, pos, UnaryLevel) == Err(err);
    ErrorLifts(toks, pos, ExprLevel, err);
  }

  /** The arguments `a , )`: the argument list fails at the `)`. */
  lemma ArgsAfterComma(toks: seq<Token>, a: nat, c: nat, r: nat)
    requires ValidPos(toks, r) && c == a + 1 && r == c + 1
    requires toks[a].typ == Ident("a") && toks[c].typ == Comma && toks[r].typ == RParen
    ensures ParseArgs(toks, a) == Err(ErrorAt(toks, r, ExpectedExpression))
  {
    NoExpression(toks, r, ExprLevel);
    ArgumentA(toks, a, c);
    assert Advance(toks, c) == r;
    assert ArgsRest(toks, c, [Ast.Variable("a")]) == Err(ErrorAt(toks, r, ExpectedExpression));
  }

  /** The lone variable `a` before a comma. */
  lemma ArgumentA(toks: seq<Token>, a: nat, c: nat)
    requires ValidPos(toks, c) && c == a + 1 && toks[a].typ == Ident("a") && toks[c].typ == Comma
    ensures ParseLevel(toks, a, ExprLevel) == Ok((Ast.Variable("a"), c))
  {
    var e := Ast.Variable("a");
    assert Print(e) == [Ident("a")];
    ExprRoundTrip(toks, a, e, c);
  }

  /** `func f ( a , )`: a comma in a parameter list must be followed by a
      name; the error is ExpectedParameterName at the `)`. */
  lemma TrailingCommaParams(toks: seq<Token>, pos: nat)
    requires Spells(toks, pos, [Func, Ident("f"), LParen, Ident("a"), Comma, RParen])
    ensures ParseFunction(toks, pos) == Err(ErrorAt(toks, pos + 5, ExpectedParameterName))
  {
    var ts := [Func, Ident("f"), LParen, Ident("a"), Comma, RParen];
    SpellsAt(toks, pos, ts, 0, pos);
    SpellsAt(toks, pos, ts, 1, pos + 1);
    SpellsAt(toks, pos, ts, 2, pos + 2);
    SpellsAt(toks, pos, ts, 3, pos + 3);
    SpellsAt(toks, pos, ts, 4, pos + 4);
    SpellsAt(toks, pos, ts, 5, pos + 5);
  }
}
