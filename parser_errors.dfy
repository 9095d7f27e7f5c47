/** The inputs src/parser.rs rejects, for every token list: a parameter list
    whose comma is not followed by a name, and each way a statement, a block or
    a function can break off, with the error and the token it is reported at. */
module ParserErrors {
  import opened Wrappers
  import opened Tokens
  import Ast
  import opened ParserSpec
  import ParserProperties
  import ParserExamples
  import ParserStatements

  // ---------------------------------------------------------------------------
  // Parameter lists
  // ---------------------------------------------------------------------------

  /** From `pos` on, the tokens are `, n1 , n2 … , nk` for the given names,
      and a token follows them. */
  predicate CommaNames(toks: seq<Token>, pos: nat, names: seq<string>)
    decreases |names|
  {
    if |names| == 0 then pos < |toks|
    else
      && pos + 1 < |toks|
      && toks[pos].typ == Comma && toks[pos + 1].typ == Ident(names[0])
      && CommaNames(toks, pos + 2, names[1..])
  }

  /** The loop of `parse_param_list` over `, n1 … , nk` followed by a token
      that is no comma: it stops there with the names appended. */
  lemma {:induction false} ParamsRestStops(toks: seq<Token>, pos: nat, params: seq<string>, names: seq<string>, q: nat)
    requires ValidPos(toks, pos) && CommaNames(toks, pos, names) && q == pos + 2 * |names| < |toks|
    requires !Check(toks, q, Comma)
    ensures ParamsRest(toks, pos, params) == Ok((params + names, q))
    decreases |names|
  {
    if |names| > 0 {
      var next, rest := pos + 2, names[1..];
      assert ValidPos(toks, next) && CommaNames(toks, next, rest)
             && ParamsRest(toks, pos, params) == ParamsRest(toks, next, params + [names[0]]) by {
        ParserStatements.ParamsRestStep(toks, pos, params, names[0]);
      }
      ParamsRestStops(toks, next, params + [names[0]], rest, q);
      assert params + [names[0]] + rest == params + names;
    } else {
      assert params + names == params;
    }
  }

  /** The loop of `parse_param_list` over `, n1 … , nk` followed by a comma
      and a token that is no identifier: it fails at that token with
      ExpectedParameterName. */
  lemma {:induction false} ParamsRestFails(toks: seq<Token>, pos: nat, params: seq<string>, names: seq<string>, q: nat)
    requires ValidPos(toks, pos) && CommaNames(toks, pos, names) && q == pos + 2 * |names| < |toks|
    requires Check(toks, q, Comma) && !toks[q + 1].typ.Ident?
    ensures ParamsRest(toks, pos, params) == Err(ErrorAt(toks, q + 1, ExpectedParameterName))
    decreases |names|
  {
    if |names| > 0 {
      var next, rest := pos + 2, names[1..];
      assert ValidPos(toks, next) && CommaNames(toks, next, rest)
             && ParamsRest(toks, pos, params) == ParamsRest(toks, next, params + [names[0]]) by {
        ParserStatements.ParamsRestStep(toks, pos, params, names[0]);
      }
      ParamsRestFails(toks, next, params + [names[0]], rest, q);
    } else {
      assert Advance(toks, pos) == pos + 1;
    }
  }

  /** `func f ( a , … , x` where `x` is no identifier: parsing the function
      fails at `x` with ExpectedParameterName, whatever follows. */
  lemma ParamAfterCommaMissing(toks: seq<Token>, pos: nat, f: string, first: string, names: seq<string>)
    requires ValidPos(toks, pos + 3)
    requires toks[pos].typ == Func && toks[pos + 1].typ == Ident(f)
    requires toks[pos + 2].typ == LParen && toks[pos + 3].typ == Ident(first)
    requires CommaNames(toks, pos + 4, names) && pos + 4 + 2 * |names| < |toks|
    requires Check(toks, pos + 4 + 2 * |names|, Comma) && !toks[pos + 5 + 2 * |names|].typ.Ident?
    ensures ParseFunction(toks, pos) == Err(ErrorAt(toks, pos + 5 + 2 * |names|, ExpectedParameterName))
  {
    ParamsRestFails(toks, pos + 4, [first], names, pos + 4 + 2 * |names|);
    assert ParseParams(toks, pos + 3) == ParamsRest(toks, pos + 4, [first]);
  }

  /** `func` followed by a token that is no identifier. */
  lemma FunctionNeedsName(toks: seq<Token>, pos: nat)
    requires ValidPos(toks, pos) && toks[pos].typ == Func && !toks[pos + 1].typ.Ident?
    ensures ParseFunction(toks, pos) == Err(ErrorAt(toks, pos + 1, ExpectedFunctionName))
  {
  }

  // ---------------------------------------------------------------------------
  // Blocks
  // ---------------------------------------------------------------------------

  /** A block must open with `{`. */
  lemma BlockNeedsBrace(toks: seq<Token>, pos: nat)
    requires ValidPos(toks, pos) && !Check(toks, pos, LBrace)
    ensures ParseBlock(toks, pos) == Err(ErrorAt(toks, pos, Expected(LBrace)))
  {
  }

  /** A block still open at Eof: the statement loop stops there and the
      closing `expect` fails at the Eof token. */
  lemma UnclosedBlock(toks: seq<Token>, pos: nat, block: Ast.Block)
    requires ValidPos(toks, pos) && AtEnd(toks, pos)
    ensures BlockRest(toks, pos, block) == Err(ErrorAt(toks, pos, Expected(RBrace)))
  {
  }

  // ---------------------------------------------------------------------------
  // Statements
  // ---------------------------------------------------------------------------

  /** `let` followed by a token that is no identifier. */
  lemma LetNeedsName(toks: seq<Token>, pos: nat)
    requires ValidPos(toks, pos) && toks[pos].typ == Let && !toks[pos + 1].typ.Ident?
    ensures ParseStatement(toks, pos) == Err(ErrorAt(toks, pos + 1, ExpectedVariableName))
  {
  }

  /** `let x` followed by a token other than `=`. */
  lemma LetNeedsAssign(toks: seq<Token>, pos: nat)
    requires ValidPos(toks, pos) && toks[pos].typ == Let && toks[pos + 1].typ.Ident?
    requires !Check(toks, pos + 2, Assign)
    ensures ParseStatement(toks, pos) == Err(ErrorAt(toks, pos + 2, Expected(Assign)))
  {
  }

  /** `let x = e` followed by a token other than `;`. */
  lemma LetNeedsSemicolon(toks: seq<Token>, pos: nat, v: Ast.Expr, q: nat)
    requires ValidPos(toks, pos) && toks[pos].typ == Let && toks[pos + 1].typ.Ident?
    requires toks[pos + 2].typ == Assign && ParseExpr(toks, pos + 3) == Ok((v, q))
    requires !Check(toks, q, Semicolon)
    ensures ParseStatement(toks, pos) == Err(ErrorAt(toks, q, Expected(Semicolon)))
  {
  }

  /** `let x =` followed by no expression: the initializer's error is the
      statement's. */
  lemma LetValueError(toks: seq<Token>, pos: nat, e: ParseError)
    requires ValidPos(toks, pos) && toks[pos].typ == Let && toks[pos + 1].typ.Ident?
    requires toks[pos + 2].typ == Assign && ParseExpr(toks, pos + 3) == Err(e)
    ensures ParseStatement(toks, pos) == Err(e)
  {
  }

  /** `return e` followed by a token other than `;`. */
  lemma ReturnNeedsSemicolon(toks: seq<Token>, pos: nat, v: Ast.Expr, q: nat)
    requires ValidPos(toks, pos) && toks[pos].typ == Return
    requires ParseExpr(toks, pos + 1) == Ok((v, q)) && !Check(toks, q, Semicolon)
    ensures ParseStatement(toks, pos) == Err(ErrorAt(toks, q, Expected(Semicolon)))
  {
  }

  /** `return` needs a value: `return;` is an error of the expression parser. */
  lemma ReturnNeedsValue(toks: seq<Token>, pos: nat)
    requires ValidPos(toks, pos) && toks[pos].typ == Return && toks[pos + 1].typ == Semicolon
    ensures ParseStatement(toks, pos) == Err(ErrorAt(toks, pos + 1, ExpectedExpression))
  {
    assert ParseExpr(toks, pos + 1) == Err(ErrorAt(toks, pos + 1, ExpectedExpression)) by {
      assert !ParserProperties.StartsExpr(Semicolon);
      ParserExamples.NoExpression(toks, pos + 1, ExprLevel);
    }
  }

  /** `if c` followed by a token other than `{`. */
  lemma IfNeedsBlock(toks: seq<Token>, pos: nat, c: Ast.Expr, q: nat)
    requires ValidPos(toks, pos) && toks[pos].typ == If
    requires ParseExpr(toks, pos + 1) == Ok((c, q)) && !Check(toks, q, LBrace)
    ensures ParseStatement(toks, pos) == Err(ErrorAt(toks, q, Expected(LBrace)))
  {
  }

  /** `if c { … } else` followed by a token other than `{`. */
  lemma ElseNeedsBlock(toks: seq<Token>, pos: nat, c: Ast.Expr, q: nat, t: Ast.Block, r: nat)
    requires ValidPos(toks, pos) && toks[pos].typ == If
    requires ParseExpr(toks, pos + 1) == Ok((c, q)) && ParseBlock(toks, q) == Ok((t, r))
    requires toks[r].typ == Else && !Check(toks, r + 1, LBrace)
    ensures ParseStatement(toks, pos) == Err(ErrorAt(toks, r + 1, Expected(LBrace)))
  {
  }

  /** `while c` followed by a token other than `{`. */
  lemma WhileNeedsBlock(toks: seq<Token>, pos: nat, c: Ast.Expr, q: nat)
    requires ValidPos(toks, pos) && toks[pos].typ == While
    requires ParseExpr(toks, pos + 1) == Ok((c, q)) && !Check(toks, q, LBrace)
    ensures ParseStatement(toks, pos) == Err(ErrorAt(toks, q, Expected(LBrace)))
  {
  }

  /** `x = e` followed by a token other than `;`. */
  lemma AssignmentNeedsSemicolon(toks: seq<Token>, pos: nat, v: Ast.Expr, q: nat)
    requires ValidPos(toks, pos) && toks[pos].typ.Ident? && toks[pos + 1].typ == Assign
    requires ParseExpr(toks, pos + 2) == Ok((v, q)) && !Check(toks, q, Semicolon)
    ensures ParseStatement(toks, pos) == Err(ErrorAt(toks, q, Expected(Semicolon)))
  {
  }

  /** A statement that starts with no keyword and is no assignment is an
      expression, which must be followed by `;`. */
  lemma ExprStmtNeedsSemicolon(toks: seq<Token>, pos: nat, v: Ast.Expr, q: nat)
    requires ValidPos(toks, pos)
    requires toks[pos].typ !in {Let, If, While, Return}
    requires !(toks[pos].typ.Ident? && Check(toks, pos + 1, Assign))
    requires ParseExpr(toks, pos) == Ok((v, q)) && !Check(toks, q, Semicolon)
    ensures ParseStatement(toks, pos) == Err(ErrorAt(toks, q, Expected(Semicolon)))
  {
  }
}
