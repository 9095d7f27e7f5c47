/** The parser of src/parser.rs as a class whose methods move a cursor over
    the token list; each method is proved to compute the function of
    ParserSpec that describes it. */
module Parser {
  import opened Wrappers
  import opened Tokens
  import Ast
  import opened ParserSpec

  class Parser {
    const tokens: seq<Token>
    var current: nat

    /** The token list ends with Eof and the cursor is on one of its tokens. */
    ghost predicate Valid()
      reads this
    {
      ValidPos(tokens, current)
    }

    /** A method's result and final cursor are those of the function `s`
        that describes it; after an error only the error is determined. */
    ghost predicate Agrees<T>(r: Result<T, ParseError>, s: Parsed<T>)
      reads this
    {
      match s
      case Ok((v, p)) => r == Ok(v) && current == p
      case Err(e) => r == Err(e)
    }

    /** `Parser::new`: the cursor on the first token. */
    constructor (tokens: seq<Token>)
      requires WellFormed(tokens)
      ensures this.tokens == tokens && current == 0
      ensures Valid()
    {
      this.tokens := tokens;
      current := 0;
    }

    // -------------------------------------------------------------------------
    // Helpers
    // -------------------------------------------------------------------------

    function CurrentToken(): (t: Token)
      reads this
      requires Valid()
      ensures t == tokens[current]
    {
      tokens[current]
    }

    function IsAtEnd(): (b: bool)
      reads this
      requires Valid()
      ensures b <==> AtEnd(tokens, current)
    {
      CurrentToken().typ.Eof?
    }

    function Check(kind: TokenType): (b: bool)
      reads this
      requires Valid()
      ensures b <==> ParserSpec.Check(tokens, current, kind)
    {
      if IsAtEnd() then false else SameVariant(CurrentToken().typ, kind)
    }

    method Advance()
      requires Valid()
      modifies this`current
      ensures Valid() && current == ParserSpec.Advance(tokens, old(current))
    {
      if !IsAtEnd() {
        current := current + 1;
      }
    }

    method Expect(kind: TokenType) returns (r: Result<(), ParseError>)
      requires Valid()
      modifies this`current
      ensures Valid()
      ensures match ParserSpec.Expect(tokens, old(current), kind)
              case Ok(p) => r == Ok(()) && current == p
              case Err(e) => r == Err(e)
    {
      if Check(kind) {
        Advance();
        return Ok(());
      }
      return Err(Error(Expected(kind)));
    }

    function Error(kind: ParseErrorKind): (e: ParseError)
      reads this
      requires Valid()
      ensures e == ErrorAt(tokens, current, kind)
    {
      ParseError(kind, CurrentToken().line, CurrentToken().column)
    }

    // -------------------------------------------------------------------------
    // Programs, functions, blocks, statements
    // -------------------------------------------------------------------------

    method Parse() returns (r: Result<Ast.Program, ParseError>)
      requires Valid()
      modifies this`current
      ensures Valid()
      ensures r == ParseFrom(tokens, old(current), Ast.Program.New())
      ensures r.Ok? ==> AtEnd(tokens, current)
    {
      var program := Ast.Program.New();
      while !IsAtEnd()
        invariant Valid()
        invariant ParseFrom(tokens, current, program) == ParseFrom(tokens, old(current), Ast.Program.New())
        decreases |tokens| - current
      {
        var func :- ParseFunction();
        program := program.AddFunction(func);
      }
      return Ok(program);
    }

    method ParseFunction() returns (r: Result<Ast.Function, ParseError>)
      requires Valid()
      modifies this`current
      ensures Valid() && Agrees(r, ParserSpec.ParseFunction(tokens, old(current)))
    {
      var _ :- Expect(Func);
      if !CurrentToken().typ.Ident? {
        return Err(Error(ExpectedFunctionName));
      }
      var name := CurrentToken().typ.name;
      Advance();
      var _ :- Expect(LParen);
      var params :- ParseParamList();
      var _ :- Expect(RParen);
      var body :- ParseBlock();
      return Ok(Ast.Function(name, params, body));
    }

    method ParseParamList() returns (r: Result<seq<string>, ParseError>)
      requires Valid()
      modifies this`current
      ensures Valid() && Agrees(r, ParseParams(tokens, old(current)))
    {
      var params: seq<string> := [];
      if CurrentToken().typ.Ident? {
        params := params + [CurrentToken().typ.name];
        assert params == [tokens[old(current)].typ.name];
        Advance();
        while Check(Comma)
          invariant Valid()
          invariant ParamsRest(tokens, current, params) == ParseParams(tokens, old(current))
          decreases |tokens| - current
        {
          Advance();
          if CurrentToken().typ.Ident? {
            params := params + [CurrentToken().typ.name];
            Advance();
          } else {
            return Err(Error(ExpectedParameterName));
          }
        }
      }
      return Ok(params);
    }

    method ParseBlock() returns (r: Result<Ast.Block, ParseError>)
      requires Valid()
      modifies this`current
      ensures Valid() && Agrees(r, ParserSpec.ParseBlock(tokens, old(current)))
      decreases |tokens| - current, 2
    {
      var _ :- Expect(LBrace);
      var block := Ast.Block.New();
      while !Check(RBrace) && !IsAtEnd()
        invariant Valid() && old(current) < current
        invariant BlockRest(tokens, current, block) == ParserSpec.ParseBlock(tokens, old(current))
        decreases |tokens| - current
      {
        var stmt :- ParseStatement();
        block := block.AddStatement(stmt);
      }
      var _ :- Expect(RBrace);
      return Ok(block);
    }

    method ParseStatement() returns (r: Result<Ast.Statement, ParseError>)
      requires Valid()
      modifies this`current
      ensures Valid() && Agrees(r, ParserSpec.ParseStatement(tokens, old(current)))
      decreases |tokens| - current, 1
    {
      if Check(Let) {
        Advance();
        if !CurrentToken().typ.Ident? {
          return Err(Error(ExpectedVariableName));
        }
        var name := CurrentToken().typ.name;
        Advance();
        var _ :- Expect(Assign);
        var value :- ParseExpr();
        var _ :- Expect(Semicolon);
        return Ok(Ast.VarDecl(name, value));
      }

      if Check(If) {
        Advance();
        var condition :- ParseExpr();
        var thenBlock :- ParseBlock();
        var elseBlock: Option<Ast.Block> := None;
        if Check(Else) {
          Advance();
          var b :- ParseBlock();
          elseBlock := Some(b);
        }
        return Ok(Ast.If(condition, thenBlock, elseBlock));
      }

      if Check(While) {
        Advance();
        var condition :- ParseExpr();
        var body :- ParseBlock();
        return Ok(Ast.While(condition, body));
      }

      if Check(Return) {
        Advance();
        var value :- ParseExpr();
        var _ :- Expect(Semicolon);
        return Ok(Ast.Return(value));
      }

      // An identifier followed by `=` is an assignment; otherwise step back
      // and parse an expression statement.
      if CurrentToken().typ.Ident? {
        var name := CurrentToken().typ.name;
        Advance();
        if Check(Assign) {
          Advance();
          var value :- ParseExpr();
          var _ :- Expect(Semicolon);
          return Ok(Ast.Assignment(name, value));
        } else {
          current := current - 1;
        }
      }

      var expr :- ParseExpr();
      var _ :- Expect(Semicolon);
      return Ok(Ast.ExprStmt(expr));
    }

    // -------------------------------------------------------------------------
    // Expressions, loosest level first
    // -------------------------------------------------------------------------

    method ParseExpr() returns (r: Result<Ast.Expr, ParseError>)
      requires Valid()
      modifies this`current
      ensures Valid() && Agrees(r, ParserSpec.ParseExpr(tokens, old(current)))
      decreases |tokens| - current, 8
    {
      r := ParseLogicOr();
    }

    method ParseLogicOr() returns (r: Result<Ast.Expr, ParseError>)
      requires Valid()
      modifies this`current
      ensures Valid() && Agrees(r, ParseLevel(tokens, old(current), 7))
      decreases |tokens| - current, 7
    {
      var left :- ParseLogicAnd();
      while Check(Or)
        invariant Valid() && old(current) < current
        invariant LevelRest(tokens, current, 7, left) == ParseLevel(tokens, old(current), 7)
        decreases |tokens| - current
      {
        Advance();
        var right :- ParseLogicAnd();
        left := Ast.Binary(Ast.Or, left, right);
      }
      return Ok(left);
    }

    method ParseLogicAnd() returns (r: Result<Ast.Expr, ParseError>)
      requires Valid()
      modifies this`current
      ensures Valid() && Agrees(r, ParseLevel(tokens, old(current), 6))
      decreases |tokens| - current, 6
    {
      var left :- ParseEquality();
      while Check(And)
        invariant Valid() && old(current) < current
        invariant LevelRest(tokens, current, 6, left) == ParseLevel(tokens, old(current), 6)
        decreases |tokens| - current
      {
        Advance();
        var right :- ParseEquality();
        left := Ast.Binary(Ast.And, left, right);
      }
      return Ok(left);
    }

    method ParseEquality() returns (r: Result<Ast.Expr, ParseError>)
      requires Valid()
      modifies this`current
      ensures Valid() && Agrees(r, ParseLevel(tokens, old(current), 5))
      decreases |tokens| - current, 5
    {
      var left :- ParseRelational();
      while Check(Eq) || Check(Ne)
        invariant Valid() && old(current) < current
        invariant LevelRest(tokens, current, 5, left) == ParseLevel(tokens, old(current), 5)
        decreases |tokens| - current
      {
        var op := if Check(Eq) then Ast.Eq else Ast.Ne;
        assert OpLevel(tokens[current].typ) == 5 && BinOpOf(tokens[current].typ) == op;
        Advance();
        var right :- ParseRelational();
        left := Ast.Binary(op, left, right);
      }
      return Ok(left);
    }

    method ParseRelational() returns (r: Result<Ast.Expr, ParseError>)
      requires Valid()
      modifies this`current
      ensures Valid() && Agrees(r, ParseLevel(tokens, old(current), 4))
      decreases |tokens| - current, 4
    {
      var left :- ParseAdd();
      while Check(Lt) || Check(Le) || Check(Gt) || Check(Ge)
        invariant Valid() && old(current) < current
        invariant LevelRest(tokens, current, 4, left) == ParseLevel(tokens, old(current), 4)
        decreases |tokens| - current
      {
        var op := match CurrentToken().typ
          case Lt => Ast.Lt
          case Le => Ast.Le
          case Gt => Ast.Gt
          case _ => Ast.Ge;
        Advance();
        var right :- ParseAdd();
        left := Ast.Binary(op, left, right);
      }
      return Ok(left);
    }

    method ParseAdd() returns (r: Result<Ast.Expr, ParseError>)
      requires Valid()
      modifies this`current
      ensures Valid() && Agrees(r, ParseLevel(tokens, old(current), 3))
      decreases |tokens| - current, 3
    {
      var left :- ParseMul();
      while Check(Plus) || Check(Minus)
        invariant Valid() && old(current) < current
        invariant LevelRest(tokens, current, 3, left) == ParseLevel(tokens, old(current), 3)
        decreases |tokens| - current
      {
        var op := if Check(Plus) then Ast.Add else Ast.Sub;
        assert OpLevel(tokens[current].typ) == 3 && BinOpOf(tokens[current].typ) == op;
        Advance();
        var right :- ParseMul();
        left := Ast.Binary(op, left, right);
      }
      return Ok(left);
    }

    method ParseMul() returns (r: Result<Ast.Expr, ParseError>)
      requires Valid()
      modifies this`current
      ensures Valid() && Agrees(r, ParseLevel(tokens, old(current), 2))
      decreases |tokens| - current, 2
    {
      var left :- ParseUnary();
      while Check(Star) || Check(Slash) || Check(Percent)
        invariant Valid() && old(current) < current
        invariant LevelRest(tokens, current, 2, left) == ParseLevel(tokens, old(current), 2)
        decreases |tokens| - current
      {
        var op := match CurrentToken().typ
          case Star => Ast.Mul
          case Slash => Ast.Div
          case _ => Ast.Mod;
        Advance();
        var right :- ParseUnary();
        left := Ast.Binary(op, left, right);
      }
      return Ok(left);
    }

    method ParseUnary() returns (r: Result<Ast.Expr, ParseError>)
      requires Valid()
      modifies this`current
      ensures Valid() && Agrees(r, ParseLevel(tokens, old(current), UnaryLevel))
      decreases |tokens| - current, 1
    {
      if Check(Bang) || Check(Minus) {
        var op := if Check(Bang) then Ast.Not else Ast.Neg;
        Advance();
        var operand :- ParseUnary();
        return Ok(Ast.Unary(op, operand));
      }
      r := ParsePrimary();
    }

    method ParsePrimary() returns (r: Result<Ast.Expr, ParseError>)
      requires Valid()
      modifies this`current
      ensures Valid() && Agrees(r, ParserSpec.ParsePrimary(tokens, old(current)))
      decreases |tokens| - current, 0
    {
      var t := CurrentToken().typ;
      if t.Number? {
        Advance();
        return Ok(Ast.Number(t.value));
      }

      if t.Ident? {
        Advance();
        if Check(LParen) {
          Advance();
          var args :- ParseArgList();
          var _ :- Expect(RParen);
          return Ok(Ast.Call(t.name, args));
        }
        return Ok(Ast.Variable(t.name));
      }

      if Check(LParen) {
        Advance();
        var expr :- ParseExpr();
        var _ :- Expect(RParen);
        return Ok(expr);
      }

      return Err(Error(ExpectedExpression));
    }

    method ParseArgList() returns (r: Result<seq<Ast.Expr>, ParseError>)
      requires Valid()
      modifies this`current
      ensures Valid() && Agrees(r, ParseArgs(tokens, old(current)))
      decreases |tokens| - current, 9
    {
      var args: seq<Ast.Expr> := [];
      if !Check(RParen) {
        var first :- ParseExpr();
        args := [first];
        while Check(Comma)
          invariant Valid() && old(current) < current
          invariant ArgsRest(tokens, current, args) == ParseArgs(tokens, old(current))
          decreases |tokens| - current
        {
          Advance();
          var next :- ParseExpr();
          args := args + [next];
        }
      }
      return Ok(args);
    }
  }
}
