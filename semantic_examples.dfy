/** Small programs and what a new analyzer answers for each, down to the
    state it stops in: the scopes a failing function pushed stay on the stack,
    since `analyze` returns on the first error without popping them. */
module SemanticExamples {
  import opened Wrappers
  import opened Ast
  import opened SemanticSpec

  /** `func main() { <stmts> }`. */
  function MainOnly(stmts: seq<Statement>): Program {
    Program([Function("main", [], Block(stmts))])
  }

  /** The table of a program whose only function is `main`. */
  const MainTable: Table := map["main" := FunctionSignature("main", 0)]

  /** `let x = 1; if x { let x = 2; x = 3; } x = 4;`: the inner `let` shadows
      the outer one, and the analyzer ends where it started. */
  lemma ShadowingExample()
    ensures Analyze(Fresh, MainOnly([
              VarDecl("x", Number(1)),
              If(Variable("x"), Block([VarDecl("x", Number(2)), Assignment("x", Number(3))]), None),
              Assignment("x", Number(4))]))
            == Ok(Analysis(MainTable, [{}]))
  {
  }

  /** `let x = 1; let x = 2;`: the second `let` names a variable of the same
      scope; the function's scope is left on the stack. */
  lemma DuplicateLetExample()
    ensures Analyze(Fresh, MainOnly([VarDecl("x", Number(1)), VarDecl("x", Number(2))]))
            == Err(Stop(DuplicateVariable("x"), Analysis(MainTable, [{}, {"x"}])))
  {
    assert Enter(Fresh.scopes) == [{}, {}];
    var d := Declare([{}, {}], "x");
    assert d[0] == {} && d[1] == {"x"};
    assert d == [{}, {"x"}];
  }

  /** `while 1 { let y = 1; } y = 2;`: a name declared in a loop body is not
      visible after the loop. */
  lemma BlockScopeExample()
    ensures Analyze(Fresh, MainOnly([
              While(Number(1), Block([VarDecl("y", Number(1))])),
              Assignment("y", Number(2))]))
            == Err(Stop(UndefinedVariable("y"), Analysis(MainTable, [{}, {}])))
  {
    assert Enter(Fresh.scopes) == [{}, {}];
    assert Enter([{}, {}]) == [{}, {}, {}];
    var d := Declare([{}, {}, {}], "y");
    assert d[0] == {} && d[1] == {} && d[2] == {"y"};
    assert d == [{}, {}, {"y"}];
    assert Exit([{}, {}, {"y"}]) == [{}, {}];
  }

  /** `let x = x;`: the initializer is checked before the name is declared. */
  lemma SelfReferenceExample()
    ensures Analyze(Fresh, MainOnly([VarDecl("x", Variable("x"))]))
            == Err(Stop(UndefinedVariable("x"), Analysis(MainTable, [{}, {}])))
  {
    assert Enter(Fresh.scopes) == [{}, {}];
  }

  /** `print(1, 2);`: the built-in takes exactly one argument. */
  lemma PrintArityExample()
    ensures Analyze(Fresh, MainOnly([ExprStmt(Call("print", [Number(1), Number(2)]))]))
            == Err(Stop(PrintArity, Analysis(MainTable, [{}, {}])))
  {
    assert Enter(Fresh.scopes) == [{}, {}];
  }

  /** `func print(a, b) {} func main() { print(1, 2); }`: the built-in rule
      is applied before the table is consulted, so a user function named
      `print` cannot be called with two arguments. */
  lemma PrintBuiltInFirstExample()
    ensures var p := Program([
              Function("print", ["a", "b"], Block([])),
              Function("main", [], Block([ExprStmt(Call("print", [Number(1), Number(2)]))]))]);
            Analyze(Fresh, p).Err? && Analyze(Fresh, p).error.error == PrintArity
  {
  }

  /** `func main() { return f(1); } func f(n) { return f(n); }`: a call may
      name a function defined later, or the function it is in. */
  lemma ForwardAndRecursiveCallExample()
    ensures Analyze(Fresh, Program([
              Function("main", [], Block([Return(Call("f", [Number(1)]))])),
              Function("f", ["n"], Block([Return(Call("f", [Variable("n")]))]))])).Ok?
  {
  }

  /** `func main() {} func f(a) { let a = 1; }`: the body shares the
      parameters' scope, so a `let` cannot reuse a parameter's name. */
  lemma ParameterLetExample()
    ensures var p := Program([
              Function("main", [], Block([])),
              Function("f", ["a"], Block([VarDecl("a", Number(1))]))]);
            Analyze(Fresh, p).Err? && Analyze(Fresh, p).error.error == DuplicateVariable("a")
  {
  }

  /** `func main() {} func f(a, a) {}`. */
  lemma DuplicateParameterExample()
    ensures var p := Program([
              Function("main", [], Block([])),
              Function("f", ["a", "a"], Block([]))]);
            Analyze(Fresh, p).Err? && Analyze(Fresh, p).error.error == DuplicateParameter("a")
  {
  }

  /** `func main() { f(); } func f(a) {}`: the error gives the expected and
      the actual count. */
  lemma ArityExample()
    ensures var p := Program([
              Function("main", [], Block([ExprStmt(Call("f", []))])),
              Function("f", ["a"], Block([]))]);
            Analyze(Fresh, p).Err? && Analyze(Fresh, p).error.error == ArityMismatch("f", 1, 0)
  {
  }

  /** `func main() { g(); }`. */
  lemma UndefinedFunctionExample()
    ensures Analyze(Fresh, MainOnly([ExprStmt(Call("g", []))]))
            == Err(Stop(UndefinedFunction("g"), Analysis(MainTable, [{}, {}])))
  {
    assert Enter(Fresh.scopes) == [{}, {}];
  }

  /** `func add(a, b) { return a + b; } func main() { let result = add(10, 20);
      return result; }` is accepted, and the table holds both signatures. */
  lemma FunctionCallProgramAccepted()
    ensures Analyze(Fresh, Program([
              Function("add", ["a", "b"], Block([Return(Binary(Add, Variable("a"), Variable("b")))])),
              Function("main", [], Block([
                VarDecl("result", Call("add", [Number(10), Number(20)])),
                Return(Variable("result"))]))]))
            == Ok(Analysis(map["add" := FunctionSignature("add", 2), "main" := FunctionSignature("main", 0)], [{}]))
  {
  }

  /** `let i = 0; let sum = 0; while i < 5 { sum = sum + i; i = i + 1; }
      return sum;`: assignments in a loop body may name outer variables. */
  lemma WhileLoopProgramAccepted()
    ensures Analyze(Fresh, MainOnly([
              VarDecl("i", Number(0)),
              VarDecl("sum", Number(0)),
              While(Binary(Lt, Variable("i"), Number(5)), Block([
                Assignment("sum", Binary(Add, Variable("sum"), Variable("i"))),
                Assignment("i", Binary(Add, Variable("i"), Number(1)))])),
              Return(Variable("sum"))]))
            == Ok(Analysis(MainTable, [{}]))
  {
    var loop := Block([
      Assignment("sum", Binary(Add, Variable("sum"), Variable("i"))),
      Assignment("i", Binary(Add, Variable("i"), Number(1)))]);
    var body := Block([
      VarDecl("i", Number(0)),
      VarDecl("sum", Number(0)),
      While(Binary(Lt, Variable("i"), Number(5)), loop),
      Return(Variable("sum"))]);
    var p := MainOnly(body.statements);
    assert Collect(map[], p.functions, 0) == Ok(MainTable);
    var s0: Scopes := [{}, {}];
    assert Enter(Fresh.scopes) == s0;
    assert ParamsRun(s0, [], 0) == Ok(s0);
    var s1 := Declare(s0, "i");
    assert s1[0] == {} && s1[1] == {"i"};
    assert s1 == [{}, {"i"}];
    var s2 := Declare(s1, "sum");
    assert s2[0] == {} && s2[1] == {"i", "sum"};
    assert s2 == [{}, {"i", "sum"}];
    var inner := Enter(s2);
    assert inner == [{}, {"i", "sum"}, {}];
    assert Declared(inner, "i") && Declared(inner, "sum");
    assert BlockRun(MainTable, inner, loop, 0) == Ok(inner);
    assert Exit(inner) == s2;
    assert Declared(s2, "i") && Declared(s2, "sum");
    assert BlockRun(MainTable, s2, body, 4) == Ok(s2);
    assert BlockRun(MainTable, s2, body, 3) == Ok(s2);
    assert StmtRun(MainTable, s2, body.statements[2]) == Ok(s2);
    assert BlockRun(MainTable, s2, body, 2) == Ok(s2);
    assert BlockRun(MainTable, s1, body, 1) == Ok(s2);
    assert BlockRun(MainTable, s0, body, 0) == Ok(s2);
    assert Exit(s2) == [{}];
    assert FunctionRun(MainTable, [{}], p.functions[0]) == Ok([{}]);
    assert FunctionsRun(MainTable, [{}], p.functions, 0) == Ok([{}]);
  }

  /** `print(42); return 0;` is accepted. */
  lemma PrintProgramAccepted()
    ensures Analyze(Fresh, MainOnly([ExprStmt(Call("print", [Number(42)])), Return(Number(0))]))
            == Ok(Analysis(MainTable, [{}]))
  {
  }

  /** `let i = 0; while i < 5 { print(i); i = i + 1; } return 0;` is
      accepted. */
  lemma CountingLoopAccepted()
    ensures Analyze(Fresh, MainOnly([
              VarDecl("i", Number(0)),
              While(Binary(Lt, Variable("i"), Number(5)), Block([
                ExprStmt(Call("print", [Variable("i")])),
                Assignment("i", Binary(Add, Variable("i"), Number(1)))])),
              Return(Number(0))]))
            == Ok(Analysis(MainTable, [{}]))
  {
  }

  /** `print(y); return 0;` with no `y` declared. */
  lemma UndefinedVariableExample()
    ensures Analyze(Fresh, MainOnly([ExprStmt(Call("print", [Variable("y")])), Return(Number(0))]))
            == Err(Stop(UndefinedVariable("y"), Analysis(MainTable, [{}, {}])))
  {
    assert Enter(Fresh.scopes) == [{}, {}];
  }
}
