/** The semantic analyzer of src/semantic.rs as a class that updates its
    signature table and its scope stack in place; each method is proved to
    compute the function of SemanticSpec that describes it, error state
    included. */
module Semantic {
  import opened Wrappers
  import Ast
  import opened SemanticSpec

  class SemanticAnalyzer {
    var functions: Table
    var scopes: Scopes

    /** A method's outcome and final stack are those of the function `s` that
        describes it: the new stack on success, the error and the stack the
        analyzer stopped with otherwise. */
    ghost predicate Agrees(r: Outcome, s: Result<Scopes, Stop<Scopes>>)
      reads this
    {
      match s
      case Ok(sc) => r == Ok(()) && scopes == sc
      case Err(stop) => r == Err(stop.error) && scopes == stop.state
    }

    /** `SemanticAnalyzer::new`: no signatures and one empty base scope. */
    constructor ()
      ensures Analysis(functions, scopes) == Fresh
    {
      functions := map[];
      scopes := [{}];
    }

    /** `analyze`: both passes over the program. */
    method Analyze(program: Ast.Program) returns (r: Outcome)
      modifies this
      ensures var s := SemanticSpec.Analyze(old(Analysis(functions, scopes)), program);
              && (r.Ok? <==> s.Ok?)
              && (s.Ok? ==> Analysis(functions, scopes) == s.value)
              && (s.Err? ==> r.error == s.error.error && Analysis(functions, scopes) == s.error.state)
    {
      ghost var start := Analysis(functions, scopes);
      var fs := program.functions;
      var i := 0;
      while i < |fs|
        invariant 0 <= i <= |fs| && scopes == start.scopes
        invariant Collect(start.functions, fs, 0) == Collect(functions, fs, i)
      {
        var f := fs[i];
        if f.name in functions {
          return Err(DuplicateFunction(f.name));
        }
        functions := functions[f.name := FunctionSignature(f.name, |f.params|)];
        i := i + 1;
      }
      if MainName !in functions {
        return Err(NoMain);
      }
      if functions[MainName].paramCount != 0 {
        return Err(MainHasParameters);
      }
      ghost var table := functions;
      i := 0;
      while i < |fs|
        invariant 0 <= i <= |fs| && functions == table
        invariant FunctionsRun(table, start.scopes, fs, 0) == FunctionsRun(table, scopes, fs, i)
      {
        r := AnalyzeFunction(fs[i]);
        if r.Err? {
          return;
        }
        i := i + 1;
      }
      return Ok(());
    }

    /** `analyze_function`. */
    method AnalyzeFunction(f: Ast.Function) returns (r: Outcome)
      modifies this
      ensures functions == old(functions)
      ensures Agrees(r, FunctionRun(functions, old(scopes), f))
    {
      EnterScope();
      ghost var entered := scopes;
      var i := 0;
      while i < |f.params|
        invariant 0 <= i <= |f.params| && |scopes| > 0 && functions == old(functions)
        invariant ParamsRun(entered, f.params, 0) == ParamsRun(scopes, f.params, i)
      {
        var param := f.params[i];
        if param in Current(scopes) {
          return Err(DuplicateParameter(param));
        }
        DeclareVariable(param);
        i := i + 1;
      }
      r := AnalyzeBlock(f.body);
      if r.Err? {
        return;
      }
      ExitScope();
      return Ok(());
    }

    /** `analyze_block`. */
    method AnalyzeBlock(b: Ast.Block) returns (r: Outcome)
      requires |scopes| > 0
      modifies this
      ensures functions == old(functions)
      ensures Agrees(r, BlockRun(functions, old(scopes), b, 0))
      decreases b, 0
    {
      var i := 0;
      while i < |b.statements|
        invariant 0 <= i <= |b.statements| && |scopes| > 0 && functions == old(functions)
        invariant BlockRun(functions, old(scopes), b, 0) == BlockRun(functions, scopes, b, i)
      {
        r := AnalyzeStatement(b.statements[i]);
        if r.Err? {
          return;
        }
        i := i + 1;
      }
      return Ok(());
    }

    /** `analyze_statement`. */
    method AnalyzeStatement(s: Ast.Statement) returns (r: Outcome)
      requires |scopes| > 0
      modifies this
      ensures functions == old(functions)
      ensures Agrees(r, StmtRun(functions, old(scopes), s))
      decreases s, 1
    {
      match s {
      case VarDecl(x, v) =>
        r := AnalyzeExpr(v);
        if r.Err? {
          return;
        }
        if x in Current(scopes) {
          return Err(DuplicateVariable(x));
        }
        DeclareVariable(x);
      case Assignment(x, v) =>
        r := AnalyzeExpr(v);
        if r.Err? {
          return;
        }
        var declared := IsVariableDeclared(x);
        if !declared {
          return Err(UndefinedVariable(x));
        }
      case If(c, t, els) =>
        r := AnalyzeExpr(c);
        if r.Err? {
          return;
        }
        EnterScope();
        r := AnalyzeBlock(t);
        if r.Err? {
          return;
        }
        ExitScope();
        if els.Some? {
          EnterScope();
          r := AnalyzeBlock(els.value);
          if r.Err? {
            return;
          }
          ExitScope();
        }
      case While(c, body) =>
        r := AnalyzeExpr(c);
        if r.Err? {
          return;
        }
        EnterScope();
        r := AnalyzeBlock(body);
        if r.Err? {
          return;
        }
        ExitScope();
      case Return(v) =>
        r := AnalyzeExpr(v);
        if r.Err? {
          return;
        }
      case ExprStmt(e) =>
        r := AnalyzeExpr(e);
        if r.Err? {
          return;
        }
      }
      return Ok(());
    }

    /** `analyze_expr`, which only reads the analyzer. */
    method AnalyzeExpr(e: Ast.Expr) returns (r: Outcome)
      ensures r == CheckExpr(functions, scopes, e)
      decreases e
    {
      match e
      case Number(_) =>
        return Ok(());
      case Variable(x) =>
        var declared := IsVariableDeclared(x);
        if !declared {
          return Err(UndefinedVariable(x));
        }
        return Ok(());
      case Binary(_, left, right) =>
        r := AnalyzeExpr(left);
        if r.Err? {
          return;
        }
        r := AnalyzeExpr(right);
      case Unary(_, operand) =>
        r := AnalyzeExpr(operand);
      case Call(name, args) =>
        if name == PrintName {
          if |args| != 1 {
            return Err(PrintArity);
          }
          r := AnalyzeExpr(args[0]);
          return;
        }
        if name !in functions {
          return Err(UndefinedFunction(name));
        }
        var sig := functions[name];
        if |args| != sig.paramCount {
          return Err(ArityMismatch(name, sig.paramCount, |args|));
        }
        var i := 0;
        while i < |args|
          invariant 0 <= i <= |args|
          invariant CheckArgs(functions, scopes, e, 0) == CheckArgs(functions, scopes, e, i)
        {
          r := AnalyzeExpr(args[i]);
          if r.Err? {
            return;
          }
          i := i + 1;
        }
        return Ok(());
    }

    /** `enter_scope`. */
    method EnterScope()
      modifies this
      ensures functions == old(functions) && scopes == Enter(old(scopes))
    {
      scopes := scopes + [{}];
    }

    /** `exit_scope`: `Vec::pop`, a no-op on an empty stack. */
    method ExitScope()
      modifies this
      ensures functions == old(functions) && scopes == Exit(old(scopes))
    {
      if |scopes| > 0 {
        scopes := scopes[..|scopes| - 1];
      }
    }

    /** `declare_variable`: into the innermost scope. */
    method DeclareVariable(name: string)
      requires |scopes| > 0
      modifies this
      ensures functions == old(functions) && scopes == Declare(old(scopes), name)
    {
      var last := |scopes| - 1;
      scopes := scopes[..last] + [scopes[last] + {name}];
    }

    /** `is_variable_declared`: searches the scopes from the innermost out. */
    method IsVariableDeclared(name: string) returns (found: bool)
      ensures found <==> Declared(scopes, name)
    {
      var k := |scopes|;
      while k > 0
        invariant 0 <= k <= |scopes|
        invariant forall j | k <= j < |scopes| :: name !in scopes[j]
      {
        k := k - 1;
        if name in scopes[k] {
          return true;
        }
      }
      return false;
    }
  }
}
