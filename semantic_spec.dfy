/** What the semantic analyzer of src/semantic.rs computes, as functions over
    its two structures: the table of function signatures and the stack of
    scopes. Each checking function returns the stack after the construct, or
    the first error together with the state the analyzer is left in (the
    source returns on the first error without unwinding the scopes it has
    pushed). The class in semantic.dfy is proved to compute exactly these. */
module SemanticSpec {
  import opened Wrappers
  import Ast

  /** `FunctionSignature`: a name and its number of parameters. */
  datatype FunctionSignature = FunctionSignature(name: string, paramCount: nat)

  /** The `functions` map of the analyzer. */
  type Table = map<string, FunctionSignature>

  /** The `scopes` stack, innermost last. A scope maps names to a `VarInfo`
      that holds nothing but the name again, so a scope is a set of names. */
  type Scopes = seq<set<string>>

  /** The errors of the analyzer, one per message it can produce, with the
      names and counts the message shows. */
  datatype SemanticError =
    | DuplicateFunction(name: string)
    | NoMain
    | MainHasParameters
    | DuplicateParameter(name: string)
    | DuplicateVariable(name: string)
    | UndefinedVariable(name: string)
    | PrintArity
    | UndefinedFunction(name: string)
    | ArityMismatch(name: string, expected: nat, got: nat)

  /** What a read-only check returns: `Result<(), String>` in the source. */
  type Outcome = Result<(), SemanticError>

  /** The first error and the state the analyzer was left in. */
  datatype Stop<S> = Stop(error: SemanticError, state: S)

  /** The whole analyzer. */
  datatype Analysis = Analysis(functions: Table, scopes: Scopes)

  /** The name of the entry point. */
  const MainName: string := "main"

  /** The name of the built-in that takes exactly one argument. */
  const PrintName: string := "print"

  // ---------------------------------------------------------------------------
  // The scope stack
  // ---------------------------------------------------------------------------

  /** `current_scope`: the innermost scope. */
  function Current(scopes: Scopes): set<string>
    requires |scopes| > 0
  {
    scopes[|scopes| - 1]
  }

  /** `enter_scope`: a new empty innermost scope. */
  function Enter(scopes: Scopes): (r: Scopes)
    ensures |r| == |scopes| + 1 && r[..|scopes|] == scopes && Current(r) == {}
  {
    scopes + [{}]
  }

  /** `exit_scope`: `Vec::pop`, which leaves an empty stack empty. */
  function Exit(scopes: Scopes): (r: Scopes)
    ensures |scopes| > 0 ==> r == scopes[..|scopes| - 1]
    ensures |scopes| == 0 ==> r == []
  {
    if |scopes| == 0 then [] else scopes[..|scopes| - 1]
  }

  /** `declare_variable`: the name joins the innermost scope; every other
      scope is unchanged. */
  function Declare(scopes: Scopes, x: string): (r: Scopes)
    requires |scopes| > 0
    ensures |r| == |scopes| && r[..|scopes| - 1] == scopes[..|scopes| - 1]
    ensures Current(r) == Current(scopes) + {x}
  {
    scopes[..|scopes| - 1] + [Current(scopes) + {x}]
  }

  /** `is_variable_declared`: some scope of the stack holds the name. */
  predicate Declared(scopes: Scopes, x: string) {
    exists k | 0 <= k < |scopes| :: x in scopes[k]
  }

  // ---------------------------------------------------------------------------
  // Expressions (`analyze_expr`, read-only)
  // ---------------------------------------------------------------------------

  /** `analyze_expr`: variables must be declared; `print` takes exactly one
      argument; any other callee must be in the table and get as many
      arguments as it has parameters. Operands and arguments are checked
      left to right and the first error is returned. */
  function CheckExpr(table: Table, scopes: Scopes, e: Ast.Expr): Outcome
    decreases e, 1, 0
  {
    match e
    case Number(_) => Ok(())
    case Variable(x) =>
      if Declared(scopes, x) then Ok(()) else Err(UndefinedVariable(x))
    case Binary(_, l, r) =>
      var _ :- CheckExpr(table, scopes, l);
      CheckExpr(table, scopes, r)
    case Unary(_, x) => CheckExpr(table, scopes, x)
    case Call(f, args) =>
      if f == PrintName then
        if |args| != 1 then Err(PrintArity) else CheckExpr(table, scopes, args[0])
      else if f !in table then
        Err(UndefinedFunction(f))
      else if |args| != table[f].paramCount then
        Err(ArityMismatch(f, table[f].paramCount, |args|))
      else
        CheckArgs(table, scopes, e, 0)
  }

  /** The loop over the arguments of call `e`, from the `i`-th on. */
  function CheckArgs(table: Table, scopes: Scopes, e: Ast.Expr, i: nat): Outcome
    requires e.Call? && i <= |e.args|
    decreases e, 0, |e.args| - i
  {
    if i == |e.args| then Ok(())
    else
      var _ :- CheckExpr(table, scopes, e.args[i]);
      CheckArgs(table, scopes, e, i + 1)
  }

  /** A read-only check inside a state-changing one: on an error, the
      analyzer stops with the scopes it has. */
  function Guard(o: Outcome, scopes: Scopes): (r: Result<Scopes, Stop<Scopes>>)
    ensures r.Ok? <==> o.Ok?
    ensures r.Ok? ==> r.value == scopes
    ensures r.Err? ==> r.error == Stop(o.error, scopes)
  {
    if o.Err? then Err(Stop(o.error, scopes)) else Ok(scopes)
  }

  // ---------------------------------------------------------------------------
  // Statements and blocks (`analyze_statement`, `analyze_block`)
  // ---------------------------------------------------------------------------

  /** `analyze_statement`. A `let` checks its initializer first, then rejects
      a name of the innermost scope and declares the name there; the blocks
      of `if`, `else` and `while` each run in a scope of their own, popped
      after them. On success only a `let` changes the stack, and only its
      innermost scope. */
  function StmtRun(table: Table, scopes: Scopes, s: Ast.Statement): (r: Result<Scopes, Stop<Scopes>>)
    requires |scopes| > 0
    ensures r.Ok? && s.VarDecl? ==> r.value == Declare(scopes, s.name)
    ensures r.Ok? && !s.VarDecl? ==> r.value == scopes
    decreases s, 1
  {
    match s
    case VarDecl(x, v) =>
      var sc :- Guard(CheckExpr(table, scopes, v), scopes);
      if x in Current(sc) then Err(Stop(DuplicateVariable(x), sc)) else Ok(Declare(sc, x))
    case Assignment(x, v) =>
      var sc :- Guard(CheckExpr(table, scopes, v), scopes);
      if !Declared(sc, x) then Err(Stop(UndefinedVariable(x), sc)) else Ok(sc)
    case If(c, t, els) =>
      var sc :- Guard(CheckExpr(table, scopes, c), scopes);
      var inner :- BlockRun(table, Enter(sc), t, 0);
      var after := Exit(inner);
      if els.None? then Ok(after)
      else
        var inner' :- BlockRun(table, Enter(after), els.value, 0);
        Ok(Exit(inner'))
    case While(c, b) =>
      var sc :- Guard(CheckExpr(table, scopes, c), scopes);
      var inner :- BlockRun(table, Enter(sc), b, 0);
      Ok(Exit(inner))
    case Return(v) => Guard(CheckExpr(table, scopes, v), scopes)
    case ExprStmt(e) => Guard(CheckExpr(table, scopes, e), scopes)
  }

  /** The loop of `analyze_block` from the `i`-th statement on. On success
      the stack keeps its depth and every scope but the innermost. */
  function BlockRun(table: Table, scopes: Scopes, b: Ast.Block, i: nat): (r: Result<Scopes, Stop<Scopes>>)
    requires |scopes| > 0 && i <= |b.statements|
    ensures r.Ok? ==> |r.value| == |scopes| && r.value[..|scopes| - 1] == scopes[..|scopes| - 1]
    ensures r.Ok? ==> Current(scopes) <= Current(r.value)
    decreases b, 0, |b.statements| - i
  {
    if i == |b.statements| then Ok(scopes)
    else
      var sc :- StmtRun(table, scopes, b.statements[i]);
      BlockRun(table, sc, b, i + 1)
  }

  // ---------------------------------------------------------------------------
  // Functions and programs (`analyze_function`, `analyze`)
  // ---------------------------------------------------------------------------

  /** The loop of `analyze_function` over the parameters, from the `i`-th on:
      each must be new to the innermost scope, and joins it. */
  function ParamsRun(scopes: Scopes, ps: seq<string>, i: nat): (r: Result<Scopes, Stop<Scopes>>)
    requires |scopes| > 0 && i <= |ps|
    ensures r.Ok? ==> |r.value| == |scopes| && r.value[..|scopes| - 1] == scopes[..|scopes| - 1]
    ensures r.Ok? ==> Current(r.value) == Current(scopes) + set j | i <= j < |ps| :: ps[j]
    decreases |ps| - i
  {
    if i == |ps| then Ok(scopes)
    else if ps[i] in Current(scopes) then Err(Stop(DuplicateParameter(ps[i]), scopes))
    else ParamsRun(Declare(scopes, ps[i]), ps, i + 1)
  }

  /** `analyze_function`: a scope for the parameters, which the body's
      statements share, popped at the end. On success the stack is as before. */
  function FunctionRun(table: Table, scopes: Scopes, f: Ast.Function): (r: Result<Scopes, Stop<Scopes>>)
    ensures r.Ok? ==> r.value == scopes
  {
    var sc :- ParamsRun(Enter(scopes), f.params, 0);
    var body :- BlockRun(table, sc, f.body, 0);
    Ok(Exit(body))
  }

  /** The second loop of `analyze`, from the `i`-th function on. */
  function FunctionsRun(table: Table, scopes: Scopes, fs: seq<Ast.Function>, i: nat): (r: Result<Scopes, Stop<Scopes>>)
    requires i <= |fs|
    ensures r.Ok? ==> r.value == scopes
    decreases |fs| - i
  {
    if i == |fs| then Ok(scopes)
    else
      var sc :- FunctionRun(table, scopes, fs[i]);
      FunctionsRun(table, sc, fs, i + 1)
  }

  /** The first loop of `analyze`, from the `i`-th function on: a name
      already in the table is an error, otherwise its signature is added. */
  function Collect(table: Table, fs: seq<Ast.Function>, i: nat): (r: Result<Table, Stop<Table>>)
    requires i <= |fs|
    ensures r.Ok? ==> table.Keys <= r.value.Keys
    decreases |fs| - i
  {
    if i == |fs| then Ok(table)
    else if fs[i].name in table then Err(Stop(DuplicateFunction(fs[i].name), table))
    else Collect(table[fs[i].name := FunctionSignature(fs[i].name, |fs[i].params|)], fs, i + 1)
  }

  /** `analyze`: collect every signature, require a `main` without
      parameters, then check every function in order. */
  function Analyze(st: Analysis, p: Ast.Program): (r: Result<Analysis, Stop<Analysis>>)
    ensures r.Ok? ==> r.value.scopes == st.scopes && MainName in r.value.functions
  {
    match Collect(st.functions, p.functions, 0)
    case Err(stop) => Err(Stop(stop.error, Analysis(stop.state, st.scopes)))
    case Ok(table) =>
      if MainName !in table then Err(Stop(NoMain, Analysis(table, st.scopes)))
      else if table[MainName].paramCount != 0 then Err(Stop(MainHasParameters, Analysis(table, st.scopes)))
      else
        match FunctionsRun(table, st.scopes, p.functions, 0)
        case Err(stop) => Err(Stop(stop.error, Analysis(table, stop.state)))
        case Ok(sc) => Ok(Analysis(table, sc))
  }

  /** `SemanticAnalyzer::new`: no signatures and one empty base scope. */
  const Fresh: Analysis := Analysis(map[], [{}])
}
