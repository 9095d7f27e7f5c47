/** What the semantic analyzer accepts, stated without the scope stack: a
    declarative reference over the set of visible names and the names of the
    innermost scope, and over the program's own list of functions instead of
    the signature table. Each checking function of SemanticSpec is proved to
    succeed exactly when the reference holds, so `analyze` accepts a program
    exactly when the program is well scoped in this sense. */
module SemanticProperties {
  import opened Wrappers
  import Ast
  import opened SemanticSpec

  // ---------------------------------------------------------------------------
  // The scope stack as a set of visible names
  // ---------------------------------------------------------------------------

  /** Every name some scope of the stack holds. */
  function Union(scopes: Scopes): (u: set<string>)
    ensures forall k | 0 <= k < |scopes| :: scopes[k] <= u
    decreases |scopes|
  {
    if |scopes| == 0 then {} else Union(scopes[..|scopes| - 1]) + scopes[|scopes| - 1]
  }

  /** A name is declared exactly when it is in the union of the scopes, so the
      innermost-first search answers the same as any other order. */
  lemma {:induction false} DeclaredInUnion(scopes: Scopes, x: string)
    ensures Declared(scopes, x) <==> x in Union(scopes)
    decreases |scopes|
  {
    if |scopes| > 0 {
      var init := scopes[..|scopes| - 1];
      DeclaredInUnion(init, x);
      if x in Union(init) {
        var k :| 0 <= k < |init| && x in init[k];
        assert x in scopes[k];
      } else if x in scopes[|scopes| - 1] {
        assert Declared(scopes, x);
      }
    }
  }

  /** A declaration adds its name to the visible ones. */
  lemma UnionDeclare(scopes: Scopes, x: string)
    requires |scopes| > 0
    ensures Union(Declare(scopes, x)) == Union(scopes) + {x}
  {
    var d := Declare(scopes, x);
    assert d[..|d| - 1] == scopes[..|scopes| - 1];
  }

  /** A new scope hides nothing and adds nothing. */
  lemma UnionEnter(scopes: Scopes)
    ensures Union(Enter(scopes)) == Union(scopes)
  {
    var n := Enter(scopes);
    assert n[..|n| - 1] == scopes;
  }

  /** The stack after a block run in a scope of its own, once that scope is
      popped, is the stack before it. */
  lemma ExitAfterBlock(table: Table, scopes: Scopes, b: Ast.Block, inner: Scopes)
    requires BlockRun(table, Enter(scopes), b, 0) == Ok(inner)
    ensures Exit(inner) == scopes
  {
    assert Enter(scopes)[..|scopes|] == scopes;
  }

  // ---------------------------------------------------------------------------
  // The reference
  // ---------------------------------------------------------------------------

  /** `fs` holds a function named `f` with `n` parameters. */
  predicate Defines(fs: seq<Ast.Function>, f: string, n: nat) {
    exists j | 0 <= j < |fs| :: fs[j].name == f && |fs[j].params| == n
  }

  /** No two functions of `fs` share a name. */
  predicate DistinctNames(fs: seq<Ast.Function>) {
    forall j, k | 0 <= j < k < |fs| :: fs[j].name != fs[k].name
  }

  /** No two parameters share a name. */
  predicate Distinct(ps: seq<string>) {
    forall j, k | 0 <= j < k < |ps| :: ps[j] != ps[k]
  }

  /** The names of a parameter list. */
  function Names(ps: seq<string>): set<string> {
    set j | 0 <= j < |ps| :: ps[j]
  }

  /** Every variable `e` reads is visible, `print` gets one argument, and any
      other call names a function of the program and passes it as many
      arguments as it has parameters. */
  predicate ExprOk(fs: seq<Ast.Function>, vis: set<string>, e: Ast.Expr)
    decreases e
  {
    match e
    case Number(_) => true
    case Variable(x) => x in vis
    case Binary(_, l, r) => ExprOk(fs, vis, l) && ExprOk(fs, vis, r)
    case Unary(_, x) => ExprOk(fs, vis, x)
    case Call(f, args) =>
      && (if f == PrintName then |args| == 1 else Defines(fs, f, |args|))
      && forall k | 0 <= k < |args| :: ExprOk(fs, vis, args[k])
  }

  /** The names a statement adds to the scope it runs in. */
  function Introduced(s: Ast.Statement): set<string> {
    if s.VarDecl? then {s.name} else {}
  }

  /** A statement is well scoped when `vis` are the visible names and `cur`
      those of the innermost scope: a `let` reads only earlier names (never
      its own) and may shadow an outer name but not one of `cur`; the blocks
      of `if`, `else` and `while` start with an innermost scope of their own. */
  predicate StmtOk(fs: seq<Ast.Function>, vis: set<string>, cur: set<string>, s: Ast.Statement)
    decreases s, 1
  {
    match s
    case VarDecl(x, v) => ExprOk(fs, vis, v) && x !in cur
    case Assignment(x, v) => ExprOk(fs, vis, v) && x in vis
    case If(c, t, els) =>
      && ExprOk(fs, vis, c)
      && BlockOk(fs, vis, {}, t, 0)
      && (els.Some? ==> BlockOk(fs, vis, {}, els.value, 0))
    case While(c, b) => ExprOk(fs, vis, c) && BlockOk(fs, vis, {}, b, 0)
    case Return(v) => ExprOk(fs, vis, v)
    case ExprStmt(e) => ExprOk(fs, vis, e)
  }

  /** The statements of `b` from the `i`-th on are well scoped, each seeing
      the names the `let`s before it in the same block introduced; nothing a
      nested block declares is seen after it. */
  predicate BlockOk(fs: seq<Ast.Function>, vis: set<string>, cur: set<string>, b: Ast.Block, i: nat)
    requires i <= |b.statements|
    decreases b, 0, |b.statements| - i
  {
    i == |b.statements| ||
    (var s := b.statements[i];
     StmtOk(fs, vis, cur, s) && BlockOk(fs, vis + Introduced(s), cur + Introduced(s), b, i + 1))
  }

  /** A function is well scoped under the outer names `outer`: its parameters
      are distinct, and its body runs in the parameters' own scope. */
  predicate FunctionOk(fs: seq<Ast.Function>, outer: set<string>, f: Ast.Function) {
    Distinct(f.params) && BlockOk(fs, outer + Names(f.params), Names(f.params), f.body, 0)
  }

  /** A program is accepted: no two functions share a name, `main` exists and
      takes no parameters, and every function is well scoped. Every function
      may call every function of the program, before or after it, itself
      included. */
  predicate ProgramOk(p: Ast.Program) {
    && DistinctNames(p.functions)
    && Defines(p.functions, MainName, 0)
    && forall j | 0 <= j < |p.functions| :: FunctionOk(p.functions, {}, p.functions[j])
  }

  /** The table holds exactly the signatures of `fs`. */
  predicate Tabulates(table: Table, fs: seq<Ast.Function>) {
    && table.Keys == (set j | 0 <= j < |fs| :: fs[j].name)
    && (forall j | 0 <= j < |fs| ::
          fs[j].name in table && table[fs[j].name] == FunctionSignature(fs[j].name, |fs[j].params|))
  }

  /** Looking a callee up in a table of distinct names is asking the program. */
  lemma TableDefines(table: Table, fs: seq<Ast.Function>, f: string, n: nat)
    requires Tabulates(table, fs) && DistinctNames(fs)
    ensures (f in table && table[f].paramCount == n) <==> Defines(fs, f, n)
  {
    if Defines(fs, f, n) {
      var j :| 0 <= j < |fs| && fs[j].name == f && |fs[j].params| == n;
      assert table[fs[j].name].paramCount == n;
    }
  }

  // ---------------------------------------------------------------------------
  // The first pass
  // ---------------------------------------------------------------------------

  /** The first loop of `analyze` from the `i`-th function: it succeeds exactly
      when the remaining names are distinct and new to the table; it then adds
      their signatures and keeps the table's own; on failure it names a
      function that is defined twice or was already in the table. */
  lemma {:induction false} CollectFrom(table: Table, fs: seq<Ast.Function>, i: nat)
    requires i <= |fs|
    ensures Collect(table, fs, i).Ok? <==>
              && (forall j, k | i <= j < k < |fs| :: fs[j].name != fs[k].name)
              && (forall j | i <= j < |fs| :: fs[j].name !in table)
    ensures Collect(table, fs, i).Ok? ==>
              var t := Collect(table, fs, i).value;
              && (forall f :: f in t <==> f in table || exists j | i <= j < |fs| :: fs[j].name == f)
              && (forall f | f in table :: t[f] == table[f])
              && (forall j | i <= j < |fs| ::
                    fs[j].name in t && t[fs[j].name] == FunctionSignature(fs[j].name, |fs[j].params|))
    ensures Collect(table, fs, i).Err? ==>
              var e := Collect(table, fs, i).error.error;
              && e.DuplicateFunction?
              && exists k | i <= k < |fs| ::
                   fs[k].name == e.name && (e.name in table || exists j | i <= j < k :: fs[j].name == e.name)
    decreases |fs| - i
  {
    if i < |fs| && fs[i].name !in table {
      var table' := table[fs[i].name := FunctionSignature(fs[i].name, |fs[i].params|)];
      CollectFrom(table', fs, i + 1);
      var r := Collect(table', fs, i + 1);
      assert Collect(table, fs, i) == r;
      if r.Err? {
        var e := r.error.error;
        var k :| i + 1 <= k < |fs| && fs[k].name == e.name && (e.name in table' || exists j | i + 1 <= j < k :: fs[j].name == e.name);
        if e.name == fs[i].name {
          assert i < k && fs[i].name == e.name;
        }
      }
    }
  }

  /** `analyze`'s first pass over an empty table succeeds exactly when the
      names are distinct, and then tabulates the whole program, so forward
      and recursive calls find their callee. */
  lemma CollectIff(fs: seq<Ast.Function>)
    ensures Collect(map[], fs, 0).Ok? <==> DistinctNames(fs)
    ensures Collect(map[], fs, 0).Ok? ==> Tabulates(Collect(map[], fs, 0).value, fs)
  {
    CollectFrom(map[], fs, 0);
  }

  // ---------------------------------------------------------------------------
  // The second pass
  // ---------------------------------------------------------------------------

  /** `analyze_expr` succeeds exactly when the expression is well formed over
      the visible names. */
  lemma {:induction false} ExprIff(table: Table, fs: seq<Ast.Function>, scopes: Scopes, e: Ast.Expr)
    requires Tabulates(table, fs) && DistinctNames(fs)
    ensures CheckExpr(table, scopes, e).Ok? <==> ExprOk(fs, Union(scopes), e)
    decreases e, 1
  {
    match e
    case Number(_) =>
    case Variable(x) => DeclaredInUnion(scopes, x);
    case Binary(_, l, r) =>
      ExprIff(table, fs, scopes, l);
      ExprIff(table, fs, scopes, r);
    case Unary(_, x) => ExprIff(table, fs, scopes, x);
    case Call(f, args) =>
      if f == PrintName {
        if |args| == 1 {
          ExprIff(table, fs, scopes, args[0]);
        }
      } else {
        TableDefines(table, fs, f, |args|);
        if f in table && |args| == table[f].paramCount {
          ArgsIff(table, fs, scopes, e, 0);
        }
      }
  }

  /** The argument loop succeeds exactly when every remaining argument is
      well formed. */
  lemma {:induction false} ArgsIff(table: Table, fs: seq<Ast.Function>, scopes: Scopes, e: Ast.Expr, i: nat)
    requires e.Call? && i <= |e.args|
    requires Tabulates(table, fs) && DistinctNames(fs)
    ensures CheckArgs(table, scopes, e, i).Ok? <==>
              forall k | i <= k < |e.args| :: ExprOk(fs, Union(scopes), e.args[k])
    decreases e, 0, |e.args| - i
  {
    if i < |e.args| {
      ExprIff(table, fs, scopes, e.args[i]);
      ArgsIff(table, fs, scopes, e, i + 1);
    }
  }

  /** `analyze_statement` succeeds exactly when the statement is well scoped
      over the visible names and the innermost scope. */
  lemma {:induction false} StmtIff(table: Table, fs: seq<Ast.Function>, scopes: Scopes, s: Ast.Statement)
    requires |scopes| > 0 && Tabulates(table, fs) && DistinctNames(fs)
    ensures StmtRun(table, scopes, s).Ok? <==> StmtOk(fs, Union(scopes), Current(scopes), s)
    decreases s, 1
  {
    match s
    case VarDecl(_, v) => ExprIff(table, fs, scopes, v);
    case Assignment(x, v) =>
      ExprIff(table, fs, scopes, v);
      DeclaredInUnion(scopes, x);
    case If(c, t, els) =>
      ExprIff(table, fs, scopes, c);
      UnionEnter(scopes);
      BlockIff(table, fs, Enter(scopes), t, 0);
      if els.Some? {
        BlockIff(table, fs, Enter(scopes), els.value, 0);
        match BlockRun(table, Enter(scopes), t, 0) {
          case Ok(inner) => ExitAfterBlock(table, scopes, t, inner);
          case Err(_) =>
        }
      }
    case While(c, b) =>
      ExprIff(table, fs, scopes, c);
      UnionEnter(scopes);
      BlockIff(table, fs, Enter(scopes), b, 0);
    case Return(v) => ExprIff(table, fs, scopes, v);
    case ExprStmt(x) => ExprIff(table, fs, scopes, x);
  }

  /** `analyze_block` from the `i`-th statement succeeds exactly when the
      remaining statements are well scoped. */
  lemma {:induction false} BlockIff(table: Table, fs: seq<Ast.Function>, scopes: Scopes, b: Ast.Block, i: nat)
    requires |scopes| > 0 && i <= |b.statements|
    requires Tabulates(table, fs) && DistinctNames(fs)
    ensures BlockRun(table, scopes, b, i).Ok? <==> BlockOk(fs, Union(scopes), Current(scopes), b, i)
    decreases b, 0, |b.statements| - i
  {
    if i < |b.statements| {
      var s := b.statements[i];
      StmtIff(table, fs, scopes, s);
      match StmtRun(table, scopes, s) {
        case Ok(sc) =>
          if s.VarDecl? {
            UnionDeclare(scopes, s.name);
          }
          assert Union(sc) == Union(scopes) + Introduced(s);
          assert Current(sc) == Current(scopes) + Introduced(s);
          BlockIff(table, fs, sc, b, i + 1);
          assert BlockRun(table, scopes, b, i) == BlockRun(table, sc, b, i + 1);
        case Err(_) =>
      }
    }
  }

  /** The parameter loop from the `i`-th parameter succeeds exactly when the
      remaining parameters are distinct and new to the innermost scope. */
  lemma {:induction false} ParamsIff(scopes: Scopes, ps: seq<string>, i: nat)
    requires |scopes| > 0 && i <= |ps|
    ensures ParamsRun(scopes, ps, i).Ok? <==>
              && (forall j, k | i <= j < k < |ps| :: ps[j] != ps[k])
              && (forall j | i <= j < |ps| :: ps[j] !in Current(scopes))
    decreases |ps| - i
  {
    if i < |ps| && ps[i] !in Current(scopes) {
      ParamsIff(Declare(scopes, ps[i]), ps, i + 1);
    }
  }

  /** `analyze_function` succeeds exactly when the function is well scoped
      under the names visible outside it. */
  lemma FunctionIff(table: Table, fs: seq<Ast.Function>, scopes: Scopes, f: Ast.Function)
    requires Tabulates(table, fs) && DistinctNames(fs)
    ensures FunctionRun(table, scopes, f).Ok? <==> FunctionOk(fs, Union(scopes), f)
  {
    var entered := Enter(scopes);
    ParamsIff(entered, f.params, 0);
    match ParamsRun(entered, f.params, 0) {
      case Ok(sc) =>
        assert sc[..|sc| - 1] == scopes;
        assert Union(sc) == Union(scopes) + Names(f.params);
        assert Current(sc) == Names(f.params);
        BlockIff(table, fs, sc, f.body, 0);
        assert Distinct(f.params);
        assert FunctionRun(table, scopes, f).Ok? <==> BlockRun(table, sc, f.body, 0).Ok?;
      case Err(_) =>
    }
  }

  /** The second loop of `analyze` from the `i`-th function succeeds exactly
      when every remaining function is well scoped. */
  lemma {:induction false} FunctionsIff(table: Table, fs: seq<Ast.Function>, scopes: Scopes, gs: seq<Ast.Function>, i: nat)
    requires i <= |gs|
    requires Tabulates(table, fs) && DistinctNames(fs)
    ensures FunctionsRun(table, scopes, gs, i).Ok? <==>
              forall j | i <= j < |gs| :: FunctionOk(fs, Union(scopes), gs[j])
    decreases |gs| - i
  {
    if i < |gs| {
      FunctionIff(table, fs, scopes, gs[i]);
      FunctionsIff(table, fs, scopes, gs, i + 1);
    }
  }

  // ---------------------------------------------------------------------------
  // The whole analysis
  // ---------------------------------------------------------------------------

  /** A new analyzer accepts a program exactly when the program is well
      scoped. */
  lemma AnalyzeIff(p: Ast.Program)
    ensures Analyze(Fresh, p).Ok? <==> ProgramOk(p)
  {
    var fs := p.functions;
    CollectIff(fs);
    match Collect(map[], fs, 0) {
      case Ok(table) =>
        TableDefines(table, fs, MainName, 0);
        assert Union(Fresh.scopes) == {};
        FunctionsIff(table, fs, Fresh.scopes, fs, 0);
      case Err(_) =>
    }
  }

  /** A program that defines a name twice is rejected, and the error names a
      function defined more than once: the first pass stops at the first
      repetition. */
  lemma DuplicateFunctionReported(p: Ast.Program)
    requires !DistinctNames(p.functions)
    ensures var r := Analyze(Fresh, p);
            && r.Err? && r.error.error.DuplicateFunction?
            && exists j, k | 0 <= j < k < |p.functions| ::
                 p.functions[j].name == r.error.error.name && p.functions[k].name == r.error.error.name
  {
    var fs := p.functions;
    CollectFrom(map[], fs, 0);
    CollectIff(fs);
    var stop := Collect(map[], fs, 0).error;
    assert Analyze(Fresh, p) == Err(Stop(stop.error, Analysis(stop.state, Fresh.scopes)));
    var n := stop.error.name;
    var k :| 0 <= k < |fs| && fs[k].name == n && exists j | 0 <= j < k :: fs[j].name == n;
    var j :| 0 <= j < k && fs[j].name == n;
  }

  /** A program with distinct names but no `main` is rejected with that
      error, once every signature is in the table. */
  lemma NoMainReported(p: Ast.Program)
    requires DistinctNames(p.functions)
    requires forall j | 0 <= j < |p.functions| :: p.functions[j].name != MainName
    ensures var r := Analyze(Fresh, p);
            && r.Err? && r.error.error == NoMain && r.error.state.scopes == Fresh.scopes
            && Tabulates(r.error.state.functions, p.functions)
  {
    var fs := p.functions;
    CollectIff(fs);
    var table := Collect(map[], fs, 0).value;
    assert MainName !in table;
    assert Analyze(Fresh, p) == Err(Stop(NoMain, Analysis(table, Fresh.scopes)));
  }

  /** A program whose `main` has parameters is rejected with that error
      before any function body is looked at. */
  lemma MainParametersReported(p: Ast.Program, m: nat)
    requires DistinctNames(p.functions)
    requires 0 <= m < |p.functions| && p.functions[m].name == MainName && |p.functions[m].params| > 0
    ensures var r := Analyze(Fresh, p);
            && r.Err? && r.error.error == MainHasParameters && r.error.state.scopes == Fresh.scopes
            && Tabulates(r.error.state.functions, p.functions)
  {
    var fs := p.functions;
    CollectIff(fs);
    var table := Collect(map[], fs, 0).value;
    assert table[MainName].paramCount == |fs[m].params|;
    assert Analyze(Fresh, p) == Err(Stop(MainHasParameters, Analysis(table, Fresh.scopes)));
  }
}
