/** The abstract syntax tree the parser produces and the analyzer consumes (src/ast.rs).
    Every node owns its children, so every tree is a finite value. */
module Ast {
  import opened Wrappers
  import opened Tokens

  datatype Program = Program(functions: seq<Function>) {

    /** `Program::new`. */
    static function New(): (p: Program)
      ensures |p.functions| == 0
    {
      Program([])
    }

    /** `Program::add_function`: appends at the end and keeps every earlier function in place. */
    function AddFunction(f: Function): (p: Program)
      ensures |p.functions| == |functions| + 1
      ensures p.functions[..|functions|] == functions
      ensures p.functions[|functions|] == f
    {
      Program(functions + [f])
    }
  }

  datatype Function = Function(name: string, params: seq<string>, body: Block)

  datatype Block = Block(statements: seq<Statement>) {

    /** `Block::new`. */
    static function New(): (b: Block)
      ensures |b.statements| == 0
    {
      Block([])
    }

    /** `Block::add_statement`: appends at the end and keeps every earlier statement in place. */
    function AddStatement(s: Statement): (b: Block)
      ensures |b.statements| == |statements| + 1
      ensures b.statements[..|statements|] == statements
      ensures b.statements[|statements|] == s
    {
      Block(statements + [s])
    }
  }

  datatype Statement =
    | VarDecl(name: string, value: Expr)
    | Assignment(name: string, value: Expr)
    | If(condition: Expr, thenBlock: Block, elseBlock: Option<Block>)
    | While(condition: Expr, body: Block)
    | Return(value: Expr)
    | ExprStmt(expr: Expr)

  datatype Expr =
    | Number(value: i64)
    | Variable(name: string)
    | Binary(op: BinOp, left: Expr, right: Expr)
    | Unary(uop: UnaryOp, operand: Expr)
    | Call(name: string, args: seq<Expr>)

  datatype BinOp =
    | Add | Sub | Mul | Div | Mod
    | Lt | Le | Gt | Ge | Eq | Ne
    | And | Or

  datatype UnaryOp = Neg | Not
}
