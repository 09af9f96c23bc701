/**
 * The abstract syntax tree: expressions (numbers, variables, arithmetic, conditions used as
 * values, procedure calls), statements, procedure declarations and whole programs.
 *
 * Operators stay strings, as in the tree the parser builds, so an operator the evaluator or the
 * code generator does not know can still be represented.
 */
module Ast {
  import opened Options
  import opened JavaInt

  datatype Expr =
    | Number(value: Int32)
    | Variable(name: string)
    | BinOp(op: string, left: Expr, right: Expr)
    | Relation(cond: Condition)
    | ProcedureCall(name: string, args: seq<Expr>)

  /** A comparison; it is itself an expression, evaluating to 0 or 1. */
  datatype Condition = Condition(op: string, left: Expr, right: Expr)

  /**
   * Statements. `If` carries an optional else branch: the one-statement constructor builds it
   * with `None`, the two-statement one with `Some`.
   */
  datatype Stmt =
    | Assignment(variable: string, expr: Expr)
    | Writeln(expr: Expr)
    | Block(stmts: seq<Stmt>)
    | If(cond: Condition, thenBranch: Stmt, elseBranch: Option<Stmt>)
    | While(cond: Condition, body: Stmt)
    | Declaration(decl: ProcDecl)

  /** A procedure: its name, its body and its parameter names. */
  datatype ProcDecl = ProcDecl(name: string, body: Stmt, params: seq<string>)

  /** A program: the VAR names, the procedure declarations and the main statement. */
  datatype Program = Program(vars: seq<string>, procs: seq<ProcDecl>, main: Stmt)

  // Sizes, the termination measure of everything that walks a tree.

  function ExprSize(e: Expr): (n: nat)
    ensures n >= 1
  {
    match e
    case Number(_) => 1
    case Variable(_) => 1
    case BinOp(_, l, r) => 1 + ExprSize(l) + ExprSize(r)
    case Relation(c) => 1 + CondSize(c)
    case ProcedureCall(_, args) => 1 + ArgsSize(args)
  }

  function CondSize(c: Condition): (n: nat)
    ensures n >= 3
  {
    1 + ExprSize(c.left) + ExprSize(c.right)
  }

  function ArgsSize(args: seq<Expr>): nat {
    if |args| == 0 then 0 else ExprSize(args[0]) + ArgsSize(args[1..])
  }

  function StmtSize(s: Stmt): (n: nat)
    ensures n >= 1
  {
    match s
    case Assignment(_, e) => 1 + ExprSize(e)
    case Writeln(e) => 1 + ExprSize(e)
    case Block(ss) => 1 + StmtsSize(ss)
    case If(c, s1, s2) => 1 + CondSize(c) + StmtSize(s1) + (if s2.Some? then StmtSize(s2.value) else 0)
    case While(c, b) => 1 + CondSize(c) + StmtSize(b)
    case Declaration(_) => 1
  }

  function StmtsSize(ss: seq<Stmt>): nat {
    if |ss| == 0 then 0 else StmtSize(ss[0]) + StmtsSize(ss[1..])
  }
}
