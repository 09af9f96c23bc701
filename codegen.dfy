/**
 * What the `compile` methods of the tree emit. Expressions leave their value in `$v0`; a binary
 * operation saves the left value on the stack while the right one is computed. A condition ends
 * with a branch to the given target taken when the condition is false. `if` and `while` number
 * their labels with `nextLabelID`, and a program lays out its data segment, then its main
 * statement, then the exit system call.
 *
 * Only numbers, variables and operations on them, assignments, `writeln`, `if` and `while` have
 * a `compile` of their own; compiling anything else throws "Implement me!!!!!". `Gen` records
 * the emitter at the end and whether compiling got there (`ok`) or threw: the lines emitted up to
 * the throw are then in the file.
 */
module CodeGen {
  import opened Options
  import opened JavaInt
  import opened Ast
  import opened Decimal
  import opened Emitting

  datatype Gen = Gen(state: EmitterState, ok: bool)

  /** The code that combines `$t0` (left) and `$v0` (right) into `$v0`; `%` and unknown operators have none. */
  function Arith(op: string, s: EmitterState): EmitterState {
    if op == "*" then Emit(Emit(s, "mult $t0 $v0"), "mflo $v0")
    else if op == "/" then Emit(Emit(s, "div $t0 $v0"), "mflo $v0")
    else if op == "+" then Emit(s, "addu $v0 $t0 $v0")
    else if op == "-" then Emit(s, "subu $v0 $t0 $v0")
    else s
  }

  /** `compile(Emitter)` of the expressions. */
  function CompileExpr(e: Expr, s: EmitterState): Gen
    decreases e, 1
  {
    match e
    case Number(v) => Gen(Emit(s, "li $v0 " + IntToString(v)), true)
    case Variable(x) => Gen(Emit(Emit(s, "la $t1 var" + x), "lw $v0 ($t1)"), true)
    case BinOp(op, left, right) => CompileBinOp(op, left, right, s)
    case Relation(_) => Gen(s, false)
    case ProcedureCall(_, _) => Gen(s, false)
  }

  /** `BinOp.compile`: the left value is saved on the stack while the right one is computed. */
  function CompileBinOp(op: string, left: Expr, right: Expr, s: EmitterState): Gen
    decreases BinOp(op, left, right), 0
  {
    var a := CompileExpr(left, s);
    if !a.ok then a else
    var b := CompileExpr(right, EmitPush(a.state, "$v0"));
    if !b.ok then b else
    Gen(Arith(op, EmitPop(b.state, "$t0")), true)
  }

  /** The branch taken when a comparison with this operator is false; none for an unknown operator. */
  function Branch(op: string): Option<string> {
    if op == "=" then Some("bne")
    else if op == "<>" then Some("beq")
    else if op == "<" then Some("bge")
    else if op == ">" then Some("ble")
    else if op == "<=" then Some("bgt")
    else if op == ">=" then Some("blt")
    else None
  }

  /** `Condition.compile(e, target)`. */
  function CompileCond(c: Condition, target: string, s: EmitterState): Gen {
    var a := CompileExpr(c.left, s);
    if !a.ok then a else
    var b := CompileExpr(c.right, EmitPush(a.state, "$v0"));
    if !b.ok then b else
    var t := EmitPop(b.state, "$t1");
    Gen(if Branch(c.op).Some? then Emit(t, Branch(c.op).value + " $t1, $v0, " + target) else t, true)
  }

  /** `compile(Emitter)` of the statements. */
  function CompileStmt(st: Stmt, s: EmitterState): Gen
    decreases st, 2
  {
    match st
    case Assignment(x, e) => CompileAssignment(x, e, s)
    case Writeln(e) => CompileWriteln(e, s)
    case If(c, s1, s2) => CompileIf(c, s1, s2, s)
    case While(c, body) => CompileWhile(c, body, s)
    case Block(_) => Gen(s, false)
    case Declaration(_) => Gen(s, false)
  }

  /** `Assignment.compile`: the value is stored at the variable's data word. */
  function CompileAssignment(x: string, e: Expr, s: EmitterState): Gen {
    var a := CompileExpr(e, s);
    if !a.ok then a else
    Gen(Emit(Emit(a.state, "la $t1 var" + x), "sw $v0, ($t1)"), true)
  }

  /** `Writeln.compile`: print the value as an integer, then the newline string. */
  function CompileWriteln(e: Expr, s: EmitterState): Gen {
    var a := CompileExpr(e, s);
    if !a.ok then a else
    var t := Emit(Emit(Emit(a.state, "move $a0 $v0"), "li $v0 1"), "syscall");
    Gen(Emit(Emit(Emit(t, "la $a0, nL"), "li $v0, 4"), "syscall"), true)
  }

  /** `If.compile`: take the next label number, then lay out the code with it. */
  function CompileIf(c: Condition, s1: Stmt, s2: Option<Stmt>, s: EmitterState): Gen
    decreases If(c, s1, s2), 1
  {
    var n := NextLabel(s);
    IfCode(c, s1, s2, IntToString(n.counter), n)
  }

  /** A false condition branches to `elseif<id>`; the then-part ends with a jump to `endif<id>`. */
  function IfCode(c: Condition, s1: Stmt, s2: Option<Stmt>, id: string, s: EmitterState): Gen
    decreases If(c, s1, s2), 0
  {
    var a := CompileCond(c, "elseif" + id, s);
    if !a.ok then a else
    var b := CompileStmt(s1, a.state);
    if !b.ok then b else
    var t := Emit(Emit(b.state, "j endif" + id), "elseif" + id + ":");
    var d := if s2.Some? then CompileStmt(s2.value, t) else Gen(t, true);
    if !d.ok then d else
    Gen(Emit(d.state, "endif" + id + ":"), true)
  }

  /** `While.compile`: take the next label number, then lay out the code with it. */
  function CompileWhile(c: Condition, body: Stmt, s: EmitterState): Gen
    decreases While(c, body), 1
  {
    var n := NextLabel(s);
    WhileCode(c, body, IntToString(n.counter), n)
  }

  /** The test sits at `while<id>` and leaves for `endwhile<id>` when false; the body jumps back. */
  function WhileCode(c: Condition, body: Stmt, id: string, s: EmitterState): Gen
    decreases While(c, body), 0
  {
    var w := Emit(s, "while" + id + ":");
    var a := CompileCond(c, "endwhile" + id, w);
    if !a.ok then a else
    var b := CompileStmt(body, a.state);
    if !b.ok then b else
    Gen(Emit(Emit(b.state, "j while" + id), "endwhile" + id + ":"), true)
  }

  /** The data segment's line for a VAR name: one word, initially 0. */
  function VarLine(v: string): string {
    "var" + v + ":\t .word \t 0"
  }

  /** One data word per VAR name, in order. */
  function DeclareVars(vars: seq<string>, s: EmitterState): EmitterState {
    if |vars| == 0 then s else DeclareVars(vars[1..], Emit(s, VarLine(vars[0])))
  }

  /** The data segment and the start of the text segment. */
  function Prologue(vars: seq<string>, s: EmitterState): EmitterState {
    var h := Emit(Emit(s, ".data"), "nL:    .asciiz    \"\\n\"");
    Emit(Emit(Emit(DeclareVars(vars, h), ".text"), ".globl main"), "main: ")
  }

  /** `Program.compile(Emitter)`: procedures are not compiled. */
  function CompileProgram(p: Program, s: EmitterState): Gen {
    var m := CompileStmt(p.main, Prologue(p.vars, s));
    if !m.ok then m else Gen(Close(Emit(Emit(m.state, "li $v0 10"), "syscall")), true)
  }
}
