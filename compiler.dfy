/**
 * The `compile` methods of the tree, written against the `Emitter` object as the Java code is:
 * each one emits its instructions in turn and hands its parts the same emitter. Compiling a tree
 * that has no `compile` of its own (a block, a procedure declaration, a comparison used as a
 * value, a procedure call) throws "Implement me!!!!!"; here the method returns `false` at that
 * point and its callers return at once, as the exception would make them.
 *
 * Each method ends with the emitter in exactly the state the function of the same name in
 * `CodeGen` gives, so everything proved there holds of what the methods write.
 */
module Compiler {
  import opened Options
  import opened Ast
  import opened Decimal
  import opened EmitterObject
  import S = Emitting
  import CG = CodeGen

  method CompileExpr(e: Expr, em: Emitter) returns (ok: bool)
    requires em.Valid()
    modifies em
    ensures em.Valid() && CG.Gen(em.State(), ok) == CG.CompileExpr(e, old(em.State()))
    decreases e, 1
  {
    match e
    case Number(v) =>
      em.Emit("li $v0 " + IntToString(v));
      ok := true;
    case Variable(x) =>
      em.Emit("la $t1 var" + x);
      em.Emit("lw $v0 ($t1)");
      ok := true;
    case BinOp(op, left, right) =>
      ok := CompileBinOp(op, left, right, em);
    case Relation(_) =>
      ok := false;
    case ProcedureCall(_, _) =>
      ok := false;
  }

  /** `BinOp.compile`. */
  method CompileBinOp(op: string, left: Expr, right: Expr, em: Emitter) returns (ok: bool)
    requires em.Valid()
    modifies em
    ensures em.Valid() && CG.Gen(em.State(), ok) == CG.CompileBinOp(op, left, right, old(em.State()))
    decreases BinOp(op, left, right), 0
  {
    ok := CompileExpr(left, em);
    if !ok {
      return;
    }
    em.EmitPush("$v0");
    ok := CompileExpr(right, em);
    if !ok {
      return;
    }
    em.EmitPop("$t0");
    ghost var popped := em.State();
    if op == "*" {
      em.Emit("mult $t0 $v0");
      em.Emit("mflo $v0");
    }
    if op == "/" {
      em.Emit("div $t0 $v0");
      em.Emit("mflo $v0");
    }
    if op == "+" {
      em.Emit("addu $v0 $t0 $v0");
    }
    if op == "-" {
      em.Emit("subu $v0 $t0 $v0");
    }
    assert em.State() == CG.Arith(op, popped);
  }

  /** `Condition.compile(e, target)`: the branch is taken when the comparison is false. */
  method CompileCond(c: Condition, target: string, em: Emitter) returns (ok: bool)
    requires em.Valid()
    modifies em
    ensures em.Valid() && CG.Gen(em.State(), ok) == CG.CompileCond(c, target, old(em.State()))
  {
    ok := CompileExpr(c.left, em);
    if !ok {
      return;
    }
    em.EmitPush("$v0");
    ok := CompileExpr(c.right, em);
    if !ok {
      return;
    }
    em.EmitPop("$t1");
    var op := c.op;
    if op == "=" {
      em.Emit("bne" + " $t1, $v0, " + target);
    } else if op == "<>" {
      em.Emit("beq" + " $t1, $v0, " + target);
    } else if op == "<" {
      em.Emit("bge" + " $t1, $v0, " + target);
    } else if op == ">" {
      em.Emit("ble" + " $t1, $v0, " + target);
    } else if op == "<=" {
      em.Emit("bgt" + " $t1, $v0, " + target);
    } else if op == ">=" {
      em.Emit("blt" + " $t1, $v0, " + target);
    }
  }

  method CompileStmt(st: Stmt, em: Emitter) returns (ok: bool)
    requires em.Valid()
    modifies em
    ensures em.Valid() && CG.Gen(em.State(), ok) == CG.CompileStmt(st, old(em.State()))
    decreases st, 2
  {
    match st
    case Assignment(x, e) =>
      ok := CompileAssignment(x, e, em);
    case Writeln(e) =>
      ok := CompileWriteln(e, em);
    case If(c, s1, s2) =>
      ok := CompileIf(c, s1, s2, em);
    case While(c, body) =>
      ok := CompileWhile(c, body, em);
    case Block(_) =>
      ok := false;
    case Declaration(_) =>
      ok := false;
  }

  /** `Assignment.compile`. */
  method CompileAssignment(x: string, e: Expr, em: Emitter) returns (ok: bool)
    requires em.Valid()
    modifies em
    ensures em.Valid() && CG.Gen(em.State(), ok) == CG.CompileAssignment(x, e, old(em.State()))
    decreases Assignment(x, e), 1
  {
    ok := CompileExpr(e, em);
    if !ok {
      return;
    }
    em.Emit("la $t1 var" + x);
    em.Emit("sw $v0, ($t1)");
  }

  /** `Writeln.compile`. */
  method CompileWriteln(e: Expr, em: Emitter) returns (ok: bool)
    requires em.Valid()
    modifies em
    ensures em.Valid() && CG.Gen(em.State(), ok) == CG.CompileWriteln(e, old(em.State()))
    decreases Writeln(e), 1
  {
    ok := CompileExpr(e, em);
    if !ok {
      return;
    }
    em.Emit("move $a0 $v0");
    em.Emit("li $v0 1");
    em.Emit("syscall");
    em.Emit("la $a0, nL");
    em.Emit("li $v0, 4");
    em.Emit("syscall");
  }

  /** `If.compile`. */
  method CompileIf(c: Condition, s1: Stmt, s2: Option<Stmt>, em: Emitter) returns (ok: bool)
    requires em.Valid()
    modifies em
    ensures em.Valid() && CG.Gen(em.State(), ok) == CG.CompileIf(c, s1, s2, old(em.State()))
    decreases If(c, s1, s2), 1
  {
    var labelId := em.NextLabelID();
    var id := IntToString(labelId);
    ok := CompileCond(c, "elseif" + id, em);
    if !ok {
      return;
    }
    ok := CompileStmt(s1, em);
    if !ok {
      return;
    }
    em.Emit("j endif" + id);
    em.Emit("elseif" + id + ":");
    if s2.Some? {
      ok := CompileStmt(s2.value, em);
      if !ok {
        return;
      }
    }
    em.Emit("endif" + id + ":");
  }

  /** `While.compile`. */
  method CompileWhile(c: Condition, body: Stmt, em: Emitter) returns (ok: bool)
    requires em.Valid()
    modifies em
    ensures em.Valid() && CG.Gen(em.State(), ok) == CG.CompileWhile(c, body, old(em.State()))
    decreases While(c, body), 1
  {
    var labelId := em.NextLabelID();
    var id := IntToString(labelId);
    em.Emit("while" + id + ":");
    ok := CompileCond(c, "endwhile" + id, em);
    if !ok {
      return;
    }
    ok := CompileStmt(body, em);
    if !ok {
      return;
    }
    em.Emit("j while" + id);
    em.Emit("endwhile" + id + ":");
  }

  /** `Program.compile(Emitter)`: the data segment, the main statement, the exit call, then close. */
  method CompileProgram(p: Program, em: Emitter) returns (ok: bool)
    requires em.Valid()
    modifies em
    ensures em.Valid() && CG.Gen(em.State(), ok) == CG.CompileProgram(p, old(em.State()))
  {
    em.Emit(".data");
    em.Emit("nL:    .asciiz    \"\\n\"");
    ghost var h := em.State();
    var i := 0;
    while i < |p.vars|
      invariant 0 <= i <= |p.vars| && em.Valid()
      invariant CG.DeclareVars(p.vars[i..], em.State()) == CG.DeclareVars(p.vars, h)
    {
      var v := p.vars[i];
      assert p.vars[i..][1..] == p.vars[i + 1..];
      em.Emit("var" + v + ":\t .word \t 0");
      i := i + 1;
    }
    assert p.vars[i..] == [];
    em.Emit(".text");
    em.Emit(".globl main");
    em.Emit("main: ");
    ok := CompileStmt(p.main, em);
    if !ok {
      return;
    }
    em.Emit("li $v0 10");
    em.Emit("syscall");
    em.Close();
  }

  /** `Program.compile(String)`: opens an emitter on the file and compiles nothing. */
  method CompileToFile(p: Program, fileName: string) returns (em: Emitter)
    ensures fresh(em) && em.Valid() && em.State() == S.Opened() && em.lines == [] && em.fileName == fileName
  {
    em := new Emitter(fileName);
  }
}
