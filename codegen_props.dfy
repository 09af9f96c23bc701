/**
 * Properties of the generated code: which trees compile, that compiling only appends to the file
 * and takes one label per `if` and `while`, that the stack is left as it was found, and the
 * layout of a program.
 */
module CodeGenProperties {
  import opened Options
  import opened JavaInt
  import opened Ast
  import opened Decimal
  import opened Emitting
  import opened CodeGen

  // ---------------------------------------------------------------------------------------------
  // Which trees compile
  // ---------------------------------------------------------------------------------------------

  /** Numbers, variables and arithmetic on them; no condition used as a value, no call. */
  predicate ExprCompiles(e: Expr)
    decreases e
  {
    match e
    case Number(_) => true
    case Variable(_) => true
    case BinOp(_, l, r) => ExprCompiles(l) && ExprCompiles(r)
    case Relation(_) => false
    case ProcedureCall(_, _) => false
  }

  predicate CondCompiles(c: Condition) {
    ExprCompiles(c.left) && ExprCompiles(c.right)
  }

  /** Assignments, `writeln`, `if` and `while` over such expressions; no block, no declaration. */
  predicate StmtCompiles(st: Stmt)
    decreases st
  {
    match st
    case Assignment(_, e) => ExprCompiles(e)
    case Writeln(e) => ExprCompiles(e)
    case If(c, s1, s2) => CondCompiles(c) && StmtCompiles(s1) && (s2.Some? ==> StmtCompiles(s2.value))
    case While(c, body) => CondCompiles(c) && StmtCompiles(body)
    case Block(_) => false
    case Declaration(_) => false
  }

  /** An expression compiles without throwing exactly when it is built as `ExprCompiles` says. */
  lemma {:induction false} ExprCompilesIff(e: Expr, s: EmitterState)
    ensures CompileExpr(e, s).ok <==> ExprCompiles(e)
    decreases e
  {
    match e
    case BinOp(_, l, r) =>
      ExprCompilesIff(l, s);
      ExprCompilesIff(r, EmitPush(CompileExpr(l, s).state, "$v0"));
    case _ =>
  }

  /** A condition compiles exactly when both its operands do, whatever its operator. */
  lemma CondCompilesIff(c: Condition, target: string, s: EmitterState)
    ensures CompileCond(c, target, s).ok <==> CondCompiles(c)
  {
    ExprCompilesIff(c.left, s);
    ExprCompilesIff(c.right, EmitPush(CompileExpr(c.left, s).state, "$v0"));
  }

  /** A statement compiles without throwing exactly when it is built as `StmtCompiles` says. */
  lemma {:induction false} StmtCompilesIff(st: Stmt, s: EmitterState)
    ensures CompileStmt(st, s).ok <==> StmtCompiles(st)
    decreases st, 1
  {
    match st
    case Assignment(_, e) =>
      ExprCompilesIff(e, s);
    case Writeln(e) =>
      ExprCompilesIff(e, s);
    case If(c, s1, s2) =>
      IfCodeCompilesIff(c, s1, s2, IntToString(NextLabel(s).counter), NextLabel(s));
    case While(c, body) =>
      WhileCodeCompilesIff(c, body, IntToString(NextLabel(s).counter), NextLabel(s));
    case Block(_) =>
    case Declaration(_) =>
  }

  lemma {:induction false} IfCodeCompilesIff(c: Condition, s1: Stmt, s2: Option<Stmt>, id: string, s: EmitterState)
    ensures IfCode(c, s1, s2, id, s).ok <==> StmtCompiles(If(c, s1, s2))
    decreases If(c, s1, s2), 0
  {
    CondCompilesIff(c, "elseif" + id, s);
    var a := CompileCond(c, "elseif" + id, s);
    StmtCompilesIff(s1, a.state);
    var b := CompileStmt(s1, a.state);
    if s2.Some? {
      StmtCompilesIff(s2.value, Emit(Emit(b.state, "j endif" + id), "elseif" + id + ":"));
    }
  }

  lemma {:induction false} WhileCodeCompilesIff(c: Condition, body: Stmt, id: string, s: EmitterState)
    ensures WhileCode(c, body, id, s).ok <==> StmtCompiles(While(c, body))
    decreases While(c, body), 0
  {
    var w := Emit(s, "while" + id + ":");
    CondCompilesIff(c, "endwhile" + id, w);
    StmtCompilesIff(body, CompileCond(c, "endwhile" + id, w).state);
  }

  /** A program compiles exactly when its main statement does, and is then closed. */
  lemma ProgramCompilesIff(p: Program, s: EmitterState)
    ensures CompileProgram(p, s).ok <==> StmtCompiles(p.main)
    ensures CompileProgram(p, s).ok ==> CompileProgram(p, s).state.closed
  {
    StmtCompilesIff(p.main, Prologue(p.vars, s));
  }

  // ---------------------------------------------------------------------------------------------
  // Compiling appends to the file
  // ---------------------------------------------------------------------------------------------

  /** `t` is `s` with codes added at the end, none if the file is closed, and open as `s` was. */
  predicate Appended(s: EmitterState, t: EmitterState) {
    s.codes <= t.codes && t.closed == s.closed && (s.closed ==> t.codes == s.codes)
  }

  lemma AppendedTransitive(a: EmitterState, b: EmitterState, c: EmitterState)
    requires Appended(a, b) && Appended(b, c)
    ensures Appended(a, c)
  {
    assert c.codes[..|a.codes|] == c.codes[..|b.codes|][..|a.codes|];
  }

  lemma EmitAppends(s: EmitterState, code: string)
    ensures Appended(s, Emit(s, code)) && Emit(s, code).counter == s.counter
  {
  }

  lemma PushPopAppend(s: EmitterState, reg: string)
    ensures Appended(s, EmitPush(s, reg)) && EmitPush(s, reg).counter == s.counter
    ensures Appended(s, EmitPop(s, reg)) && EmitPop(s, reg).counter == s.counter
  {
    AppendedTransitive(s, Emit(s, PushCode), EmitPush(s, reg));
    AppendedTransitive(s, Emit(s, "lw " + reg + " ($sp)"), EmitPop(s, reg));
  }

  /** An expression appends to the file and takes no label. */
  lemma {:induction false} ExprAppends(e: Expr, s: EmitterState)
    ensures Appended(s, CompileExpr(e, s).state) && CompileExpr(e, s).state.counter == s.counter
    decreases e
  {
    match e
    case Number(v) =>
    case Variable(x) =>
      EmitAppends(s, "la $t1 var" + x);
      EmitAppends(Emit(s, "la $t1 var" + x), "lw $v0 ($t1)");
      AppendedTransitive(s, Emit(s, "la $t1 var" + x), CompileExpr(e, s).state);
    case BinOp(op, l, r) =>
      var a := CompileExpr(l, s);
      ExprAppends(l, s);
      var pushed := EmitPush(a.state, "$v0");
      PushPopAppend(a.state, "$v0");
      var b := CompileExpr(r, pushed);
      ExprAppends(r, pushed);
      AppendedTransitive(s, a.state, pushed);
      AppendedTransitive(s, pushed, b.state);
      if a.ok && b.ok {
        var popped := EmitPop(b.state, "$t0");
        PushPopAppend(b.state, "$t0");
        AppendedTransitive(s, b.state, popped);
        ArithAppends(op, popped);
        AppendedTransitive(s, popped, Arith(op, popped));
      }
    case Relation(_) =>
    case ProcedureCall(_, _) =>
  }

  lemma ArithAppends(op: string, s: EmitterState)
    ensures Appended(s, Arith(op, s)) && Arith(op, s).counter == s.counter
  {
    if op == "*" {
      AppendedTransitive(s, Emit(s, "mult $t0 $v0"), Arith(op, s));
    } else if op == "/" {
      AppendedTransitive(s, Emit(s, "div $t0 $v0"), Arith(op, s));
    }
  }

  lemma CondAppends(c: Condition, target: string, s: EmitterState)
    ensures Appended(s, CompileCond(c, target, s).state) && CompileCond(c, target, s).state.counter == s.counter
  {
    var a := CompileExpr(c.left, s);
    ExprAppends(c.left, s);
    var pushed := EmitPush(a.state, "$v0");
    PushPopAppend(a.state, "$v0");
    var b := CompileExpr(c.right, pushed);
    ExprAppends(c.right, pushed);
    AppendedTransitive(s, a.state, pushed);
    AppendedTransitive(s, pushed, b.state);
    if a.ok && b.ok {
      var popped := EmitPop(b.state, "$t1");
      PushPopAppend(b.state, "$t1");
      AppendedTransitive(s, b.state, popped);
      if Branch(c.op).Some? {
        AppendedTransitive(s, popped, Emit(popped, Branch(c.op).value + " $t1, $v0, " + target));
      }
    }
  }

  /** A statement appends to the file and never closes it. */
  lemma {:induction false} StmtAppends(st: Stmt, s: EmitterState)
    ensures Appended(s, CompileStmt(st, s).state)
    decreases st, 1
  {
    match st
    case Assignment(x, e) =>
      var a := CompileExpr(e, s);
      ExprAppends(e, s);
      if a.ok {
        AppendedTransitive(a.state, Emit(a.state, "la $t1 var" + x), CompileStmt(st, s).state);
        AppendedTransitive(s, a.state, CompileStmt(st, s).state);
      }
    case Writeln(e) =>
      var a := CompileExpr(e, s);
      ExprAppends(e, s);
      if a.ok {
        var t1 := Emit(a.state, "move $a0 $v0");
        var t2 := Emit(t1, "li $v0 1");
        var t3 := Emit(t2, "syscall");
        var t4 := Emit(t3, "la $a0, nL");
        var t5 := Emit(t4, "li $v0, 4");
        AppendedTransitive(s, a.state, t1);
        AppendedTransitive(s, t1, t2);
        AppendedTransitive(s, t2, t3);
        AppendedTransitive(s, t3, t4);
        AppendedTransitive(s, t4, t5);
        AppendedTransitive(s, t5, Emit(t5, "syscall"));
      }
    case If(c, s1, s2) =>
      IfCodeAppends(c, s1, s2, IntToString(NextLabel(s).counter), NextLabel(s));
    case While(c, body) =>
      WhileCodeAppends(c, body, IntToString(NextLabel(s).counter), NextLabel(s));
    case Block(_) =>
    case Declaration(_) =>
  }

  lemma {:induction false} IfCodeAppends(c: Condition, s1: Stmt, s2: Option<Stmt>, id: string, s: EmitterState)
    ensures Appended(s, IfCode(c, s1, s2, id, s).state)
    decreases If(c, s1, s2), 0
  {
    var a := CompileCond(c, "elseif" + id, s);
    CondAppends(c, "elseif" + id, s);
    if a.ok {
      var b := CompileStmt(s1, a.state);
      StmtAppends(s1, a.state);
      AppendedTransitive(s, a.state, b.state);
      if b.ok {
        var j := Emit(b.state, "j endif" + id);
        var t := Emit(j, "elseif" + id + ":");
        AppendedTransitive(s, b.state, j);
        AppendedTransitive(s, j, t);
        var d := if s2.Some? then CompileStmt(s2.value, t) else Gen(t, true);
        if s2.Some? {
          StmtAppends(s2.value, t);
        }
        AppendedTransitive(s, t, d.state);
        if d.ok {
          AppendedTransitive(s, d.state, Emit(d.state, "endif" + id + ":"));
        }
      }
    }
  }

  lemma {:induction false} WhileCodeAppends(c: Condition, body: Stmt, id: string, s: EmitterState)
    ensures Appended(s, WhileCode(c, body, id, s).state)
    decreases While(c, body), 0
  {
    var w := Emit(s, "while" + id + ":");
    var a := CompileCond(c, "endwhile" + id, w);
    CondAppends(c, "endwhile" + id, w);
    AppendedTransitive(s, w, a.state);
    if a.ok {
      var b := CompileStmt(body, a.state);
      StmtAppends(body, a.state);
      AppendedTransitive(s, a.state, b.state);
      if b.ok {
        var j := Emit(b.state, "j while" + id);
        AppendedTransitive(s, b.state, j);
        AppendedTransitive(s, j, Emit(j, "endwhile" + id + ":"));
      }
    }
  }

  // ---------------------------------------------------------------------------------------------
  // Label numbers
  // ---------------------------------------------------------------------------------------------

  /** The labels a statement takes: one per `if` and per `while` in it. */
  function Labels(st: Stmt): nat
    decreases st
  {
    match st
    case If(_, s1, s2) => 1 + Labels(s1) + (if s2.Some? then Labels(s2.value) else 0)
    case While(_, body) => 1 + Labels(body)
    case _ => 0
  }

  /** The counter after handing out `k` more labels, one `nextLabelID` at a time. */
  function Advance(c: Int32, k: nat): Int32
    decreases k
  {
    if k == 0 then c else Advance(Add(c, 1), k - 1)
  }

  /** Handing out `a` labels and then `b` more is handing out `a + b`. */
  lemma {:induction false} AdvanceAdds(c: Int32, a: nat, b: nat)
    ensures Advance(Advance(c, a), b) == Advance(c, a + b)
    decreases a
  {
    if a > 0 {
      AdvanceAdds(Add(c, 1), a - 1, b);
    }
  }

  /** Adding after a wrap-around wraps as adding first would: `w` is `Wrap(x)`, `y` is `x + k`. */
  lemma WrapStep(x: int, w: int, k: int, y: int)
    requires w == Wrap(x) && y == x + k
    ensures Wrap(w + k) == Wrap(y)
  {
    var r := Wrap(w + k);
    var d1 := r - (w + k);
    var d2 := w - x;
    assert d1 % MODULUS == 0 && d2 % MODULUS == 0;
    assert d1 == MODULUS * (d1 / MODULUS) && d2 == MODULUS * (d2 / MODULUS);
    assert r - y == MODULUS * (d1 / MODULUS + d2 / MODULUS);
    WrapUnique(y, r);
  }

  /** Handing out `k` labels adds `k` to the counter with Java's wrap-around. */
  lemma {:induction false} AdvanceWraps(c: Int32, k: nat)
    ensures Advance(c, k) == Wrap(c + k)
    decreases k
  {
    if k > 0 {
      AdvanceWraps(Add(c, 1), k - 1);
      AddThenWrap(c, k);
    }
  }

  /** Taking one label and then wrapping the rest is wrapping the whole. */
  lemma AddThenWrap(c: Int32, k: nat)
    requires k > 0
    ensures Wrap(Add(c, 1) + (k - 1)) == Wrap(c + k)
  {
    WrapStep(c + 1, Add(c, 1), k - 1, c + k);
  }

  /** A statement that compiles has taken one label for each `if` and `while` in it. */
  lemma {:induction false} StmtAdvances(st: Stmt, s: EmitterState)
    ensures var g := CompileStmt(st, s); g.ok ==> g.state.counter == Advance(s.counter, Labels(st))
    decreases st, 3
  {
    match st
    case Assignment(x, e) =>
      ExprAppends(e, s);
    case Writeln(e) =>
      ExprAppends(e, s);
    case If(c, s1, s2) =>
      IfAdvances(c, s1, s2, s);
    case While(c, body) =>
      WhileAdvances(c, body, s);
    case Block(_) =>
    case Declaration(_) =>
  }

  lemma {:induction false} IfAdvances(c: Condition, s1: Stmt, s2: Option<Stmt>, s: EmitterState)
    ensures var g := CompileIf(c, s1, s2, s);
      g.ok ==> g.state.counter == Advance(s.counter, Labels(If(c, s1, s2)))
    decreases If(c, s1, s2), 2
  {
    IfCodeAdvances(c, s1, s2, IntToString(NextLabel(s).counter), NextLabel(s));
    AdvanceFirst(s.counter, Labels(s1) + ElseLabels(s2));
    LabelsOfIf(c, s1, s2);
  }

  lemma {:induction false} WhileAdvances(c: Condition, body: Stmt, s: EmitterState)
    ensures var g := CompileWhile(c, body, s);
      g.ok ==> g.state.counter == Advance(s.counter, Labels(While(c, body)))
    decreases While(c, body), 2
  {
    WhileCodeAdvances(c, body, IntToString(NextLabel(s).counter), NextLabel(s));
    AdvanceFirst(s.counter, Labels(body));
    assert Labels(While(c, body)) == 1 + Labels(body);
  }

  /** The first of `1 + k` labels is the next one. */
  lemma AdvanceFirst(c: Int32, k: nat)
    ensures Advance(c, 1 + k) == Advance(Add(c, 1), k)
  {
  }

  /** What `IfCode` does after the `elseif` label: compile the else-part, if there is one. */
  function ElseGen(s2: Option<Stmt>, t: EmitterState): (d: Gen)
    ensures s2.None? ==> d == Gen(t, true)
  {
    if s2.Some? then CompileStmt(s2.value, t) else Gen(t, true)
  }

  /** `IfCode` compiles the condition, the then-part, the jump and label, and the else-part in turn. */
  lemma IfCodeShape(c: Condition, s1: Stmt, s2: Option<Stmt>, id: string, s: EmitterState)
    ensures var a := CompileCond(c, "elseif" + id, s);
      var b := CompileStmt(s1, a.state);
      var t := Emit(Emit(b.state, "j endif" + id), "elseif" + id + ":");
      var g := IfCode(c, s1, s2, id, s);
      g.ok ==> a.ok && b.ok && ElseGen(s2, t).ok && g.state == Emit(ElseGen(s2, t).state, "endif" + id + ":")
  {
  }

  /** `WhileCode` emits the `while` label, the test, the body, then the jump back and the exit label. */
  lemma WhileCodeShape(c: Condition, body: Stmt, id: string, s: EmitterState)
    ensures var a := CompileCond(c, "endwhile" + id, Emit(s, "while" + id + ":"));
      var b := CompileStmt(body, a.state);
      var g := WhileCode(c, body, id, s);
      g.ok ==> a.ok && b.ok && g.state == Emit(Emit(b.state, "j while" + id), "endwhile" + id + ":")
  {
  }

  lemma {:induction false} IfCodeAdvances(c: Condition, s1: Stmt, s2: Option<Stmt>, id: string, s: EmitterState)
    ensures var g := IfCode(c, s1, s2, id, s); g.ok ==> g.state.counter == Advance(s.counter, Labels(s1) + ElseLabels(s2))
    decreases If(c, s1, s2), 1
  {
    var g := IfCode(c, s1, s2, id, s);
    if g.ok {
      IfCodeShape(c, s1, s2, id, s);
      CondAppends(c, "elseif" + id, s);
      var a := CompileCond(c, "elseif" + id, s);
      var b := CompileStmt(s1, a.state);
      StmtAdvances(s1, a.state);
      var t := Emit(Emit(b.state, "j endif" + id), "elseif" + id + ":");
      assert a.ok && b.ok && t.counter == Advance(s.counter, Labels(s1));
      ElseAdvances(s2, t, s.counter, Labels(s1));
    }
  }

  /** The labels an `if` takes: its own, the then-part's, then the else-part's. */
  function ElseLabels(s2: Option<Stmt>): nat {
    if s2.Some? then Labels(s2.value) else 0
  }

  lemma LabelsOfIf(c: Condition, s1: Stmt, s2: Option<Stmt>)
    ensures Labels(If(c, s1, s2)) == 1 + (Labels(s1) + ElseLabels(s2))
  {
  }

  /** The else-part of an `if`, if any, compiled once the then-part has taken `done` labels from `c0`. */
  lemma {:induction false} ElseAdvances(s2: Option<Stmt>, t: EmitterState, c0: Int32, done: nat)
    requires t.counter == Advance(c0, done)
    ensures var e := ElseGen(s2, t); e.ok ==> e.state.counter == Advance(c0, done + ElseLabels(s2))
    decreases s2, 4
  {
    if s2.Some? {
      StmtAdvances(s2.value, t);
      AdvanceAdds(c0, done, Labels(s2.value));
    }
  }

  lemma {:induction false} WhileCodeAdvances(c: Condition, body: Stmt, id: string, s: EmitterState)
    ensures var g := WhileCode(c, body, id, s); g.ok ==> g.state.counter == Advance(s.counter, Labels(body))
    decreases While(c, body), 0
  {
    var g := WhileCode(c, body, id, s);
    if g.ok {
      var w := Emit(s, "while" + id + ":");
      CondAppends(c, "endwhile" + id, w);
      var a := CompileCond(c, "endwhile" + id, w);
      assert a.ok;
      StmtAdvances(body, a.state);
    }
  }

  /** With fewer labels than the counter has room for, the labels are the next numbers in order. */
  lemma LabelsCount(st: Stmt, s: EmitterState)
    requires s.counter + Labels(st) <= MAX && CompileStmt(st, s).ok
    ensures CompileStmt(st, s).state.counter == s.counter + Labels(st)
  {
    StmtAdvances(st, s);
    AdvanceWraps(s.counter, Labels(st));
  }

  // ---------------------------------------------------------------------------------------------
  // The stack
  // ---------------------------------------------------------------------------------------------

  /** How many pushes, and how many pops, have been emitted. */
  function Pushes(s: EmitterState): nat {
    multiset(s.codes)[PushCode]
  }

  function Pops(s: EmitterState): nat {
    multiset(s.codes)[PopCode]
  }

  /** `t` has as many more pushes than pops as `s` has. */
  predicate Balanced(s: EmitterState, t: EmitterState) {
    Pushes(t) - Pops(t) == Pushes(s) - Pops(s)
  }

  /** Any other instruction leaves both counts as they were. */
  lemma EmitOther(s: EmitterState, code: string)
    requires code != PushCode && code != PopCode
    ensures Pushes(Emit(s, code)) == Pushes(s) && Pops(Emit(s, code)) == Pops(s)
  {
  }

  /** A push adds one push and no pop; a pop adds one pop and no push. */
  lemma PushPopCounts(s: EmitterState, reg: string)
    requires !s.closed
    ensures Pushes(EmitPush(s, reg)) == Pushes(s) + 1 && Pops(EmitPush(s, reg)) == Pops(s)
    ensures Pops(EmitPop(s, reg)) == Pops(s) + 1 && Pushes(EmitPop(s, reg)) == Pushes(s)
  {
    assert ("sw " + reg + " ($sp)")[1] == 'w';
    assert ("lw " + reg + " ($sp)")[0] == 'l';
    EmitOther(Emit(s, PushCode), "sw " + reg + " ($sp)");
    EmitOther(s, "lw " + reg + " ($sp)");
  }

  /** A push followed, after balanced code, by a pop leaves the balance as it was. */
  lemma PushPopBalanced(s: EmitterState, reg1: string, mid: EmitterState, reg2: string)
    requires Balanced(EmitPush(s, reg1), mid) && Appended(EmitPush(s, reg1), mid)
    ensures Balanced(s, EmitPop(mid, reg2))
  {
    if !s.closed {
      PushPopCounts(s, reg1);
      PushPopCounts(mid, reg2);
    }
  }

  /** What an arithmetic operation appends after the pop neither pushes nor pops. */
  lemma ArithKeepsStack(op: string, s: EmitterState)
    ensures Balanced(s, Arith(op, s))
  {
    if op == "*" {
      EmitOther(s, "mult $t0 $v0");
      EmitOther(Emit(s, "mult $t0 $v0"), "mflo $v0");
    } else if op == "/" {
      EmitOther(s, "div $t0 $v0");
      EmitOther(Emit(s, "div $t0 $v0"), "mflo $v0");
    } else if op == "+" {
      EmitOther(s, "addu $v0 $t0 $v0");
    } else if op == "-" {
      EmitOther(s, "subu $v0 $t0 $v0");
    }
  }

  /** The code of an expression pops everything it pushes. */
  lemma {:induction false} ExprBalanced(e: Expr, s: EmitterState)
    requires CompileExpr(e, s).ok
    ensures Balanced(s, CompileExpr(e, s).state)
    decreases e
  {
    match e
    case Number(v) =>
      assert ("li $v0 " + IntToString(v))[0] == 'l';
      EmitOther(s, "li $v0 " + IntToString(v));
    case Variable(x) =>
      assert ("la $t1 var" + x)[0] == 'l';
      EmitOther(s, "la $t1 var" + x);
      EmitOther(Emit(s, "la $t1 var" + x), "lw $v0 ($t1)");
    case BinOp(op, l, r) =>
      var a := CompileExpr(l, s);
      ExprBalanced(l, s);
      var pushed := EmitPush(a.state, "$v0");
      var b := CompileExpr(r, pushed);
      ExprBalanced(r, pushed);
      ExprAppends(r, pushed);
      PushPopBalanced(a.state, "$v0", b.state, "$t0");
      ArithKeepsStack(op, EmitPop(b.state, "$t0"));
  }

  /** Every branch instruction starts with 'b'. */
  lemma BranchOps(op: string)
    ensures Branch(op).Some? ==> |Branch(op).value| == 3 && Branch(op).value[0] == 'b'
  {
    if op == "=" {
    } else if op == "<>" {
    } else if op == "<" {
    } else if op == ">" {
    } else if op == "<=" {
    } else if op == ">=" {
    }
  }

  /** So does the code of a condition, branch included. */
  lemma CondBalanced(c: Condition, target: string, s: EmitterState)
    requires CompileCond(c, target, s).ok
    ensures Balanced(s, CompileCond(c, target, s).state)
  {
    var a := CompileExpr(c.left, s);
    ExprBalanced(c.left, s);
    var pushed := EmitPush(a.state, "$v0");
    var b := CompileExpr(c.right, pushed);
    ExprBalanced(c.right, pushed);
    ExprAppends(c.right, pushed);
    PushPopBalanced(a.state, "$v0", b.state, "$t1");
    var t := EmitPop(b.state, "$t1");
    if Branch(c.op).Some? {
      var code := Branch(c.op).value + " $t1, $v0, " + target;
      BranchOps(c.op);
      assert code[0] == Branch(c.op).value[0];
      EmitOther(t, code);
    }
  }

  /** And so does the code of a statement. */
  lemma {:induction false} StmtBalanced(st: Stmt, s: EmitterState)
    requires CompileStmt(st, s).ok
    ensures Balanced(s, CompileStmt(st, s).state)
    decreases st, 1
  {
    match st
    case Assignment(x, e) =>
      var a := CompileExpr(e, s);
      ExprBalanced(e, s);
      assert ("la $t1 var" + x)[0] == 'l';
      EmitOther(a.state, "la $t1 var" + x);
      EmitOther(Emit(a.state, "la $t1 var" + x), "sw $v0, ($t1)");
    case Writeln(e) =>
      var a := CompileExpr(e, s);
      ExprBalanced(e, s);
      var t1 := Emit(a.state, "move $a0 $v0");
      var t2 := Emit(t1, "li $v0 1");
      var t3 := Emit(t2, "syscall");
      var t4 := Emit(t3, "la $a0, nL");
      var t5 := Emit(t4, "li $v0, 4");
      EmitOther(a.state, "move $a0 $v0");
      EmitOther(t1, "li $v0 1");
      EmitOther(t2, "syscall");
      EmitOther(t3, "la $a0, nL");
      EmitOther(t4, "li $v0, 4");
      EmitOther(t5, "syscall");
    case If(c, s1, s2) =>
      IfCodeBalanced(c, s1, s2, IntToString(NextLabel(s).counter), NextLabel(s));
    case While(c, body) =>
      WhileCodeBalanced(c, body, IntToString(NextLabel(s).counter), NextLabel(s));
  }

  lemma {:induction false} IfCodeBalanced(c: Condition, s1: Stmt, s2: Option<Stmt>, id: string, s: EmitterState)
    requires IfCode(c, s1, s2, id, s).ok
    ensures Balanced(s, IfCode(c, s1, s2, id, s).state)
    decreases If(c, s1, s2), 0
  {
    var a := CompileCond(c, "elseif" + id, s);
    CondBalanced(c, "elseif" + id, s);
    var b := CompileStmt(s1, a.state);
    StmtBalanced(s1, a.state);
    assert ("j endif" + id)[0] == 'j' && ("elseif" + id + ":")[0] == 'e' && ("endif" + id + ":")[0] == 'e';
    var j := Emit(b.state, "j endif" + id);
    EmitOther(b.state, "j endif" + id);
    var t := Emit(j, "elseif" + id + ":");
    EmitOther(j, "elseif" + id + ":");
    var d := if s2.Some? then CompileStmt(s2.value, t) else Gen(t, true);
    if s2.Some? {
      StmtBalanced(s2.value, t);
    }
    EmitOther(d.state, "endif" + id + ":");
  }

  lemma {:induction false} WhileCodeBalanced(c: Condition, body: Stmt, id: string, s: EmitterState)
    requires WhileCode(c, body, id, s).ok
    ensures Balanced(s, WhileCode(c, body, id, s).state)
    decreases While(c, body), 0
  {
    var w := Emit(s, "while" + id + ":");
    assert ("while" + id + ":")[0] == 'w' && ("j while" + id)[0] == 'j' && ("endwhile" + id + ":")[0] == 'e';
    EmitOther(s, "while" + id + ":");
    var a := CompileCond(c, "endwhile" + id, w);
    CondBalanced(c, "endwhile" + id, w);
    var b := CompileStmt(body, a.state);
    StmtBalanced(body, a.state);
    var j := Emit(b.state, "j while" + id);
    EmitOther(b.state, "j while" + id);
    EmitOther(j, "endwhile" + id + ":");
  }

  // ---------------------------------------------------------------------------------------------
  // Programs
  // ---------------------------------------------------------------------------------------------

  /** One data word per VAR name, in the order of the names, after what was there. */
  lemma {:induction false} DeclareVarsLayout(vars: seq<string>, s: EmitterState)
    requires !s.closed
    ensures var r := DeclareVars(vars, s);
      |r.codes| == |s.codes| + |vars| && r.codes[..|s.codes|] == s.codes && !r.closed && r.counter == s.counter &&
      forall i :: 0 <= i < |vars| ==> r.codes[|s.codes| + i] == VarLine(vars[i])
    decreases |vars|
  {
    if |vars| > 0 {
      var t := Emit(s, VarLine(vars[0]));
      DeclareVarsLayout(vars[1..], t);
      var r := DeclareVars(vars, s);
      assert r.codes[..|s.codes|] == r.codes[..|t.codes|][..|s.codes|];
      forall i | 0 <= i < |vars| ensures r.codes[|s.codes| + i] == VarLine(vars[i]) {
        if i > 0 {
          assert r.codes[|t.codes| + (i - 1)] == VarLine(vars[1..][i - 1]);
        }
      }
    }
  }

  /** The data words push and pop nothing. */
  lemma {:induction false} DeclareVarsKeepsStack(vars: seq<string>, s: EmitterState)
    ensures Pushes(DeclareVars(vars, s)) == Pushes(s) && Pops(DeclareVars(vars, s)) == Pops(s)
    decreases |vars|
  {
    if |vars| > 0 {
      assert VarLine(vars[0])[0] == 'v';
      EmitOther(s, VarLine(vars[0]));
      DeclareVarsKeepsStack(vars[1..], Emit(s, VarLine(vars[0])));
    }
  }

  /** The prologue: the data segment, a word per VAR name, and the text segment up to `main`. */
  lemma PrologueLayout(vars: seq<string>, s: EmitterState)
    requires !s.closed
    ensures var r := Prologue(vars, s).codes; var k := |s.codes|;
      |r| == k + 5 + |vars| && r[..k] == s.codes &&
      r[k] == ".data" && r[k + 1] == "nL:    .asciiz    \"\\n\"" &&
      (forall i :: 0 <= i < |vars| ==> r[k + 2 + i] == VarLine(vars[i])) &&
      r[k + 2 + |vars|] == ".text" && r[k + 3 + |vars|] == ".globl main" && r[k + 4 + |vars|] == "main: "
    ensures !Prologue(vars, s).closed && Prologue(vars, s).counter == s.counter
  {
    var k := |s.codes|;
    var h := Emit(Emit(s, ".data"), "nL:    .asciiz    \"\\n\"");
    assert h.codes == s.codes + [".data", "nL:    .asciiz    \"\\n\""];
    DeclareVarsLayout(vars, h);
    var v := DeclareVars(vars, h);
    var r := Prologue(vars, s).codes;
    assert r == v.codes + [".text", ".globl main", "main: "];
    assert r[..k] == s.codes by {
      assert r[..k] == v.codes[..|h.codes|][..k];
    }
    assert r[k] == v.codes[..|h.codes|][k] == h.codes[k];
    assert r[k + 1] == v.codes[..|h.codes|][k + 1] == h.codes[k + 1];
    forall i | 0 <= i < |vars| ensures r[k + 2 + i] == VarLine(vars[i]) {
      assert r[k + 2 + i] == v.codes[|h.codes| + i];
    }
  }

  /**
   * A program's code starts with its prologue; it ends, when the main statement compiles, with
   * the exit system call, and the file is then closed. The procedures are not compiled at all.
   */
  lemma ProgramLayout(p: Program, s: EmitterState)
    requires !s.closed
    ensures var r := CompileProgram(p, s).state.codes; var pro := Prologue(p.vars, s).codes;
      pro <= r
    ensures var g := CompileProgram(p, s);
      g.ok ==> g.state.closed && |g.state.codes| >= 2 && g.state.codes[|g.state.codes| - 2..] == ["li $v0 10", "syscall"]
    ensures forall ds :: CompileProgram(p.(procs := ds), s) == CompileProgram(p, s)
  {
    var pro := Prologue(p.vars, s);
    PrologueLayout(p.vars, s);
    StmtAppends(p.main, pro);
    var m := CompileStmt(p.main, pro);
    var r := CompileProgram(p, s).state;
    if m.ok {
      var e := Emit(m.state, "li $v0 10");
      var fin := Emit(e, "syscall");
      assert fin.codes == m.state.codes + ["li $v0 10", "syscall"];
      assert r.codes == fin.codes;
      assert pro.codes <= r.codes by {
        assert r.codes[..|m.state.codes|] == m.state.codes;
        assert r.codes[..|pro.codes|] == m.state.codes[..|pro.codes|];
      }
    }
  }

  /**
   * The file a program compiles to from a fresh emitter: `.data`, the string, the words, `.text`,
   * `.globl main` and `main: ` are indented; `main: ` is not a label line because of its space.
   */
  lemma ProgramFile(p: Program)
    ensures var f := Text(CompileProgram(p, Opened()).state.codes);
      |f| >= 5 + |p.vars| && f[0] == "\t" + ".data" && f[1] == "\t" + "nL:    .asciiz    \"\\n\"" &&
      (forall i :: 0 <= i < |p.vars| ==> f[2 + i] == "\t" + VarLine(p.vars[i])) &&
      f[2 + |p.vars|] == "\t" + ".text" && f[3 + |p.vars|] == "\t" + ".globl main" && f[4 + |p.vars|] == "\t" + "main: "
  {
    var r := CompileProgram(p, Opened()).state.codes;
    var pro := Prologue(p.vars, Opened()).codes;
    ProgramLayout(p, Opened());
    PrologueLayout(p.vars, Opened());
    assert pro == r[..|pro|];
    assert forall i :: 0 <= i < |p.vars| ==> r[2 + i] == VarLine(p.vars[i]);
    PrologueLines(p.vars, r);
  }

  /** The lines of codes that start with a prologue. */
  lemma PrologueLines(vars: seq<string>, r: seq<string>)
    requires |r| >= 5 + |vars| && r[0] == ".data" && r[1] == "nL:    .asciiz    \"\\n\""
    requires forall i :: 0 <= i < |vars| ==> r[2 + i] == VarLine(vars[i])
    requires r[2 + |vars|] == ".text" && r[3 + |vars|] == ".globl main" && r[4 + |vars|] == "main: "
    ensures var f := Text(r);
      f[0] == "\t" + ".data" && f[1] == "\t" + "nL:    .asciiz    \"\\n\"" &&
      (forall i :: 0 <= i < |vars| ==> f[2 + i] == "\t" + VarLine(vars[i])) &&
      f[2 + |vars|] == "\t" + ".text" && f[3 + |vars|] == "\t" + ".globl main" && f[4 + |vars|] == "\t" + "main: "
  {
    IndentedLine(r, 0);
    IndentedLine(r, 1);
    IndentedLine(r, 2 + |vars|);
    IndentedLine(r, 3 + |vars|);
    IndentedLine(r, 4 + |vars|);
    forall i | 0 <= i < |vars| ensures Text(r)[2 + i] == "\t" + VarLine(vars[i]) {
      VarLineEnd(vars[i]);
      IndentedLine(r, 2 + i);
    }
  }

  /** A data word line ends in its initial value. */
  lemma VarLineEnd(v: string)
    ensures |VarLine(v)| > 0 && VarLine(v)[|VarLine(v)| - 1] == '0'
  {
    var tail := ":\t .word \t 0";
    assert VarLine(v) == ("var" + v) + tail;
    assert tail[|tail| - 1] == '0';
  }

  /** A code that does not end in ':' is written after a tab. */
  lemma IndentedLine(r: seq<string>, j: int)
    requires 0 <= j < |r| && |r[j]| > 0 && r[j][|r[j]| - 1] != ':'
    ensures Text(r)[j] == "\t" + r[j]
  {
    TextLines(r, j);
  }

  /** The prologue pushes and pops nothing. */
  lemma PrologueKeepsStack(vars: seq<string>, s: EmitterState)
    ensures Balanced(s, Prologue(vars, s))
  {
    var h := Emit(Emit(s, ".data"), "nL:    .asciiz    \"\\n\"");
    EmitOther(s, ".data");
    EmitOther(Emit(s, ".data"), "nL:    .asciiz    \"\\n\"");
    DeclareVarsKeepsStack(vars, h);
    var v := DeclareVars(vars, h);
    EmitOther(v, ".text");
    EmitOther(Emit(v, ".text"), ".globl main");
    EmitOther(Emit(Emit(v, ".text"), ".globl main"), "main: ");
  }

  /** A program that compiles pops everything it pushes. */
  lemma ProgramBalanced(p: Program, s: EmitterState)
    requires CompileProgram(p, s).ok
    ensures Balanced(s, CompileProgram(p, s).state)
  {
    var pro := Prologue(p.vars, s);
    PrologueKeepsStack(p.vars, s);
    var m := CompileStmt(p.main, pro);
    assert m.ok;
    StmtBalanced(p.main, pro);
    EmitOther(m.state, "li $v0 10");
    EmitOther(Emit(m.state, "li $v0 10"), "syscall");
    assert CompileProgram(p, s).state.codes == Emit(Emit(m.state, "li $v0 10"), "syscall").codes;
  }

  /** In the file of a program that compiles, every stack push line is matched by a pop line. */
  lemma ProgramStackBalanced(p: Program)
    requires CompileProgram(p, Opened()).ok
    ensures var f := Text(CompileProgram(p, Opened()).state.codes);
      multiset(f)["\tsubu $sp $sp 4"] == multiset(f)["\taddu $sp $sp 4"]
  {
    var r := CompileProgram(p, Opened()).state;
    ProgramBalanced(p, Opened());
    TextCounts(r.codes, PushCode);
    TextCounts(r.codes, PopCode);
    PushPopLines(Opened(), "$v0");
  }
}
