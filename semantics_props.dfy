/**
 * Properties of the interpreter: arithmetic and comparisons, expressions without calls, the
 * procedure call protocol, statements, and program start-up.
 */
module SemanticsProperties {
  import opened Options
  import opened JavaInt
  import opened Ast
  import opened Environments
  import opened Semantics

  // ---------------------------------------------------------------------------------------------
  // Operators
  // ---------------------------------------------------------------------------------------------

  /** `*`, `/`, `+` and `-` are Java's; every other operator string is `%`. */
  lemma ApplyMeaning(op: string, a: Int32, b: Int32)
    ensures op == "*" ==> Apply(op, a, b) == Some(Mul(a, b))
    ensures op == "+" ==> Apply(op, a, b) == Some(Add(a, b))
    ensures op == "-" ==> Apply(op, a, b) == Some(Sub(a, b))
    ensures op == "/" && b != 0 ==> Apply(op, a, b) == Some(Div(a, b))
    ensures op !in {"*", "/", "+", "-"} && b != 0 ==> Apply(op, a, b) == Some(Rem(a, b))
    ensures Apply(op, a, b).None? <==> b == 0 && op !in {"*", "+", "-"}
  {
  }

  /**
   * A comparison answers 1 exactly when it holds; "=" is not among the tested strings, so it,
   * like any unknown operator, answers 0.
   */
  lemma CompareMeaning(op: string, a: Int32, b: Int32)
    ensures op == "<>" ==> (Compare(op, a, b) == 1 <==> a != b)
    ensures op == ">" ==> (Compare(op, a, b) == 1 <==> a > b)
    ensures op == "<" ==> (Compare(op, a, b) == 1 <==> a < b)
    ensures op == "<=" ==> (Compare(op, a, b) == 1 <==> a <= b)
    ensures op == ">=" ==> (Compare(op, a, b) == 1 <==> a >= b)
    ensures op !in {"==", "<>", ">", "<", "<=", ">="} ==> Compare(op, a, b) == 0
    ensures a == b ==> Compare("<=", a, b) == 1 && Compare(">=", a, b) == 1 && Compare("<>", a, b) == 0
  {
  }

  /** A condition with the parser's "=" evaluates, if at all, to 0. */
  lemma EqualsConditionIsFalse(c: Condition, env: Env, out: seq<Int32>, fuel: nat)
    requires c.op == "="
    ensures EvalCond(c, env, out, fuel).Done? ==> EvalCond(c, env, out, fuel).value == 0
  {
  }

  // ---------------------------------------------------------------------------------------------
  // Expressions without procedure calls
  // ---------------------------------------------------------------------------------------------

  /** No procedure call anywhere in the expression. */
  predicate CallFree(e: Expr)
    decreases e
  {
    match e
    case Number(_) => true
    case Variable(_) => true
    case BinOp(_, l, r) => CallFree(l) && CallFree(r)
    case Relation(c) => CallFree(c.left) && CallFree(c.right)
    case ProcedureCall(_, _) => false
  }

  /** A value or the exception a call-free expression raises. */
  datatype Pure = Val(v: Int32) | Err(error: RunError)

  /** The meaning of a call-free expression in an environment, which nothing can change. */
  function PureEval(e: Expr, env: Env): Pure
    requires CallFree(e)
    decreases e
  {
    match e
    case Number(v) => Val(v)
    case Variable(x) => if GetVariable(env, x).Some? then Val(GetVariable(env, x).value) else Err(UnboundVariable(x))
    case BinOp(op, l, r) =>
      (match PureEval(l, env)
       case Err(err) => Err(err)
       case Val(a) =>
         (match PureEval(r, env)
          case Err(err) => Err(err)
          case Val(b) => if Apply(op, a, b).Some? then Val(Apply(op, a, b).value) else Err(DivisionByZero)))
    case Relation(c) =>
      (match PureEval(c.left, env)
       case Err(err) => Err(err)
       case Val(a) =>
         (match PureEval(c.right, env)
          case Err(err) => Err(err)
          case Val(b) => Val(Compare(c.op, a, b))))
  }

  /**
   * Without calls, `eval` changes neither the environment nor the output, needs no fuel and
   * answers `PureEval`.
   */
  lemma {:induction false} EvalCallFree(e: Expr, env: Env, out: seq<Int32>, fuel: nat)
    requires CallFree(e)
    ensures Eval(e, env, out, fuel) ==
      match PureEval(e, env)
      case Val(v) => Done(v, env, out)
      case Err(err) => Fault(err, out)
    decreases e
  {
    match e
    case Number(_) =>
    case Variable(_) =>
    case BinOp(op, l, r) =>
      EvalCallFree(l, env, out, fuel);
      EvalCallFree(r, env, out, fuel);
    case Relation(c) =>
      EvalCallFree(c.left, env, out, fuel);
      EvalCallFree(c.right, env, out, fuel);
  }

  /** A number evaluates to itself in every environment, changing nothing. */
  lemma NumberEval(v: Int32, env: Env, out: seq<Int32>, fuel: nat)
    ensures Eval(Number(v), env, out, fuel) == Done(v, env, out)
  {
  }

  /** A variable evaluates to `getVariable`, and fails when neither level binds it. */
  lemma VariableEval(x: string, env: Env, out: seq<Int32>, fuel: nat)
    ensures GetVariable(env, x).Some? ==> Eval(Variable(x), env, out, fuel) == Done(GetVariable(env, x).value, env, out)
    ensures x !in env.variables && (env.parent.None? || x !in env.parent.value.variables) ==>
      Eval(Variable(x), env, out, fuel) == Fault(UnboundVariable(x), out)
  {
  }

  /** The left operand is evaluated first: when it fails, the right one is never looked at. */
  lemma LeftOperandFirst(op: string, l: Expr, r: Expr, env: Env, out: seq<Int32>, fuel: nat)
    requires Eval(l, env, out, fuel).Fault?
    ensures Eval(BinOp(op, l, r), env, out, fuel) == Fault(Eval(l, env, out, fuel).error, Eval(l, env, out, fuel).out)
    ensures EvalCond(Condition(op, l, r), env, out, fuel) == Fault(Eval(l, env, out, fuel).error, Eval(l, env, out, fuel).out)
  {
  }

  /** A zero divisor makes `/` and `%` fail once both operands are evaluated; `*`, `+`, `-` never fail. */
  lemma DivisionByZeroFails(op: string, l: Expr, r: Expr, env: Env, out: seq<Int32>, fuel: nat)
    requires Eval(l, env, out, fuel).Done?
    requires var a := Eval(l, env, out, fuel); Eval(r, a.env, a.out, fuel).Done?
    ensures var a := Eval(l, env, out, fuel); var b := Eval(r, a.env, a.out, fuel);
      Eval(BinOp(op, l, r), env, out, fuel) ==
        if b.value == 0 && op !in {"*", "+", "-"} then Fault(DivisionByZero, b.out)
        else Done(Apply(op, a.value, b.value).value, b.env, b.out)
  {
    var a := Eval(l, env, out, fuel);
    var b := Eval(r, a.env, a.out, fuel);
    ApplyMeaning(op, a.value, b.value);
  }

  // ---------------------------------------------------------------------------------------------
  // Procedure calls
  // ---------------------------------------------------------------------------------------------

  /** A name not registered at the root fails before any argument is evaluated. */
  lemma UnknownProcedureFails(name: string, args: seq<Expr>, env: Env, out: seq<Int32>, fuel: nat)
    requires name !in Root(env).procedures
    ensures Call(name, args, env, out, fuel) == Fault(UnknownProcedure(name), out)
  {
    GetProcedureAtRoot(env, name);
  }

  /**
   * The argument loop binds each parameter that has an argument and no other; more arguments
   * than parameters fail.
   */
  lemma {:induction false} BindArgsBinds(name: string, rest: seq<Expr>, params: seq<string>,
                                          locals: map<string, Int32>, env: Env, out: seq<Int32>, fuel: nat)
    ensures var r := BindArgs(name, rest, params, locals, env, out, fuel);
      r.Done? ==> |rest| <= |params| && r.value.Keys == locals.Keys + set i | 0 <= i < |rest| :: params[i]
    ensures |rest| > |params| ==> !BindArgs(name, rest, params, locals, env, out, fuel).Done?
    decreases |rest|
  {
    if |rest| > 0 && |params| > 0 {
      var a := Eval(rest[0], env, out, fuel);
      if a.Done? {
        var locals' := locals[params[0] := a.value];
        BindArgsBinds(name, rest[1..], params[1..], locals', a.env, a.out, fuel);
        var r := BindArgs(name, rest[1..], params[1..], locals', a.env, a.out, fuel);
        if r.Done? {
          var later := set i | 0 <= i < |rest[1..]| :: params[1..][i];
          var all := set i | 0 <= i < |rest| :: params[i];
          assert all == {params[0]} + later by {
            forall y | y in all ensures y in {params[0]} + later {
              var i :| 0 <= i < |rest| && params[i] == y;
              if i > 0 {
                assert params[1..][i - 1] == y;
              }
            }
            forall y | y in later ensures y in all {
              var i :| 0 <= i < |rest[1..]| && params[1..][i] == y;
              assert params[i + 1] == y;
            }
          }
        }
      }
    }
  }

  /** Only the procedure's own name and the parameters with an argument are bound in a call. */
  lemma CallBindsNameAndParameters(name: string, args: seq<Expr>, pd: ProcDecl, env: Env, out: seq<Int32>, fuel: nat)
    requires GetProcedure(env, name) == Some(pd)
    ensures var b := BindArgs(name, args, pd.params, map[name := 0], env, out, fuel);
      b.Done? ==> (|args| <= |pd.params| &&
                   b.value.Keys == {name} + (set i | 0 <= i < |args| :: pd.params[i]) &&
                   ((forall i :: 0 <= i < |args| ==> pd.params[i] != name) ==> b.value[name] == 0))
    ensures |args| > |pd.params| && fuel > 0 ==> !Call(name, args, env, out, fuel).Done?
  {
    BindArgsBinds(name, args, pd.params, map[name := 0], env, out, fuel);
    var b := BindArgs(name, args, pd.params, map[name := 0], env, out, fuel);
    if b.Done? && forall i :: 0 <= i < |args| ==> pd.params[i] != name {
      BindArgsKeepsUnbound(name, args, pd.params, map[name := 0], env, out, fuel, name);
    }
  }

  /** A name that no bound parameter takes keeps its value from `locals`. */
  lemma {:induction false} BindArgsKeepsUnbound(name: string, rest: seq<Expr>, params: seq<string>,
                                                 locals: map<string, Int32>, env: Env, out: seq<Int32>, fuel: nat, y: string)
    requires y in locals && forall i :: 0 <= i < |rest| && i < |params| ==> params[i] != y
    ensures var r := BindArgs(name, rest, params, locals, env, out, fuel);
      r.Done? ==> y in r.value && r.value[y] == locals[y]
    decreases |rest|
  {
    if |rest| > 0 && |params| > 0 {
      var a := Eval(rest[0], env, out, fuel);
      if a.Done? {
        forall j | 0 <= j < |rest[1..]| && j < |params[1..]| ensures params[1..][j] != y {
          assert params[1..][j] == params[j + 1];
        }
        BindArgsKeepsUnbound(name, rest[1..], params[1..], locals[params[0] := a.value], a.env, a.out, fuel, y);
      }
    }
  }

  /** The environment of a call extends the caller's parent, or the caller itself if it has none. */
  lemma CallEnvironmentParent(env: Env)
    ensures Depth(env) <= 1 ==> Home(env) == Root(env) && Depth(Extending(Home(env))) == 1
    ensures env.parent.Some? ==> Home(env) == env.parent.value
    ensures env.parent.None? ==> Home(env) == env
  {
  }

  /**
   * Once the body has run, the call answers the value the body left in the procedure's name,
   * which is always bound, together with the caller as the shared parent left it.
   */
  lemma CallAnswersNameValue(name: string, args: seq<Expr>, pd: ProcDecl, env: Env, out: seq<Int32>, fuel: nat)
    requires GetProcedure(env, name) == Some(pd) && fuel > 0
    requires BindArgs(name, args, pd.params, map[name := 0], env, out, fuel).Done?
    ensures var b := BindArgs(name, args, pd.params, map[name := 0], env, out, fuel);
      var run := Exec(pd.body, Env(b.value, map[], Some(Home(b.env))), b.out, fuel - 1);
      run.Done? ==> (name in run.env.variables &&
                     Call(name, args, env, out, fuel) == Done(run.env.variables[name], Reattach(b.env, run.env.parent.value), run.out))
  {
    var b := BindArgs(name, args, pd.params, map[name := 0], env, out, fuel);
    BindArgsBinds(name, args, pd.params, map[name := 0], env, out, fuel);
    var child := Env(b.value, map[], Some(Home(b.env)));
    ExecKeepsNames(pd.body, child, b.out, fuel - 1);
  }

  /**
   * No name becomes unbound: from `a` to `b` the local variable map and, when there is one, the
   * parent's only gain names.
   */
  predicate Grows(a: Env, b: Env) {
    a.variables.Keys <= b.variables.Keys &&
    (a.parent.Some? && b.parent.Some? ==> a.parent.value.variables.Keys <= b.parent.value.variables.Keys)
  }

  /** Statements only add variables, locally and one level up. */
  lemma {:induction false} ExecKeepsNames(s: Stmt, env: Env, out: seq<Int32>, fuel: nat)
    ensures var r := Exec(s, env, out, fuel); r.Done? ==> Grows(env, r.env)
    decreases fuel, StmtSize(s), 1
  {
    match s
    case Assignment(x, e) =>
      EvalKeepsNames(e, env, out, fuel);
    case Writeln(e) =>
      EvalKeepsNames(e, env, out, fuel);
    case Block(ss) =>
      SeqKeepsNames(ss, env, out, fuel);
    case If(c, s1, s2) =>
      CondKeepsNames(c, env, out, fuel);
      var a := EvalCond(c, env, out, fuel);
      if a.Done? {
        ExecKeepsNames(s1, a.env, a.out, fuel);
        if s2.Some? {
          ExecKeepsNames(s2.value, a.env, a.out, fuel);
        }
      }
    case While(c, body) =>
      WhileKeepsNames(c, body, env, out, fuel);
    case Declaration(_) =>
  }

  lemma {:induction false} WhileKeepsNames(c: Condition, body: Stmt, env: Env, out: seq<Int32>, fuel: nat)
    ensures var r := Loop(c, body, env, out, fuel); r.Done? ==> Grows(env, r.env)
    decreases fuel, StmtSize(While(c, body)), 0
  {
    CondKeepsNames(c, env, out, fuel);
    var a := EvalCond(c, env, out, fuel);
    if a.Done? && a.value == 1 && fuel > 0 {
      ExecKeepsNames(body, a.env, a.out, fuel);
      var b := Exec(body, a.env, a.out, fuel);
      if b.Done? {
        WhileKeepsNames(c, body, b.env, b.out, fuel - 1);
      }
    }
  }

  lemma {:induction false} SeqKeepsNames(ss: seq<Stmt>, env: Env, out: seq<Int32>, fuel: nat)
    ensures var r := ExecSeq(ss, env, out, fuel); r.Done? ==> Grows(env, r.env)
    decreases fuel, StmtsSize(ss), 2
  {
    if |ss| > 0 {
      ExecKeepsNames(ss[0], env, out, fuel);
      var a := Exec(ss[0], env, out, fuel);
      if a.Done? {
        SeqKeepsNames(ss[1..], a.env, a.out, fuel);
      }
    }
  }

  lemma {:induction false} EvalKeepsNames(e: Expr, env: Env, out: seq<Int32>, fuel: nat)
    ensures var r := Eval(e, env, out, fuel); r.Done? ==> Grows(env, r.env)
    decreases fuel, ExprSize(e), 1
  {
    match e
    case Number(_) =>
    case Variable(_) =>
    case BinOp(op, l, r) =>
      EvalKeepsNames(l, env, out, fuel);
      var a := Eval(l, env, out, fuel);
      if a.Done? {
        EvalKeepsNames(r, a.env, a.out, fuel);
      }
    case Relation(c) =>
      CondKeepsNames(c, env, out, fuel);
    case ProcedureCall(name, args) =>
      match GetProcedure(env, name)
      case None =>
      case Some(pd) =>
        if fuel > 0 {
          ArgsKeepNames(name, args, pd.params, map[name := 0], env, out, fuel);
          var b := BindArgs(name, args, pd.params, map[name := 0], env, out, fuel);
          if b.Done? {
            var child := Env(b.value, map[], Some(Home(b.env)));
            ExecKeepsNames(pd.body, child, b.out, fuel - 1);
            assert Call(name, args, env, out, fuel) == Invoke(name, pd.body, b.value, b.env, b.out, fuel - 1);
          }
        }
  }

  lemma {:induction false} CondKeepsNames(c: Condition, env: Env, out: seq<Int32>, fuel: nat)
    ensures var r := EvalCond(c, env, out, fuel); r.Done? ==> Grows(env, r.env)
    decreases fuel, CondSize(c), 0
  {
    EvalKeepsNames(c.left, env, out, fuel);
    var a := Eval(c.left, env, out, fuel);
    if a.Done? {
      EvalKeepsNames(c.right, a.env, a.out, fuel);
    }
  }

  lemma {:induction false} ArgsKeepNames(name: string, rest: seq<Expr>, params: seq<string>,
                                          locals: map<string, Int32>, env: Env, out: seq<Int32>, fuel: nat)
    ensures var r := BindArgs(name, rest, params, locals, env, out, fuel);
      r.Done? ==> Grows(env, r.env)
    decreases fuel, ArgsSize(rest), 2
  {
    if |rest| > 0 && |params| > 0 {
      EvalKeepsNames(rest[0], env, out, fuel);
      var a := Eval(rest[0], env, out, fuel);
      if a.Done? {
        ArgsKeepNames(name, rest[1..], params[1..], locals[params[0] := a.value], a.env, a.out, fuel);
      }
    }
  }

  /**
   * A call evaluated in an environment that has a parent (the environment of another call)
   * leaves that environment's own variables and procedures as they were; only the shared parent
   * may change.
   */
  lemma {:induction false} EvalKeepsCallerLocals(e: Expr, env: Env, out: seq<Int32>, fuel: nat)
    requires env.parent.Some?
    ensures var r := Eval(e, env, out, fuel);
      r.Done? ==> r.env.variables == env.variables && r.env.procedures == env.procedures
    decreases fuel, ExprSize(e), 1
  {
    match e
    case Number(_) =>
    case Variable(_) =>
    case BinOp(op, l, r) =>
      EvalKeepsCallerLocals(l, env, out, fuel);
      var a := Eval(l, env, out, fuel);
      if a.Done? {
        EvalKeepsCallerLocals(r, a.env, a.out, fuel);
      }
    case Relation(c) =>
      CondKeepsCallerLocals(c, env, out, fuel);
    case ProcedureCall(name, args) =>
      match GetProcedure(env, name)
      case None =>
      case Some(pd) =>
        if fuel > 0 {
          ArgsKeepCallerLocals(name, args, pd.params, map[name := 0], env, out, fuel);
          var b := BindArgs(name, args, pd.params, map[name := 0], env, out, fuel);
          if b.Done? {
            assert Call(name, args, env, out, fuel) == Invoke(name, pd.body, b.value, b.env, b.out, fuel - 1);
          }
        }
  }

  lemma {:induction false} CondKeepsCallerLocals(c: Condition, env: Env, out: seq<Int32>, fuel: nat)
    requires env.parent.Some?
    ensures var r := EvalCond(c, env, out, fuel);
      r.Done? ==> r.env.variables == env.variables && r.env.procedures == env.procedures
    decreases fuel, CondSize(c), 0
  {
    EvalKeepsCallerLocals(c.left, env, out, fuel);
    var a := Eval(c.left, env, out, fuel);
    if a.Done? {
      EvalKeepsCallerLocals(c.right, a.env, a.out, fuel);
    }
  }

  lemma {:induction false} ArgsKeepCallerLocals(name: string, rest: seq<Expr>, params: seq<string>,
                                                 locals: map<string, Int32>, env: Env, out: seq<Int32>, fuel: nat)
    requires env.parent.Some?
    ensures var r := BindArgs(name, rest, params, locals, env, out, fuel);
      r.Done? ==> r.env.variables == env.variables && r.env.procedures == env.procedures
    decreases fuel, ArgsSize(rest), 2
  {
    if |rest| > 0 && |params| > 0 {
      EvalKeepsCallerLocals(rest[0], env, out, fuel);
      var a := Eval(rest[0], env, out, fuel);
      if a.Done? {
        ArgsKeepCallerLocals(name, rest[1..], params[1..], locals[params[0] := a.value], a.env, a.out, fuel);
      }
    }
  }

  // ---------------------------------------------------------------------------------------------
  // Statements
  // ---------------------------------------------------------------------------------------------

  /** After an assignment the variable reads back the value, and other names read as before. */
  lemma AssignmentStores(x: string, e: Expr, env: Env, out: seq<Int32>, fuel: nat, y: string)
    requires Eval(e, env, out, fuel).Done?
    ensures var a := Eval(e, env, out, fuel); var r := Exec(Assignment(x, e), env, out, fuel);
      r.Done? && r.out == a.out && GetVariable(r.env, x) == Some(a.value) &&
      (y != x ==> GetVariable(r.env, y) == GetVariable(a.env, y))
  {
    var a := Eval(e, env, out, fuel);
    SetThenGet(a.env, x, a.value);
    if y != x {
      SetKeepsOthers(a.env, x, a.value, y);
    }
  }

  /** `x := x + 1` reads the old value of `x` before it overwrites it. */
  lemma IncrementReadsOld(x: string, env: Env, out: seq<Int32>, fuel: nat, a: Int32)
    requires GetVariable(env, x) == Some(a)
    ensures var r := Exec(Assignment(x, BinOp("+", Variable(x), Number(1))), env, out, fuel);
      r == Done((), SetVariable(env, x, Add(a, 1)), out) && GetVariable(r.env, x) == Some(Add(a, 1))
  {
    var e := BinOp("+", Variable(x), Number(1));
    assert Eval(Variable(x), env, out, fuel) == Done(a, env, out);
    assert Eval(Number(1), env, out, fuel) == Done(1, env, out);
    assert Apply("+", a, 1) == Some(Add(a, 1));
    assert Eval(e, env, out, fuel) == Done(Add(a, 1), env, out);
    SetThenGet(env, x, Add(a, 1));
  }

  /** `writeln` appends the value of its expression, once, to the output. */
  lemma WritelnAppends(e: Expr, env: Env, out: seq<Int32>, fuel: nat)
    requires CallFree(e)
    ensures var r := Exec(Writeln(e), env, out, fuel);
      match PureEval(e, env)
      case Val(v) => r == Done((), env, out + [v])
      case Err(err) => r == Fault(err, out)
  {
    EvalCallFree(e, env, out, fuel);
  }

  /**
   * `writeln` of any expression, calls included: once the expression has its value, the statement
   * leaves the environment the evaluation left and appends that value, once, to its output.
   */
  lemma WritelnAppendsValue(e: Expr, env: Env, out: seq<Int32>, fuel: nat)
    ensures var a := Eval(e, env, out, fuel);
      a.Done? ==> Exec(Writeln(e), env, out, fuel) == Done((), a.env, a.out + [a.value])
    ensures Eval(e, env, out, fuel).Fault? ==>
      Exec(Writeln(e), env, out, fuel) == Fault(Eval(e, env, out, fuel).error, Eval(e, env, out, fuel).out)
  {
  }

  /** Running `a + b` runs `a`, then, if it completed, `b` from where `a` left off. */
  lemma {:induction false} ExecSeqAppend(a: seq<Stmt>, b: seq<Stmt>, env: Env, out: seq<Int32>, fuel: nat)
    ensures ExecSeq(a + b, env, out, fuel) ==
      var r := ExecSeq(a, env, out, fuel);
      if r.Done? then ExecSeq(b, r.env, r.out, fuel) else r
    decreases |a|
  {
    if |a| == 0 {
      assert a + b == b;
    } else {
      assert (a + b)[0] == a[0];
      assert (a + b)[1..] == a[1..] + b;
      var r0 := Exec(a[0], env, out, fuel);
      if r0.Done? {
        ExecSeqAppend(a[1..], b, r0.env, r0.out, fuel);
      }
    }
  }

  /** An empty block changes nothing. */
  lemma EmptyBlockNoop(env: Env, out: seq<Int32>, fuel: nat)
    ensures Exec(Block([]), env, out, fuel) == Done((), env, out)
  {
  }

  /** An `if` runs exactly one branch, and with a false condition and no `else` does nothing more. */
  lemma IfChooses(c: Condition, s1: Stmt, s2: Option<Stmt>, env: Env, out: seq<Int32>, fuel: nat)
    requires EvalCond(c, env, out, fuel).Done?
    ensures var a := EvalCond(c, env, out, fuel); var r := Exec(If(c, s1, s2), env, out, fuel);
      (a.value == 1 ==> r == Exec(s1, a.env, a.out, fuel)) &&
      (a.value != 1 && s2.Some? ==> r == Exec(s2.value, a.env, a.out, fuel)) &&
      (a.value != 1 && s2.None? ==> r == Done((), a.env, a.out))
  {
  }

  /** A loop whose condition is not 1 at the start never runs its body. */
  lemma WhileFalseSkips(c: Condition, body: Stmt, env: Env, out: seq<Int32>, fuel: nat)
    requires EvalCond(c, env, out, fuel).Done? && EvalCond(c, env, out, fuel).value != 1
    ensures var a := EvalCond(c, env, out, fuel);
      Exec(While(c, body), env, out, fuel) == Done((), a.env, a.out)
  {
  }

  /**
   * A loop only completes in a state whose condition evaluated to something other than 1: the
   * condition is evaluated again after every iteration and the last evaluation ends the loop.
   */
  lemma {:induction false} WhileEndsOnFalse(c: Condition, body: Stmt, env: Env, out: seq<Int32>, fuel: nat)
      returns (env0: Env, out0: seq<Int32>, fuel0: nat)
    requires Exec(While(c, body), env, out, fuel).Done?
    ensures fuel0 <= fuel
    ensures var a := EvalCond(c, env0, out0, fuel0);
      a.Done? && a.value != 1 &&
      Exec(While(c, body), env, out, fuel) == Done((), a.env, a.out)
    decreases fuel
  {
    var a := EvalCond(c, env, out, fuel);
    if a.value != 1 {
      env0, out0, fuel0 := env, out, fuel;
    } else {
      var b := Exec(body, a.env, a.out, fuel);
      env0, out0, fuel0 := WhileEndsOnFalse(c, body, b.env, b.out, fuel - 1);
    }
  }

  /** A declaration registers the procedure in the current environment and runs nothing. */
  lemma DeclarationRegisters(d: ProcDecl, env: Env, out: seq<Int32>, fuel: nat, m: string)
    ensures var r := Exec(Declaration(d), env, out, fuel);
      r.Done? && r.out == out && r.env.variables == env.variables && r.env.parent == env.parent &&
      (env.parent.None? ==> GetProcedure(r.env, m) == if m == d.name then Some(d) else GetProcedure(env, m)) &&
      (env.parent.Some? ==> GetProcedure(r.env, m) == GetProcedure(env, m))
  {
    if env.parent.None? {
      SetProcedureAtRoot(env, d.name, d, m);
    } else {
      SetProcedureBelowRootUnseen(env, d.name, d, m);
    }
  }

  // ---------------------------------------------------------------------------------------------
  // Programs
  // ---------------------------------------------------------------------------------------------

  /** The last declaration in `ds` with the given name. */
  function LastDecl(ds: seq<ProcDecl>, name: string): Option<ProcDecl> {
    if |ds| == 0 then None
    else if ds[|ds| - 1].name == name then Some(ds[|ds| - 1])
    else LastDecl(ds[..|ds| - 1], name)
  }

  /**
   * Registered at the root, in order, the procedures make each name find its last declaration;
   * names no declaration uses find what they found before.
   */
  lemma {:induction false} RegisterFindsLast(ds: seq<ProcDecl>, env: Env, name: string)
    requires env.parent.None?
    ensures GetProcedure(Register(ds, env), name) ==
      if LastDecl(ds, name).Some? then LastDecl(ds, name) else GetProcedure(env, name)
    decreases |ds|
  {
    if |ds| > 0 {
      var n := |ds| - 1;
      RegisterSnoc(ds[..n], ds[n], env);
      assert ds[..n] + [ds[n]] == ds;
      RegisterFindsLast(ds[..n], env, name);
      SetProcedureAtRoot(Register(ds[..n], env), ds[n].name, ds[n], name);
    }
  }

  /** Registering one more declaration registers it after all the others. */
  lemma {:induction false} RegisterSnoc(ds: seq<ProcDecl>, d: ProcDecl, env: Env)
    ensures Register(ds + [d], env) == SetProcedure(Register(ds, env), d.name, d)
    decreases |ds|
  {
    if |ds| > 0 {
      assert (ds + [d])[1..] == ds[1..] + [d];
      RegisterSnoc(ds[1..], d, SetProcedure(env, ds[0].name, ds[0]));
    }
  }

  /**
   * A program run from a fresh environment declares no variable of its VAR sections: the main
   * statement starts with no variables bound and every procedure registered at the root.
   */
  lemma RunStartsEmpty(p: Program, out: seq<Int32>, fuel: nat, name: string)
    ensures var env := Register(p.procs, Empty());
      Run(p, Empty(), out, fuel) == Exec(p.main, env, out, fuel) &&
      env.variables == map[] && env.parent.None? &&
      GetProcedure(env, name) == LastDecl(p.procs, name)
  {
    RegisterFindsLast(p.procs, Empty(), name);
  }

  // ---------------------------------------------------------------------------------------------
  // More fuel
  // ---------------------------------------------------------------------------------------------

  /*
   * An outcome that did not run out of fuel is the outcome with any larger amount: the value,
   * environment, output or fault stay the same. So a Java run that ends is `Done` or `Fault` from
   * some amount of fuel on, with one answer, and `OutOfFuel` for every amount is left only to a
   * run that never ends.
   */

  lemma {:induction false} EvalMoreFuel(e: Expr, env: Env, out: seq<Int32>, fuel: nat, more: nat)
    requires fuel <= more && !Eval(e, env, out, fuel).OutOfFuel?
    ensures Eval(e, env, out, more) == Eval(e, env, out, fuel)
    decreases fuel, ExprSize(e), 1
  {
    match e
    case Number(_) =>
    case Variable(_) =>
    case BinOp(op, left, right) =>
      EvalMoreFuel(left, env, out, fuel, more);
      var a := Eval(left, env, out, fuel);
      if a.Done? {
        EvalMoreFuel(right, a.env, a.out, fuel, more);
      }
    case Relation(c) => CondMoreFuel(c, env, out, fuel, more);
    case ProcedureCall(name, args) => CallMoreFuel(name, args, env, out, fuel, more);
  }

  lemma {:induction false} CondMoreFuel(c: Condition, env: Env, out: seq<Int32>, fuel: nat, more: nat)
    requires fuel <= more && !EvalCond(c, env, out, fuel).OutOfFuel?
    ensures EvalCond(c, env, out, more) == EvalCond(c, env, out, fuel)
    decreases fuel, CondSize(c), 0
  {
    EvalMoreFuel(c.left, env, out, fuel, more);
    var a := Eval(c.left, env, out, fuel);
    if a.Done? {
      EvalMoreFuel(c.right, a.env, a.out, fuel, more);
    }
  }

  lemma {:induction false} CallMoreFuel(name: string, args: seq<Expr>, env: Env, out: seq<Int32>, fuel: nat, more: nat)
    requires fuel <= more && !Call(name, args, env, out, fuel).OutOfFuel?
    ensures Call(name, args, env, out, more) == Call(name, args, env, out, fuel)
    decreases fuel, ExprSize(ProcedureCall(name, args)), 0
  {
    match GetProcedure(env, name)
    case None =>
    case Some(pd) =>
      ArgsMoreFuel(name, args, pd.params, map[name := 0], env, out, fuel, more);
      var b := BindArgs(name, args, pd.params, map[name := 0], env, out, fuel);
      if b.Done? {
        InvokeMoreFuel(name, pd.body, b.value, b.env, b.out, fuel - 1, more - 1);
      }
  }

  lemma {:induction false} InvokeMoreFuel(name: string, body: Stmt, locals: map<string, Int32>, caller: Env,
                                          out: seq<Int32>, fuel: nat, more: nat)
    requires fuel <= more && !Invoke(name, body, locals, caller, out, fuel).OutOfFuel?
    ensures Invoke(name, body, locals, caller, out, more) == Invoke(name, body, locals, caller, out, fuel)
    decreases fuel, StmtSize(body), 2
  {
    ExecMoreFuel(body, Env(locals, map[], Some(Home(caller))), out, fuel, more);
  }

  lemma {:induction false} ArgsMoreFuel(name: string, rest: seq<Expr>, params: seq<string>, locals: map<string, Int32>,
                                        env: Env, out: seq<Int32>, fuel: nat, more: nat)
    requires fuel <= more && !BindArgs(name, rest, params, locals, env, out, fuel).OutOfFuel?
    ensures BindArgs(name, rest, params, locals, env, out, more) == BindArgs(name, rest, params, locals, env, out, fuel)
    decreases fuel, ArgsSize(rest), 2
  {
    if |rest| > 0 && |params| > 0 {
      EvalMoreFuel(rest[0], env, out, fuel, more);
      var a := Eval(rest[0], env, out, fuel);
      if a.Done? {
        ArgsMoreFuel(name, rest[1..], params[1..], locals[params[0] := a.value], a.env, a.out, fuel, more);
      }
    }
  }

  lemma {:induction false} ExecMoreFuel(s: Stmt, env: Env, out: seq<Int32>, fuel: nat, more: nat)
    requires fuel <= more && !Exec(s, env, out, fuel).OutOfFuel?
    ensures Exec(s, env, out, more) == Exec(s, env, out, fuel)
    decreases fuel, StmtSize(s), 1
  {
    match s
    case Assignment(_, e) => EvalMoreFuel(e, env, out, fuel, more);
    case Writeln(e) => EvalMoreFuel(e, env, out, fuel, more);
    case Block(ss) => SeqMoreFuel(ss, env, out, fuel, more);
    case If(c, s1, s2) =>
      CondMoreFuel(c, env, out, fuel, more);
      var a := EvalCond(c, env, out, fuel);
      if a.Done? && a.value == 1 {
        ExecMoreFuel(s1, a.env, a.out, fuel, more);
      } else if a.Done? && s2.Some? {
        ExecMoreFuel(s2.value, a.env, a.out, fuel, more);
      }
    case While(c, body) => LoopMoreFuel(c, body, env, out, fuel, more);
    case Declaration(_) =>
  }

  lemma {:induction false} LoopMoreFuel(c: Condition, body: Stmt, env: Env, out: seq<Int32>, fuel: nat, more: nat)
    requires fuel <= more && !Loop(c, body, env, out, fuel).OutOfFuel?
    ensures Loop(c, body, env, out, more) == Loop(c, body, env, out, fuel)
    decreases fuel, StmtSize(While(c, body)), 0
  {
    CondMoreFuel(c, env, out, fuel, more);
    var a := EvalCond(c, env, out, fuel);
    if a.Done? && a.value == 1 {
      ExecMoreFuel(body, a.env, a.out, fuel, more);
      var b := Exec(body, a.env, a.out, fuel);
      if b.Done? {
        LoopMoreFuel(c, body, b.env, b.out, fuel - 1, more - 1);
      }
    }
  }

  lemma {:induction false} SeqMoreFuel(ss: seq<Stmt>, env: Env, out: seq<Int32>, fuel: nat, more: nat)
    requires fuel <= more && !ExecSeq(ss, env, out, fuel).OutOfFuel?
    ensures ExecSeq(ss, env, out, more) == ExecSeq(ss, env, out, fuel)
    decreases fuel, StmtsSize(ss), 2
  {
    if |ss| > 0 {
      ExecMoreFuel(ss[0], env, out, fuel, more);
      var a := Exec(ss[0], env, out, fuel);
      if a.Done? {
        SeqMoreFuel(ss[1..], a.env, a.out, fuel, more);
      }
    }
  }

  /** A program's outcome, once it does not run out of fuel, is the same with more. */
  lemma RunMoreFuel(p: Program, env: Env, out: seq<Int32>, fuel: nat, more: nat)
    requires fuel <= more && !Run(p, env, out, fuel).OutOfFuel?
    ensures Run(p, env, out, more) == Run(p, env, out, fuel)
  {
    ExecMoreFuel(p.main, Register(p.procs, env), out, fuel, more);
  }
}
