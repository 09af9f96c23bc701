/**
 * The interpreter as the Java code runs it: `eval` and `exec` walk the tree against an
 * `Environment` object and update it in place; a procedure call creates a new object extending
 * the caller's parent (or the caller), declares the arguments there and runs the body in it, so
 * that assignments to the shared parent are seen by the caller afterwards.
 *
 * Every method is proved to end as the function of `Semantics` with the same role does, started
 * from the value of the environment object before the call.
 */
module Interpreter {
  import opened Options
  import opened JavaInt
  import opened Ast
  import E = Environments
  import opened Semantics
  import opened EnvironmentObject

  /** How a method ends: with a value and the output so far, with an exception, or out of fuel. */
  datatype Status<T> = Ok(value: T, out: seq<Int32>) | Raised(error: RunError, out: seq<Int32>) | Exhausted

  /** The method's end `r` is the end `s` the semantics describes. */
  predicate Agrees<T(==)>(r: Status<T>, s: Outcome<T>) {
    match r
    case Ok(v, o) => s.Done? && s.value == v && s.out == o
    case Raised(err, o) => s == Fault(err, o)
    case Exhausted => s.OutOfFuel?
  }

  /** The same failure, passed on by the construct that gives up because of it. */
  function Relay<T, U>(r: Status<T>): Status<U>
    requires !r.Ok?
  {
    if r.Raised? then Raised(r.error, r.out) else Exhausted
  }

  lemma ArgumentSize(args: seq<Expr>, i: nat)
    requires i < |args|
    ensures ExprSize(args[i]) <= ArgsSize(args)
  {
    if i > 0 {
      ArgumentSize(args[1..], i - 1);
    }
  }

  lemma StatementSize(ss: seq<Stmt>, i: nat)
    requires i < |ss|
    ensures StmtSize(ss[i]) <= StmtsSize(ss)
  {
    if i > 0 {
      StatementSize(ss[1..], i - 1);
    }
  }

  /** `Expression.eval`. */
  method EvalExpr(e: Expr, env: Environment, out: seq<Int32>, fuel: nat) returns (r: Status<Int32>)
    requires env.Valid()
    modifies env, env.ancestors
    ensures var s := Eval(e, old(env.Model()), out, fuel); Agrees(r, s) && (s.Done? ==> env.Model() == s.env)
    decreases fuel, ExprSize(e), 1
  {
    match e
    case Number(v) =>
      r := Ok(v, out);
    case Variable(x) =>
      var v := env.GetVariable(x);
      if v.None? {
        return Raised(UnboundVariable(x), out);
      }
      r := Ok(v.value, out);
    case BinOp(op, left, right) =>
      var a := EvalExpr(left, env, out, fuel);
      if !a.Ok? {
        return a;
      }
      var b := EvalExpr(right, env, a.out, fuel);
      if !b.Ok? {
        return b;
      }
      var v := Apply(op, a.value, b.value);
      if v.None? {
        return Raised(DivisionByZero, b.out);
      }
      r := Ok(v.value, b.out);
    case Relation(c) =>
      r := EvalCondition(c, env, out, fuel);
    case ProcedureCall(name, args) =>
      r := CallProcedure(name, args, env, out, fuel);
  }

  /** `Condition.eval`. */
  method EvalCondition(c: Condition, env: Environment, out: seq<Int32>, fuel: nat) returns (r: Status<Int32>)
    requires env.Valid()
    modifies env, env.ancestors
    ensures var s := EvalCond(c, old(env.Model()), out, fuel); Agrees(r, s) && (s.Done? ==> env.Model() == s.env)
    decreases fuel, CondSize(c), 0
  {
    var a := EvalExpr(c.left, env, out, fuel);
    if !a.Ok? {
      return a;
    }
    var b := EvalExpr(c.right, env, a.out, fuel);
    if !b.Ok? {
      return b;
    }
    r := Ok(Compare(c.op, a.value, b.value), b.out);
  }

  /** `ProcedureCall.eval`. */
  method CallProcedure(name: string, args: seq<Expr>, env: Environment, out: seq<Int32>, fuel: nat)
      returns (r: Status<Int32>)
    requires env.Valid()
    modifies env, env.ancestors
    ensures var s := Call(name, args, old(env.Model()), out, fuel); Agrees(r, s) && (s.Done? ==> env.Model() == s.env)
    decreases fuel, ExprSize(ProcedureCall(name, args)), 0
  {
    var pd := env.GetProcedure(name);
    var child := CallEnvironment(env, name);
    if pd.None? {
      return Raised(UnknownProcedure(name), out);
    }
    if fuel == 0 {
      return Exhausted;
    }
    var b := BindArguments(name, args, pd.value.params, env, child, out, fuel);
    if !b.Ok? {
      return Relay(b);
    }
    r := InvokeBody(name, pd.value.body, env, child, b.out, fuel - 1);
  }

  /** The end of `ProcedureCall.eval`: run the body in the call's environment and read the result. */
  method InvokeBody(name: string, body: Stmt, env: Environment, child: Environment, out: seq<Int32>, fuel: nat)
      returns (r: Status<Int32>)
    requires env.Valid() && child.Valid() && child !in {env} + env.ancestors
    requires child.parent == (if env.parent != null then env.parent else env) && child.procedures == map[]
    modifies env, env.ancestors, child
    ensures var s := Invoke(name, body, old(child.variables), old(env.Model()), out, fuel);
      Agrees(r, s) && (s.Done? ==> env.Model() == s.env)
    decreases fuel, StmtSize(body), 2
  {
    var run := ExecStmt(body, child, out, fuel);
    if !run.Ok? {
      return Relay(run);
    }
    var v := child.GetVariable(name);
    if v.None? {
      return Raised(UnboundVariable(name), run.out);
    }
    r := Ok(v.value, run.out);
  }

  /**
   * The environment of a call: a new object extending the caller's parent, or the caller when it
   * has none, with the procedure's name declared as 0.
   */
  method CallEnvironment(env: Environment, name: string) returns (child: Environment)
    requires env.Valid()
    ensures fresh(child) && child.Valid() && child.parent == (if env.parent != null then env.parent else env)
    ensures child.variables == map[name := 0] && child.procedures == map[]
  {
    var home := env.GetParent();
    if home == null {
      home := env;
    }
    child := new Environment.Extend(home);
    child.DeclareVariable(name, 0);
  }

  /**
   * The argument loop of `ProcedureCall.eval`: each argument, evaluated in the caller's
   * environment, is declared in the call's environment under the next parameter name.
   */
  method BindArguments(name: string, args: seq<Expr>, params: seq<string>, env: Environment,
                       child: Environment, out: seq<Int32>, fuel: nat) returns (r: Status<map<string, Int32>>)
    requires env.Valid() && child.Valid() && child !in {env} + env.ancestors
    modifies env, env.ancestors, child
    ensures var s := BindArgs(name, args, params, old(child.variables), old(env.Model()), out, fuel);
      Agrees(r, s) && (s.Done? ==> env.Model() == s.env && child.variables == s.value)
    ensures child.procedures == old(child.procedures)
    decreases fuel, ArgsSize(args), 2
  {
    ghost var start := old(env.Model());
    var cur := out;
    for i := 0 to |args|
      invariant i <= |params|
      invariant child.procedures == old(child.procedures)
      invariant BindArgs(name, args, params, old(child.variables), start, out, fuel) ==
        BindArgs(name, args[i..], params[i..], child.variables, env.Model(), cur, fuel)
    {
      if i >= |params| {
        return Raised(TooManyArguments(name), cur);
      }
      ArgumentSize(args, i);
      var a := EvalExpr(args[i], env, cur, fuel);
      if !a.Ok? {
        return Relay(a);
      }
      child.DeclareVariable(params[i], a.value);
      cur := a.out;
      assert args[i..][1..] == args[i + 1..];
      assert params[i..][1..] == params[i + 1..];
    }
    r := Ok(child.variables, cur);
  }

  /** `Statement.exec`. */
  method ExecStmt(s: Stmt, env: Environment, out: seq<Int32>, fuel: nat) returns (r: Status<()>)
    requires env.Valid()
    modifies env, env.ancestors
    ensures var t := Exec(s, old(env.Model()), out, fuel); Agrees(r, t) && (t.Done? ==> env.Model() == t.env)
    decreases fuel, StmtSize(s), 1
  {
    match s
    case Assignment(x, e) =>
      var a := EvalExpr(e, env, out, fuel);
      if !a.Ok? {
        return Relay(a);
      }
      env.SetVariable(x, a.value);
      r := Ok((), a.out);
    case Writeln(e) =>
      var a := EvalExpr(e, env, out, fuel);
      if !a.Ok? {
        return Relay(a);
      }
      r := Ok((), a.out + [a.value]);
    case Block(ss) =>
      r := ExecBlock(ss, env, out, fuel);
    case If(c, s1, s2) =>
      var a := EvalCondition(c, env, out, fuel);
      if !a.Ok? {
        return Relay(a);
      }
      if a.value == 1 {
        r := ExecStmt(s1, env, a.out, fuel);
      } else if s2.Some? {
        r := ExecStmt(s2.value, env, a.out, fuel);
      } else {
        r := Ok((), a.out);
      }
    case While(c, body) =>
      r := ExecWhile(c, body, env, out, fuel);
    case Declaration(d) =>
      env.SetProcedure(d.name, d);
      r := Ok((), out);
  }

  /** `Block.exec`: each statement once, in order. */
  method ExecBlock(ss: seq<Stmt>, env: Environment, out: seq<Int32>, fuel: nat) returns (r: Status<()>)
    requires env.Valid()
    modifies env, env.ancestors
    ensures var t := ExecSeq(ss, old(env.Model()), out, fuel); Agrees(r, t) && (t.Done? ==> env.Model() == t.env)
    decreases fuel, StmtsSize(ss), 2
  {
    ghost var start := old(env.Model());
    var cur := out;
    for i := 0 to |ss|
      invariant ExecSeq(ss, start, out, fuel) == ExecSeq(ss[i..], env.Model(), cur, fuel)
    {
      StatementSize(ss, i);
      assert ss[i..][0] == ss[i] && ss[i..][1..] == ss[i + 1..];
      var a := ExecStmt(ss[i], env, cur, fuel);
      if !a.Ok? {
        return a;
      }
      cur := a.out;
    }
    r := Ok((), cur);
  }

  /** `While.exec`: evaluate the condition, and run the body while it is 1. */
  method ExecWhile(c: Condition, body: Stmt, env: Environment, out: seq<Int32>, fuel: nat) returns (r: Status<()>)
    requires env.Valid()
    modifies env, env.ancestors
    ensures var t := Loop(c, body, old(env.Model()), out, fuel); Agrees(r, t) && (t.Done? ==> env.Model() == t.env)
    decreases fuel, StmtSize(While(c, body)), 0
  {
    ghost var start := old(env.Model());
    ghost var before := env.Model();
    var f: nat := fuel;
    var ret := EvalCondition(c, env, out, f);
    var cur := out;
    while ret.Ok? && ret.value == 1
      invariant f <= fuel
      invariant Loop(c, body, start, out, fuel) == Loop(c, body, before, cur, f)
      invariant var a := EvalCond(c, before, cur, f); Agrees(ret, a) && (a.Done? ==> env.Model() == a.env)
      decreases f
    {
      if f == 0 {
        return Exhausted;
      }
      var b := ExecStmt(body, env, ret.out, f);
      if !b.Ok? {
        return b;
      }
      f := f - 1;
      cur := b.out;
      before := env.Model();
      ret := EvalCondition(c, env, cur, f);
    }
    if !ret.Ok? {
      return Relay(ret);
    }
    r := Ok((), ret.out);
  }

  /** `Program.exec`: register the procedures in order, then run the main statement. */
  method ExecProgram(p: Program, env: Environment, out: seq<Int32>, fuel: nat) returns (r: Status<()>)
    requires env.Valid()
    modifies env, env.ancestors
    ensures var t := Run(p, old(env.Model()), out, fuel); Agrees(r, t) && (t.Done? ==> env.Model() == t.env)
  {
    ghost var start := old(env.Model());
    for i := 0 to |p.procs|
      invariant Register(p.procs, start) == Register(p.procs[i..], env.Model())
    {
      assert p.procs[i..][0] == p.procs[i] && p.procs[i..][1..] == p.procs[i + 1..];
      env.SetProcedure(p.procs[i].name, p.procs[i]);
    }
    r := ExecStmt(p.main, env, out, fuel);
  }
}
