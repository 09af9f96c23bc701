/**
 * What `eval` and `exec` compute: each expression and statement is run against an environment and
 * the output printed so far, and ends with a value (for statements, `()`), the environment after
 * it and the output after it; with one of the Java exceptions the tree can raise, after the output
 * printed up to that point; or, because loops and recursive procedures need not stop, with the
 * fuel used up.
 *
 * Fuel is the model's, not the program's: one unit is spent by every `while` iteration and every
 * procedure call, and a run that does not use it up is the Java run.
 */
module Semantics {
  import opened Options
  import opened JavaInt
  import opened Ast
  import opened Environments

  /** The exceptions a running tree can raise. */
  datatype RunError =
    | DivisionByZero              // `ArithmeticException` from `/` or `%`
    | UnboundVariable(name: string)  // `getVariable` returns null and Java fails to unbox it
    | UnknownProcedure(name: string) // `getProcedure` returns null
    | TooManyArguments(name: string) // `parameters.get(i)` is out of bounds

  datatype Outcome<T> =
    | Done(value: T, env: Env, out: seq<Int32>)
    | Fault(error: RunError, out: seq<Int32>)
    | OutOfFuel
  {
    /** The same failure, as the outcome of the construct that gives up because of it. */
    function Propagate<U>(): (r: Outcome<U>)
      requires !Done?
      ensures r.Fault? == Fault? && (Fault? ==> r.error == error && r.out == out)
    {
      if Fault? then Fault(error, out) else OutOfFuel
    }
  }

  /** `BinOp.eval` on two values: `None` where Java divides by zero. Any other operator is `%`. */
  function Apply(op: string, a: Int32, b: Int32): (r: Option<Int32>)
    ensures r.None? <==> b == 0 && op != "*" && op != "+" && op != "-"
  {
    if op == "*" then Some(Mul(a, b))
    else if op == "/" then (if b == 0 then None else Some(Div(a, b)))
    else if op == "+" then Some(Add(a, b))
    else if op == "-" then Some(Sub(a, b))
    else if b == 0 then None else Some(Rem(a, b))
  }

  /** `Condition.eval` on two values; it tests "==", never the parser's "=". */
  function Compare(op: string, a: Int32, b: Int32): (r: Int32)
    ensures r == 0 || r == 1
  {
    if op == "==" then (if a == b then 1 else 0)
    else if op == "<>" then (if a != b then 1 else 0)
    else if op == ">" then (if a > b then 1 else 0)
    else if op == "<" then (if a < b then 1 else 0)
    else if op == "<=" then (if a <= b then 1 else 0)
    else if op == ">=" then (if a >= b then 1 else 0)
    else 0
  }

  /** The environment a call's environment extends: the caller's parent if it has one, else the caller. */
  function Home(env: Env): (r: Env)
    ensures Root(r) == Root(env)
    ensures Depth(r) == if env.parent.Some? then Depth(env) - 1 else Depth(env)
  {
    if env.parent.Some? then env.parent.value else env
  }

  /**
   * The caller after a call whose environment ended with parent `home`: the same object as that
   * parent when the caller has none, else the caller with its parent so updated.
   */
  function Reattach(caller: Env, home: Env): (r: Env)
    ensures home == Home(caller) ==> r == caller
    ensures caller.parent.Some? ==> Home(r) == home && r.variables == caller.variables
    ensures caller.parent.Some? ==> Depth(r) == Depth(home) + 1
  {
    if caller.parent.Some? then caller.(parent := Some(home)) else home
  }

  function Eval(e: Expr, env: Env, out: seq<Int32>, fuel: nat): (r: Outcome<Int32>)
    ensures r.Done? ==> Depth(r.env) == Depth(env)
    ensures !r.OutOfFuel? ==> out <= r.out
    decreases fuel, ExprSize(e), 1
  {
    match e
    case Number(v) => Done(v, env, out)
    case Variable(x) =>
      (match GetVariable(env, x)
       case Some(v) => Done(v, env, out)
       case None => Fault(UnboundVariable(x), out))
    case BinOp(op, left, right) =>
      var a := Eval(left, env, out, fuel);
      if !a.Done? then a.Propagate() else
      var b := Eval(right, a.env, a.out, fuel);
      if !b.Done? then b.Propagate() else
      (match Apply(op, a.value, b.value)
       case Some(v) => Done(v, b.env, b.out)
       case None => Fault(DivisionByZero, b.out))
    case Relation(c) => EvalCond(c, env, out, fuel)
    case ProcedureCall(name, args) => Call(name, args, env, out, fuel)
  }

  /** `Condition.eval`: both operands, left first, then 0 or 1. */
  function EvalCond(c: Condition, env: Env, out: seq<Int32>, fuel: nat): (r: Outcome<Int32>)
    ensures r.Done? ==> (r.value == 0 || r.value == 1) && Depth(r.env) == Depth(env)
    ensures !r.OutOfFuel? ==> out <= r.out
    decreases fuel, CondSize(c), 0
  {
    var a := Eval(c.left, env, out, fuel);
    if !a.Done? then a.Propagate() else
    var b := Eval(c.right, a.env, a.out, fuel);
    if !b.Done? then b.Propagate() else
    Done(Compare(c.op, a.value, b.value), b.env, b.out)
  }

  /**
   * `ProcedureCall.eval`: find the procedure at the root, bind its name to 0 and the arguments to
   * the parameters in a new environment extending `Home(env)`, run the body there and answer the
   * value the body left in the procedure's name.
   */
  function Call(name: string, args: seq<Expr>, env: Env, out: seq<Int32>, fuel: nat): (r: Outcome<Int32>)
    ensures r.Done? ==> Depth(r.env) == Depth(env)
    ensures !r.OutOfFuel? ==> out <= r.out
    decreases fuel, ExprSize(ProcedureCall(name, args)), 0
  {
    match GetProcedure(env, name)
    case None => Fault(UnknownProcedure(name), out)
    case Some(pd) =>
      if fuel == 0 then OutOfFuel else
      var b := BindArgs(name, args, pd.params, map[name := 0], env, out, fuel);
      if !b.Done? then b.Propagate() else Invoke(name, pd.body, b.value, b.env, b.out, fuel - 1)
  }

  /**
   * The rest of a call, once the arguments are bound in `locals`: run the body in a new
   * environment holding them and extending `Home(caller)`, and answer the value it left in the
   * procedure's name.
   */
  function Invoke(name: string, body: Stmt, locals: map<string, Int32>, caller: Env, out: seq<Int32>, fuel: nat)
      : (r: Outcome<Int32>)
    ensures r.Done? ==> Depth(r.env) == Depth(caller)
    ensures !r.OutOfFuel? ==> out <= r.out
    decreases fuel, StmtSize(body), 2
  {
    var run := Exec(body, Env(locals, map[], Some(Home(caller))), out, fuel);
    if !run.Done? then run.Propagate() else
    match GetVariable(run.env, name)
    case Some(v) => Done(v, Reattach(caller, run.env.parent.value), run.out)
    case None => Fault(UnboundVariable(name), run.out)
  }

  /**
   * The argument loop of a call: each remaining argument is evaluated in the caller's environment
   * and bound, in `locals`, to the next parameter; an argument without a parameter fails first.
   */
  function BindArgs(name: string, rest: seq<Expr>, params: seq<string>, locals: map<string, Int32>,
                    env: Env, out: seq<Int32>, fuel: nat): (r: Outcome<map<string, Int32>>)
    ensures r.Done? ==> Depth(r.env) == Depth(env)
    ensures !r.OutOfFuel? ==> out <= r.out
    decreases fuel, ArgsSize(rest), 2
  {
    if |rest| == 0 then Done(locals, env, out)
    else if |params| == 0 then Fault(TooManyArguments(name), out)
    else
      var a := Eval(rest[0], env, out, fuel);
      if !a.Done? then a.Propagate() else
      BindArgs(name, rest[1..], params[1..], locals[params[0] := a.value], a.env, a.out, fuel)
  }

  function Exec(s: Stmt, env: Env, out: seq<Int32>, fuel: nat): (r: Outcome<()>)
    ensures r.Done? ==> Depth(r.env) == Depth(env)
    ensures !r.OutOfFuel? ==> out <= r.out
    decreases fuel, StmtSize(s), 1
  {
    match s
    case Assignment(x, e) =>
      var a := Eval(e, env, out, fuel);
      if !a.Done? then a.Propagate() else Done((), SetVariable(a.env, x, a.value), a.out)
    case Writeln(e) =>
      var a := Eval(e, env, out, fuel);
      if !a.Done? then a.Propagate() else Done((), a.env, a.out + [a.value])
    case Block(ss) => ExecSeq(ss, env, out, fuel)
    case If(c, s1, s2) =>
      var a := EvalCond(c, env, out, fuel);
      if !a.Done? then a.Propagate()
      else if a.value == 1 then Exec(s1, a.env, a.out, fuel)
      else if s2.Some? then Exec(s2.value, a.env, a.out, fuel)
      else Done((), a.env, a.out)
    case While(c, body) => Loop(c, body, env, out, fuel)
    case Declaration(d) => Done((), SetProcedure(env, d.name, d), out)
  }

  /** `While.exec`: the body runs while the condition, evaluated before each iteration, is 1. */
  function Loop(c: Condition, body: Stmt, env: Env, out: seq<Int32>, fuel: nat): (r: Outcome<()>)
    ensures r.Done? ==> Depth(r.env) == Depth(env)
    ensures !r.OutOfFuel? ==> out <= r.out
    decreases fuel, StmtSize(While(c, body)), 0
  {
    var a := EvalCond(c, env, out, fuel);
    if !a.Done? then a.Propagate()
    else if a.value != 1 then Done((), a.env, a.out)
    else if fuel == 0 then OutOfFuel
    else
      var b := Exec(body, a.env, a.out, fuel);
      if !b.Done? then b.Propagate() else Loop(c, body, b.env, b.out, fuel - 1)
  }

  /** `Block.exec`: the statements once each, in order. */
  function ExecSeq(ss: seq<Stmt>, env: Env, out: seq<Int32>, fuel: nat): (r: Outcome<()>)
    ensures r.Done? ==> Depth(r.env) == Depth(env)
    ensures !r.OutOfFuel? ==> out <= r.out
    decreases fuel, StmtsSize(ss), 2
  {
    if |ss| == 0 then Done((), env, out)
    else
      var a := Exec(ss[0], env, out, fuel);
      if !a.Done? then a.Propagate() else ExecSeq(ss[1..], a.env, a.out, fuel)
  }

  /** `ProcedureDeclaration.exec` for each declaration, in order. */
  function Register(ds: seq<ProcDecl>, env: Env): (r: Env)
    ensures r.variables == env.variables && r.parent == env.parent
  {
    if |ds| == 0 then env else Register(ds[1..], SetProcedure(env, ds[0].name, ds[0]))
  }

  /** `Program.exec`: register the procedures, then run the main statement; VAR names are not declared. */
  function Run(p: Program, env: Env, out: seq<Int32>, fuel: nat): (r: Outcome<()>)
    ensures r.Done? ==> Depth(r.env) == Depth(env)
    ensures !r.OutOfFuel? ==> out <= r.out
  {
    Exec(p.main, Register(p.procs, env), out, fuel)
  }
}
