/**
 * The environment of the interpreter: a map of variables, a map of procedures and an optional
 * parent environment.
 *
 * Variable lookup and update look at the environment itself and at most one level up; procedure
 * lookup always answers from the outermost (root) environment. The functions below describe an
 * environment as a value, `Env`; the class `Environment` keeps the same maps in fields, shares
 * its parent with other environments as the Java objects do, and its methods are proved to follow
 * the functions.
 */
module Environments {
  import opened Options
  import opened JavaInt
  import opened Ast

  /** An environment and, through `parent`, all environments it extends. */
  datatype Env = Env(variables: map<string, Int32>, procedures: map<string, ProcDecl>, parent: Option<Env>)

  /** `new Environment()`. */
  function Empty(): (r: Env)
    ensures Depth(r) == 0
    ensures forall x :: GetVariable(r, x).None?
    ensures forall name :: GetProcedure(r, name).None?
  {
    Env(map[], map[], None)
  }

  /** `new Environment(parent)`. */
  function Extending(parent: Env): (r: Env)
    ensures Depth(r) == Depth(parent) + 1
    ensures forall x :: GetVariable(r, x) == Lookup(parent.variables, x)
  {
    Env(map[], map[], Some(parent))
  }

  /**
   * `getVariable`: the local binding, else the immediate parent's; `None` stands for the null
   * that Java then fails to unbox.
   */
  function GetVariable(e: Env, x: string): (r: Option<Int32>)
    ensures x in e.variables ==> r == Some(e.variables[x])
    ensures r.Some? ==> x in e.variables || (e.parent.Some? && x in e.parent.value.variables)
  {
    if x in e.variables then Some(e.variables[x])
    else if e.parent.Some? && x in e.parent.value.variables then Some(e.parent.value.variables[x])
    else None
  }

  /**
   * `setVariable`: overwrites the local binding if there is one, else the immediate parent's if
   * there is one, else adds a local binding.
   */
  function SetVariable(e: Env, x: string, v: Int32): (r: Env)
    ensures Depth(r) == Depth(e)
  {
    if x in e.variables then e.(variables := e.variables[x := v])
    else if e.parent.Some? && x in e.parent.value.variables then
      e.(parent := Some(e.parent.value.(variables := e.parent.value.variables[x := v])))
    else e.(variables := e.variables[x := v])
  }

  /** `declareVariable`: always binds locally. */
  function DeclareVariable(e: Env, x: string, v: Int32): (r: Env)
    ensures Depth(r) == Depth(e) && r.parent == e.parent && r.procedures == e.procedures
    ensures Lookup(r.variables, x) == Some(v)
    ensures forall y :: y != x ==> Lookup(r.variables, y) == Lookup(e.variables, y)
  {
    e.(variables := e.variables[x := v])
  }

  /** `setProcedure`: registers locally, replacing an earlier declaration of that name. */
  function SetProcedure(e: Env, name: string, d: ProcDecl): (r: Env)
    ensures Depth(r) == Depth(e) && r.parent == e.parent && r.variables == e.variables
    ensures Lookup(r.procedures, name) == Some(d)
    ensures forall m :: m != name ==> Lookup(r.procedures, m) == Lookup(e.procedures, m)
  {
    e.(procedures := e.procedures[name := d])
  }

  /** `getProcedure`: asks the parent while there is one, so the root answers. */
  function GetProcedure(e: Env, name: string): (r: Option<ProcDecl>)
    ensures r.Some? ==> name in Root(e).procedures && r.value == Root(e).procedures[name]
    decreases e
  {
    if e.parent.Some? then GetProcedure(e.parent.value, name) else Lookup(e.procedures, name)
  }

  /** The outermost environment `e` extends. */
  function Root(e: Env): (r: Env)
    ensures r.parent.None?
    decreases e
  {
    if e.parent.Some? then Root(e.parent.value) else e
  }

  /** How many environments `e` extends. */
  function Depth(e: Env): nat
    decreases e
  {
    if e.parent.Some? then 1 + Depth(e.parent.value) else 0
  }

  // ---------------------------------------------------------------------------------------------
  // Variables
  // ---------------------------------------------------------------------------------------------

  /** After `setVariable(x, v)`, `getVariable(x)` answers `v`. */
  lemma SetThenGet(e: Env, x: string, v: Int32)
    ensures GetVariable(SetVariable(e, x, v), x) == Some(v)
  {
  }

  /** `setVariable(x, v)` changes what no other name reads. */
  lemma SetKeepsOthers(e: Env, x: string, v: Int32, y: string)
    requires y != x
    ensures GetVariable(SetVariable(e, x, v), y) == GetVariable(e, y)
  {
  }

  /**
   * `setVariable` changes exactly one variable map, the local one or the parent's, and only at
   * `x`; the procedures, the parent's procedures and everything further out stay as they were.
   */
  lemma SetChangesOneMap(e: Env, x: string, v: Int32)
    ensures var r := SetVariable(e, x, v);
      r.procedures == e.procedures && r.parent.Some? == e.parent.Some? &&
      (r.parent.Some? ==> r.parent.value.procedures == e.parent.value.procedures &&
                          r.parent.value.parent == e.parent.value.parent) &&
      ((r.variables == e.variables[x := v] && r.parent == e.parent) ||
       (r.variables == e.variables && r.parent.Some? &&
        r.parent.value.variables == e.parent.value.variables[x := v] && x in e.parent.value.variables))
  {
  }

  /** A name the parent binds and the environment does not is written into the parent. */
  lemma SetWritesParent(e: Env, x: string, v: Int32)
    requires x !in e.variables && e.parent.Some? && x in e.parent.value.variables
    ensures SetVariable(e, x, v).variables == e.variables
    ensures GetVariable(SetVariable(e, x, v).parent.value, x) == Some(v)
  {
  }

  /** Lookup fails exactly when neither the environment nor its immediate parent binds the name. */
  lemma GetFailsIff(e: Env, x: string)
    ensures GetVariable(e, x).None? <==>
      x !in e.variables && (e.parent.None? || x !in e.parent.value.variables)
  {
  }

  /** A name bound only further out than the parent is not found. */
  lemma GrandparentInvisible(e: Env, x: string, v: Int32)
    requires e.parent.Some? && e.parent.value.parent.Some?
    requires x !in e.variables && x !in e.parent.value.variables
    ensures GetVariable(e, x) == None
    ensures GetVariable(DeclareVariable(e.parent.value.parent.value, x, v), x) == Some(v)
  {
  }

  /** `declareVariable` binds locally, hiding a binding of the parent, and leaves the parent alone. */
  lemma DeclareShadows(e: Env, x: string, v: Int32)
    ensures GetVariable(DeclareVariable(e, x, v), x) == Some(v)
    ensures DeclareVariable(e, x, v).parent == e.parent
    ensures forall y :: y != x ==> GetVariable(DeclareVariable(e, x, v), y) == GetVariable(e, y)
  {
  }

  // ---------------------------------------------------------------------------------------------
  // Procedures
  // ---------------------------------------------------------------------------------------------

  /** `getProcedure` answers from the root's procedure map, whatever the depth. */
  lemma {:induction false} GetProcedureAtRoot(e: Env, name: string)
    ensures GetProcedure(e, name) == Lookup(Root(e).procedures, name)
    decreases e
  {
    if e.parent.Some? {
      GetProcedureAtRoot(e.parent.value, name);
    }
  }

  /** Extending an environment keeps its root, so every procedure it can see. */
  lemma {:induction false} ExtendingKeepsProcedures(e: Env, name: string)
    ensures Root(Extending(e)) == Root(e)
    ensures GetProcedure(Extending(e), name) == GetProcedure(e, name)
  {
  }

  /** A procedure registered in an environment that has a parent is never found through it. */
  lemma {:induction false} SetProcedureBelowRootUnseen(e: Env, name: string, d: ProcDecl, m: string)
    requires e.parent.Some?
    ensures GetProcedure(SetProcedure(e, name, d), m) == GetProcedure(e, m)
  {
  }

  /** Registered at the root, the latest declaration of a name wins; other names are unaffected. */
  lemma SetProcedureAtRoot(e: Env, name: string, d: ProcDecl, m: string)
    requires e.parent.None?
    ensures GetProcedure(SetProcedure(e, name, d), m) == if m == name then Some(d) else GetProcedure(e, m)
  {
  }

  /** Updating variables never changes which procedures are found. */
  lemma {:induction false} VariablesKeepProcedures(e: Env, x: string, v: Int32, m: string)
    ensures GetProcedure(SetVariable(e, x, v), m) == GetProcedure(e, m)
    ensures GetProcedure(DeclareVariable(e, x, v), m) == GetProcedure(e, m)
  {
    GetProcedureAtRoot(e, m);
    GetProcedureAtRoot(SetVariable(e, x, v), m);
    GetProcedureAtRoot(DeclareVariable(e, x, v), m);
    if e.parent.Some? && x !in e.variables && x in e.parent.value.variables {
      var p := e.parent.value;
      RootOfParentUpdate(p, p.(variables := p.variables[x := v]));
    }
  }

  /** Two environments that differ only in their own maps have the same root procedures. */
  lemma {:induction false} RootOfParentUpdate(p: Env, q: Env)
    requires q.parent == p.parent && q.procedures == p.procedures
    ensures Root(q).procedures == Root(p).procedures
  {
  }
}
