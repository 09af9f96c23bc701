/**
 * The `Environment` object: its two maps are fields that its methods update in place, and its
 * parent is another object, shared with every environment that extends it. `Model()` reads the
 * object and the environments it extends as an `Environments.Env` value, and every method is
 * proved to change that value as the function of the same name in `Environments` does.
 */
module EnvironmentObject {
  import opened Options
  import opened JavaInt
  import opened Ast
  import E = Environments

  class Environment {
    var variables: map<string, Int32>
    var procedures: map<string, ProcDecl>
    const parent: Environment?
    /** The environments this one extends, nearest first; fixed when it is created. */
    ghost const ancestors: set<Environment>
    ghost const depth: nat

    /** The chain of parents is finite and has no cycle. */
    ghost predicate Valid()
      decreases depth
    {
      if parent == null then ancestors == {}
      else parent.depth < depth && ancestors == {parent} + parent.ancestors && this !in ancestors && parent.Valid()
    }

    /** The object and the environments it extends, as a value. */
    ghost function Model(): E.Env
      requires Valid()
      reads this, ancestors
      decreases depth
    {
      E.Env(variables, procedures, if parent == null then None else Some(parent.Model()))
    }

    /** `Environment()`. */
    constructor ()
      ensures Valid() && parent == null && Model() == E.Empty()
    {
      variables := map[];
      procedures := map[];
      parent := null;
      ancestors := {};
      depth := 0;
    }

    /** `Environment(parent)`. */
    constructor Extend(p: Environment)
      requires p.Valid()
      ensures Valid() && parent == p && ancestors == {p} + p.ancestors
      ensures Model() == E.Extending(p.Model())
    {
      variables := map[];
      procedures := map[];
      parent := p;
      ancestors := {p} + p.ancestors;
      depth := p.depth + 1;
    }

    method SetVariable(x: string, v: Int32)
      requires Valid()
      modifies this, parent
      ensures Model() == E.SetVariable(old(Model()), x, v)
    {
      if x in variables {
        variables := variables[x := v];
        return;
      } else if parent != null {
        if x in parent.variables {
          ParentFrame();
          parent.variables := parent.variables[x := v];
          return;
        }
      }
      variables := variables[x := v];
    }

    /** What lies beyond the parent is neither this object nor its parent. */
    lemma ParentFrame()
      requires Valid() && parent != null
      ensures parent.parent != null ==> parent.parent.Valid() && this !in parent.parent.ancestors + {parent.parent}
      ensures parent.parent != null ==> parent !in parent.parent.ancestors + {parent.parent}
    {
    }

    method GetVariable(x: string) returns (r: Option<Int32>)
      requires Valid()
      ensures r == E.GetVariable(Model(), x)
    {
      if x in variables {
        return Some(variables[x]);
      } else if parent != null {
        if x in parent.variables {
          return Some(parent.variables[x]);
        }
      }
      return Lookup(variables, x);
    }

    method SetProcedure(name: string, d: ProcDecl)
      requires Valid()
      modifies this
      ensures Model() == E.SetProcedure(old(Model()), name, d)
    {
      procedures := procedures[name := d];
    }

    method GetProcedure(name: string) returns (r: Option<ProcDecl>)
      requires Valid()
      ensures r == E.GetProcedure(Model(), name)
      decreases depth
    {
      if parent != null {
        r := parent.GetProcedure(name);
        return;
      }
      return Lookup(procedures, name);
    }

    method DeclareVariable(x: string, v: Int32)
      requires Valid()
      modifies this
      ensures Model() == E.DeclareVariable(old(Model()), x, v)
    {
      variables := variables[x := v];
    }

    /** `getParent`: the environment this one extends, whose value is the model's parent. */
    function GetParent(): (p: Environment?)
      requires Valid()
      reads this, ancestors
      ensures p == null <==> Model().parent.None?
      ensures p != null ==> p.Valid() && p in ancestors && Model().parent == Some(p.Model())
    {
      parent
    }
  }
}
