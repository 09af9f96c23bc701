/**
 * What the parser builds: the shape of every tree it returns, and scenarios that show
 * precedence, left nesting, the way odd tokens are read and where the parser runs for ever.
 */
module ParserProperties {
  import opened Options
  import JavaInt
  import opened Decimal
  import opened Ast
  import opened Parsing

  // ---------------------------------------------------------------------------------------------
  // The shape of parsed trees
  // ---------------------------------------------------------------------------------------------

  predicate IsArithOp(op: string) {
    op == "+" || op == "-" || op == "*" || op == "/"
  }

  /** Expressions the parser can build: no condition as a value, only the four arithmetic operators. */
  predicate ParsedExpr(e: Expr) {
    match e
    case Number(_) => true
    case Variable(_) => true
    case BinOp(op, l, r) => IsArithOp(op) && ParsedExpr(l) && ParsedExpr(r)
    case Relation(_) => false
    case ProcedureCall(_, args) => forall i :: 0 <= i < |args| ==> ParsedExpr(args[i])
  }

  predicate ParsedExprs(es: seq<Expr>) {
    forall i :: 0 <= i < |es| ==> ParsedExpr(es[i])
  }

  predicate ParsedCond(c: Condition) {
    IsCompOp(c.op) && ParsedExpr(c.left) && ParsedExpr(c.right)
  }

  /** Statements the parser can build: no declarations, and no If with an else branch. */
  predicate ParsedStmt(s: Stmt) {
    match s
    case Assignment(_, e) => ParsedExpr(e)
    case Writeln(e) => ParsedExpr(e)
    case Block(ss) => forall i :: 0 <= i < |ss| ==> ParsedStmt(ss[i])
    case If(c, s1, s2) => s2.None? && ParsedCond(c) && ParsedStmt(s1)
    case While(c, b) => ParsedCond(c) && ParsedStmt(b)
    case Declaration(_) => false
  }

  predicate ParsedStmts(ss: seq<Stmt>) {
    forall i :: 0 <= i < |ss| ==> ParsedStmt(ss[i])
  }

  predicate ParsedProgram(prog: Program) {
    && (forall i :: 0 <= i < |prog.procs| ==> ParsedStmt(prog.procs[i].body))
    && ParsedStmt(prog.main)
  }

  lemma {:induction false} FactorShape(t: seq<string>, p: nat)
    ensures ParseFactor(t, p).Parsed? ==> ParsedExpr(ParseFactor(t, p).value)
    decreases Rem(t, p), 0
  {
    var c := Tok(t, p);
    if c == "(" {
      ExpressionShape(t, p + 1);
    } else if c == "-" {
      FactorShape(t, p + 1);
    } else if ParseInt(c).None? && Tok(t, p + 1) == "(" {
      ArgsShape(t, p + 2, []);
    }
  }

  lemma {:induction false} ArgsShape(t: seq<string>, p: nat, acc: seq<Expr>)
    requires ParsedExprs(acc)
    ensures ParseArgs(t, p, acc).Parsed? ==> ParsedExprs(ParseArgs(t, p, acc).value)
    decreases Rem(t, p), 5
  {
    if Tok(t, p) != ")" && p < |t| {
      ExpressionShape(t, p);
      var r := ParseExpression(t, p);
      if r.Parsed? {
        assert ParsedExprs(acc + [r.value]);
        if Tok(t, r.next) == "," {
          ArgsShape(t, r.next + 1, acc + [r.value]);
        } else {
          ArgsShape(t, r.next, acc + [r.value]);
        }
      }
    }
  }

  lemma {:induction false} TermShape(t: seq<string>, p: nat)
    ensures ParseTerm(t, p).Parsed? ==> ParsedExpr(ParseTerm(t, p).value)
    decreases Rem(t, p), 2
  {
    FactorShape(t, p);
    var f := ParseFactor(t, p);
    if f.Parsed? {
      TermLoopShape(t, f.value, f.next);
    }
  }

  lemma {:induction false} TermLoopShape(t: seq<string>, acc: Expr, p: nat)
    requires ParsedExpr(acc)
    ensures TermLoop(t, acc, p).Parsed? ==> ParsedExpr(TermLoop(t, acc, p).value)
    decreases Rem(t, p), 1
  {
    var c := Tok(t, p);
    if c == "/" || c == "*" {
      FactorShape(t, p + 1);
      var f := ParseFactor(t, p + 1);
      if f.Parsed? {
        TermLoopShape(t, BinOp(c, acc, f.value), f.next);
      }
    }
  }

  lemma {:induction false} ExpressionShape(t: seq<string>, p: nat)
    ensures ParseExpression(t, p).Parsed? ==> ParsedExpr(ParseExpression(t, p).value)
    decreases Rem(t, p), 4
  {
    TermShape(t, p);
    var f := ParseTerm(t, p);
    if f.Parsed? {
      ExprLoopShape(t, f.value, f.next);
    }
  }

  lemma {:induction false} ExprLoopShape(t: seq<string>, acc: Expr, p: nat)
    requires ParsedExpr(acc)
    ensures ExprLoop(t, acc, p).Parsed? ==> ParsedExpr(ExprLoop(t, acc, p).value)
    decreases Rem(t, p), 3
  {
    var c := Tok(t, p);
    if c == "+" || c == "-" {
      TermShape(t, p + 1);
      var f := ParseTerm(t, p + 1);
      if f.Parsed? {
        ExprLoopShape(t, BinOp(c, acc, f.value), f.next);
      }
    }
  }

  lemma {:induction false} ConditionShape(t: seq<string>, p: nat)
    ensures ParseCondition(t, p).Parsed? ==> ParsedCond(ParseCondition(t, p).value)
    decreases Rem(t, p), 6
  {
    ExpressionShape(t, p);
    var l := ParseExpression(t, p);
    if l.Parsed? {
      var op := ParseCompOp(t, l.next);
      if op.Parsed? {
        ExpressionShape(t, op.next);
      }
    }
  }

  /** Every parsed statement is built without declarations and without else branches. */
  lemma {:induction false} StatementShape(t: seq<string>, p: nat)
    ensures ParseStatement(t, p).Parsed? ==> ParsedStmt(ParseStatement(t, p).value)
    decreases Rem(t, p), 7
  {
    var c := Tok(t, p);
    if c == "WRITELN" {
      ExpressionShape(t, p + 2);
    } else if c == "BEGIN" {
      BlockLoopShape(t, p + 1, []);
    } else if c == "IF" || c == "WHILE" {
      ConditionShape(t, p + 1);
      var cond := ParseCondition(t, p + 1);
      if cond.Parsed? {
        StatementShape(t, cond.next + 1);
      }
    } else {
      ExpressionShape(t, p + 2);
    }
  }

  lemma {:induction false} BlockLoopShape(t: seq<string>, p: nat, acc: seq<Stmt>)
    requires ParsedStmts(acc)
    ensures BlockLoop(t, p, acc).Parsed? ==> ParsedStmts(BlockLoop(t, p, acc).value)
    decreases Rem(t, p), 8
  {
    if Tok(t, p) != "END" {
      StatementShape(t, p);
      var s := ParseStatement(t, p);
      if s.Parsed? {
        assert ParsedStmts(acc + [s.value]);
        BlockLoopShape(t, s.next, acc + [s.value]);
      }
    }
  }

  lemma {:induction false} ProcDeclsShape(t: seq<string>, p: nat, acc: seq<ProcDecl>)
    requires forall i :: 0 <= i < |acc| ==> ParsedStmt(acc[i].body)
    ensures var r := ProcDecls(t, p, acc);
      r.Parsed? ==> forall i :: 0 <= i < |r.value| ==> ParsedStmt(r.value[i].body)
    decreases Rem(t, p)
  {
    if Tok(t, p) == "PROCEDURE" {
      var h := ParseProcHead(t, p);
      if h.Parsed? {
        StatementShape(t, h.next);
        var d := ParseProcDecl(t, p);
        if d.Parsed? {
          ProcDeclsShape(t, d.next, acc + [d.value]);
        }
      }
    }
  }

  /** No parsed program holds a declaration statement, a condition as a value, or an else branch. */
  lemma ProgramShape(t: seq<string>)
    ensures ParseProgram(t).Parsed? ==> ParsedProgram(ParseProgram(t).value)
  {
    var v := VarSections(t, 0, []);
    if v.Parsed? {
      ProcDeclsShape(t, v.next, []);
      var d := ProcDecls(t, v.next, []);
      if d.Parsed? {
        StatementShape(t, d.next);
      }
    }
  }

  /** A name list never raises an error: it ends at its closing token or runs for ever. */
  lemma NameListsNeverFail(t: seq<string>, p: nat, close: string, acc: seq<string>)
    ensures ParseNames(t, p, close, acc).Parsed? || ParseNames(t, p, close, acc).Diverges?
  {
  }

  // ---------------------------------------------------------------------------------------------
  // The grammar, over all token lists
  // ---------------------------------------------------------------------------------------------

  /** How a factor starts decides what it is: a parenthesis, a minus, a number, a call or a name. */
  lemma FactorCases(t: seq<string>, p: nat)
    ensures (Tok(t, p) == "(" && ParseExpression(t, p + 1).Parsed?) ==>
      var q := ParseExpression(t, p + 1).next;
      ParseFactor(t, p) ==
        if Tok(t, q) == ")" then Parsed(ParseExpression(t, p + 1).value, q + 1)
        else Failed(Expected(")", Tok(t, q)))
    ensures (Tok(t, p) == "-" && ParseFactor(t, p + 1).Parsed?) ==>
      ParseFactor(t, p) ==
        Parsed(BinOp("-", Number(0), ParseFactor(t, p + 1).value), ParseFactor(t, p + 1).next)
    ensures ParseInt(Tok(t, p)).Some? ==>
      ParseFactor(t, p) == Parsed(Number(ParseInt(Tok(t, p)).value), p + 1)
    ensures (Tok(t, p) != "(" && Tok(t, p) != "-" && ParseInt(Tok(t, p)).None? &&
             Tok(t, p + 1) == "(" && ParseArgs(t, p + 2, []).Parsed?) ==>
      ParseFactor(t, p) ==
        Parsed(ProcedureCall(Tok(t, p), ParseArgs(t, p + 2, []).value), ParseArgs(t, p + 2, []).next)
    ensures (Tok(t, p) != "(" && Tok(t, p) != "-" && ParseInt(Tok(t, p)).None? &&
             Tok(t, p + 1) != "(") ==>
      ParseFactor(t, p) == Parsed(Variable(Tok(t, p)), p + 1)
  {
    if ParseInt(Tok(t, p)).Some? {
      NoSignAloneIsANumber(Tok(t, p));
    }
  }

  /**
   * The result of a statement, branch by branch: the keyword picks the branch, and once the
   * part parsed first (the expression, the block loop or the condition) has been read, the
   * tokens after it decide between the statement and the error `eat` raises.
   */
  lemma StatementCases(t: seq<string>, p: nat)
    ensures Tok(t, p) == "WRITELN" && Tok(t, p + 1) != "(" ==>
      ParseStatement(t, p) == Failed(Expected("(", Tok(t, p + 1)))
    ensures (Tok(t, p) == "WRITELN" && Tok(t, p + 1) == "(" && ParseExpression(t, p + 2).Parsed?) ==>
      var q := ParseExpression(t, p + 2).next;
      ParseStatement(t, p) ==
        if Tok(t, q) != ")" then Failed(Expected(")", Tok(t, q)))
        else if Tok(t, q + 1) != ";" then Failed(Expected(";", Tok(t, q + 1)))
        else Parsed(Writeln(ParseExpression(t, p + 2).value), q + 2)
    ensures (Tok(t, p) == "BEGIN" && BlockLoop(t, p + 1, []).Parsed?) ==>
      var q := BlockLoop(t, p + 1, []).next;
      ParseStatement(t, p) ==
        if Tok(t, q + 1) != ";" then Failed(Expected(";", Tok(t, q + 1)))
        else Parsed(Block(BlockLoop(t, p + 1, []).value), q + 2)
    ensures (Tok(t, p) == "IF" && ParseCondition(t, p + 1).Parsed?) ==>
      var q := ParseCondition(t, p + 1).next;
      ParseStatement(t, p) ==
        if Tok(t, q) != "THEN" then Failed(Expected("THEN", Tok(t, q)))
        else if ParseStatement(t, q + 1).Parsed? then
          Parsed(If(ParseCondition(t, p + 1).value, ParseStatement(t, q + 1).value, None), ParseStatement(t, q + 1).next)
        else ParseStatement(t, q + 1)
    ensures (Tok(t, p) == "WHILE" && ParseCondition(t, p + 1).Parsed?) ==>
      var q := ParseCondition(t, p + 1).next;
      ParseStatement(t, p) ==
        if Tok(t, q) != "DO" then Failed(Expected("DO", Tok(t, q)))
        else if ParseStatement(t, q + 1).Parsed? then
          Parsed(While(ParseCondition(t, p + 1).value, ParseStatement(t, q + 1).value), ParseStatement(t, q + 1).next)
        else ParseStatement(t, q + 1)
    ensures !IsStatementKeyword(Tok(t, p)) && Tok(t, p + 1) != ":=" ==>
      ParseStatement(t, p) == Failed(Expected(":=", Tok(t, p + 1)))
    ensures (!IsStatementKeyword(Tok(t, p)) && Tok(t, p + 1) == ":=" && ParseExpression(t, p + 2).Parsed?) ==>
      var q := ParseExpression(t, p + 2).next;
      ParseStatement(t, p) ==
        if Tok(t, q) != ";" then Failed(Expected(";", Tok(t, q)))
        else Parsed(Assignment(Tok(t, p), ParseExpression(t, p + 2).value), q + 1)
  {
  }

  /** "(" and "-" alone are not numbers, so they never reach the number case of a factor. */
  lemma NoSignAloneIsANumber(c: string)
    requires ParseInt(c).Some?
    ensures c != "(" && c != "-"
  {
  }

  /** The two precedence levels the loops of `parseExpression` and `parseTerm` work on. */
  datatype Level = Sums | Products

  /** The operators a level's loop takes: "+"/"-" for sums, "*"/"/" for products. */
  predicate IsLevelOp(l: Level, s: string) {
    if l == Sums then s == "+" || s == "-" else s == "*" || s == "/"
  }

  /** The operand a level's loop parses after each operator: a term for sums, a factor for products. */
  function Operand(l: Level, t: seq<string>, p: nat): PResult<Expr> {
    if l == Sums then ParseTerm(t, p) else ParseFactor(t, p)
  }

  lemma OperandAdvances(l: Level, t: seq<string>, p: nat)
    ensures Operand(l, t, p).Parsed? ==> Operand(l, t, p).next > p
  {
  }

  /** The level's loop. */
  function LevelLoop(l: Level, t: seq<string>, acc: Expr, p: nat): PResult<Expr> {
    if l == Sums then ExprLoop(t, acc, p) else TermLoop(t, acc, p)
  }

  /** One turn of a level's loop: an operator and an operand, then the rest of the loop. */
  lemma LoopTurn(l: Level, t: seq<string>, acc: Expr, p: nat, a: Expr, q: nat)
    requires IsLevelOp(l, Tok(t, p)) && Operand(l, t, p + 1) == Parsed(a, q)
    ensures LevelLoop(l, t, acc, p) == LevelLoop(l, t, BinOp(Tok(t, p), acc, a), q)
  {
  }

  /** The loop fails with its operand, and it stops at any token outside its operators. */
  lemma LoopStops(l: Level, t: seq<string>, acc: Expr, p: nat)
    ensures IsLevelOp(l, Tok(t, p)) && !Operand(l, t, p + 1).Parsed? ==>
      !LevelLoop(l, t, acc, p).Parsed?
    ensures !IsLevelOp(l, Tok(t, p)) ==> LevelLoop(l, t, acc, p) == Parsed(acc, p)
  {
  }

  /** `first op1 a1 op2 a2 ... opn an`, nested to the left. */
  function LeftFold(first: Expr, ops: seq<string>, args: seq<Expr>): Expr
    requires |ops| == |args|
    decreases |ops|
  {
    if |ops| == 0 then first
    else
      var n := |ops| - 1;
      BinOp(ops[n], LeftFold(first, ops[..n], args[..n]), args[n])
  }

  /**
   * A chain of the level from `pos[0]` to `pos[|ops|]`: at each `pos[i]` the operator `ops[i]`,
   * then an operand that parses to `args[i]` and ends at `pos[i + 1]`.
   */
  predicate Chain(l: Level, t: seq<string>, ops: seq<string>, args: seq<Expr>, pos: seq<nat>) {
    && |args| == |ops|
    && |pos| == |ops| + 1
    && forall i :: 0 <= i < |ops| ==>
         && Tok(t, pos[i]) == ops[i]
         && IsLevelOp(l, ops[i])
         && Operand(l, t, pos[i] + 1) == Parsed(args[i], pos[i + 1])
  }

  /** An operator and its operand in front of a chain make a longer chain. */
  lemma ChainCons(l: Level, t: seq<string>, op: string, a: Expr, p: nat,
                  ops: seq<string>, args: seq<Expr>, pos: seq<nat>)
    requires Chain(l, t, ops, args, pos)
    requires Tok(t, p) == op && IsLevelOp(l, op) && Operand(l, t, p + 1) == Parsed(a, pos[0])
    ensures Chain(l, t, [op] + ops, [a] + args, [p] + pos)
  {
    var ops', args', pos' := [op] + ops, [a] + args, [p] + pos;
    forall i | 0 <= i < |ops'|
      ensures Tok(t, pos'[i]) == ops'[i] && IsLevelOp(l, ops'[i])
      ensures Operand(l, t, pos'[i] + 1) == Parsed(args'[i], pos'[i + 1])
    {
      if i > 0 {
        assert ops'[i] == ops[i - 1] && args'[i] == args[i - 1] && pos'[i] == pos[i - 1];
      }
    }
  }

  /** A chain without its first operator and operand is still a chain. */
  lemma ChainTail(l: Level, t: seq<string>, ops: seq<string>, args: seq<Expr>, pos: seq<nat>)
    requires Chain(l, t, ops, args, pos) && |ops| > 0
    ensures Chain(l, t, ops[1..], args[1..], pos[1..])
    ensures Tok(t, pos[0]) == ops[0] && IsLevelOp(l, ops[0])
    ensures Operand(l, t, pos[0] + 1) == Parsed(args[0], pos[1])
  {
    forall i | 0 <= i < |ops| - 1
      ensures Tok(t, pos[1..][i]) == ops[1..][i] && IsLevelOp(l, ops[1..][i])
      ensures Operand(l, t, pos[1..][i] + 1) == Parsed(args[1..][i], pos[1..][i + 1])
    {
      assert pos[1..][i + 1] == pos[i + 2];
    }
  }

  /** Folding from the left after a first step is folding from the step's result. */
  lemma {:induction false} LeftFoldCons(first: Expr, op: string, a: Expr, ops: seq<string>, args: seq<Expr>)
    requires |ops| == |args|
    ensures LeftFold(first, [op] + ops, [a] + args) == LeftFold(BinOp(op, first, a), ops, args)
    decreases |ops|
  {
    if |ops| > 0 {
      var n := |ops| - 1;
      assert ([op] + ops)[..n + 1] == [op] + ops[..n];
      assert ([a] + args)[..n + 1] == [a] + args[..n];
      LeftFoldCons(first, op, a, ops[..n], args[..n]);
    }
  }

  /** A level's loop consumes the whole chain in front of it and builds its left fold. */
  lemma {:induction false} LoopFoldsChain(l: Level, t: seq<string>, acc: Expr, ops: seq<string>, args: seq<Expr>, pos: seq<nat>)
    requires Chain(l, t, ops, args, pos) && !IsLevelOp(l, Tok(t, pos[|ops|]))
    ensures LevelLoop(l, t, acc, pos[0]) == Parsed(LeftFold(acc, ops, args), pos[|ops|])
    decreases |ops|
  {
    if |ops| == 0 {
      LoopStops(l, t, acc, pos[0]);
    } else {
      var step := BinOp(ops[0], acc, args[0]);
      ChainTail(l, t, ops, args, pos);
      LoopTurn(l, t, acc, pos[0], args[0], pos[1]);
      LoopFoldsChain(l, t, step, ops[1..], args[1..], pos[1..]);
      assert pos[1..][|ops| - 1] == pos[|ops|];
      LeftFoldCons(acc, ops[0], args[0], ops[1..], args[1..]);
      assert [ops[0]] + ops[1..] == ops && [args[0]] + args[1..] == args;
    }
  }

  /**
   * Conversely, whatever a level's loop builds is the left fold of a chain that ends at a token
   * outside the level's operators: each right operand is a whole operand of the level.
   */
  lemma LoopIsChain(l: Level, t: seq<string>, acc: Expr, p: nat)
    requires LevelLoop(l, t, acc, p).Parsed?
    ensures exists ops, args, pos ::
      (Chain(l, t, ops, args, pos) && pos[0] == p && !IsLevelOp(l, Tok(t, pos[|ops|])) &&
       LevelLoop(l, t, acc, p) == Parsed(LeftFold(acc, ops, args), pos[|ops|]))
  {
    var ops, args, pos := ChainOfLoop(l, t, acc, p);
  }

  /** The chain `LoopIsChain` speaks of, read off the loop turn by turn. */
  lemma {:induction false} ChainOfLoop(l: Level, t: seq<string>, acc: Expr, p: nat)
    returns (ops: seq<string>, args: seq<Expr>, pos: seq<nat>)
    requires LevelLoop(l, t, acc, p).Parsed?
    ensures Chain(l, t, ops, args, pos) && pos[0] == p && !IsLevelOp(l, Tok(t, pos[|ops|]))
    ensures LevelLoop(l, t, acc, p) == Parsed(LeftFold(acc, ops, args), pos[|ops|])
    decreases Rem(t, p)
  {
    var c := Tok(t, p);
    LoopStops(l, t, acc, p);
    if IsLevelOp(l, c) {
      var o := Operand(l, t, p + 1);
      OperandAdvances(l, t, p + 1);
      LoopTurn(l, t, acc, p, o.value, o.next);
      var ops', args', pos' := ChainOfLoop(l, t, BinOp(c, acc, o.value), o.next);
      ops, args, pos := [c] + ops', [o.value] + args', [p] + pos';
      ChainCons(l, t, c, o.value, p, ops', args', pos');
      LeftFoldCons(acc, c, o.value, ops', args');
      assert pos[|ops|] == pos'[|ops'|];
    } else {
      ops, args, pos := [], [], [p];
    }
  }

  /** `a1 + a2 - a3 ...`: an expression is the left fold of its terms. */
  lemma ExpressionIsLeftFold(t: seq<string>, p: nat, ops: seq<string>, args: seq<Expr>, pos: seq<nat>)
    requires ParseTerm(t, p).Parsed? && Chain(Sums, t, ops, args, pos) && pos[0] == ParseTerm(t, p).next
    requires !IsLevelOp(Sums, Tok(t, pos[|ops|]))
    ensures ParseExpression(t, p) == Parsed(LeftFold(ParseTerm(t, p).value, ops, args), pos[|ops|])
  {
    LoopFoldsChain(Sums, t, ParseTerm(t, p).value, ops, args, pos);
  }

  /** `a1 * a2 / a3 ...`: a term is the left fold of its factors. */
  lemma TermIsLeftFold(t: seq<string>, p: nat, ops: seq<string>, args: seq<Expr>, pos: seq<nat>)
    requires ParseFactor(t, p).Parsed? && Chain(Products, t, ops, args, pos) && pos[0] == ParseFactor(t, p).next
    requires !IsLevelOp(Products, Tok(t, pos[|ops|]))
    ensures ParseTerm(t, p) == Parsed(LeftFold(ParseFactor(t, p).value, ops, args), pos[|ops|])
  {
    LoopFoldsChain(Products, t, ParseFactor(t, p).value, ops, args, pos);
  }

  // ---------------------------------------------------------------------------------------------
  // Scenarios
  // ---------------------------------------------------------------------------------------------

  /** `a - b - c` nests to the left. */
  lemma SubtractionNestsLeft()
    ensures ParseExpression(["a", "-", "b", "-", "c"], 0) ==
      Parsed(BinOp("-", BinOp("-", Variable("a"), Variable("b")), Variable("c")), 5)
  {
    var t := ["a", "-", "b", "-", "c"];
    assert ParseFactor(t, 0) == Parsed(Variable("a"), 1);
    assert ParseTerm(t, 0) == Parsed(Variable("a"), 1);
    assert ParseFactor(t, 2) == Parsed(Variable("b"), 3);
    assert ParseTerm(t, 2) == Parsed(Variable("b"), 3);
    assert ParseFactor(t, 4) == Parsed(Variable("c"), 5);
    assert ParseTerm(t, 4) == Parsed(Variable("c"), 5);
  }

  /** `a + b * c` groups the product: "*" binds tighter than "+". */
  lemma ProductBindsTighter()
    ensures ParseExpression(["a", "+", "b", "*", "c"], 0) ==
      Parsed(BinOp("+", Variable("a"), BinOp("*", Variable("b"), Variable("c"))), 5)
  {
    var t := ["a", "+", "b", "*", "c"];
    assert ParseFactor(t, 0) == Parsed(Variable("a"), 1);
    assert ParseTerm(t, 0) == Parsed(Variable("a"), 1);
    assert ParseFactor(t, 2) == Parsed(Variable("b"), 3);
    assert ParseFactor(t, 4) == Parsed(Variable("c"), 5);
    assert TermLoop(t, Variable("b"), 3) == Parsed(BinOp("*", Variable("b"), Variable("c")), 5);
  }

  /** A leading minus is subtraction from zero, and it nests. */
  lemma LeadingMinusIsZeroMinus()
    ensures ParseFactor(["-", "-", "7"], 0) ==
      Parsed(BinOp("-", Number(0), BinOp("-", Number(0), Number(7))), 3)
  {
    var t := ["-", "-", "7"];
    assert ParseInt("7") == Some(7) by {
      assert DigitsValue("7") == 7 by {
        assert "7"[..0] == "";
      }
    }
    assert ParseFactor(t, 2) == Parsed(Number(7), 3);
  }

  /** Any token that is not a number is read as a name, even ";": `;` alone is a variable. */
  lemma PunctuationIsAName()
    ensures ParseFactor([";"], 0) == Parsed(Variable(";"), 1)
  {
    assert ParseInt(";") == None by {
      assert !IsDigitChar(';');
    }
  }

  /** A digit run beyond `int` range is read as a name, not a number. */
  lemma OverlongNumberIsAName(s: string)
    requires |s| > 0 && AllDigits(s) && DigitsValue(s) > JavaInt.MAX
    ensures ParseFactor([s], 0) == Parsed(Variable(s), 1)
  {
    ParseIntRejectsOverflow(s);
  }

  /** A call whose argument list is not closed before the end of the stream runs for ever. */
  lemma UnclosedCallDiverges()
    ensures ParseFactor(["f", "("], 0) == Diverges
  {
    assert ParseInt("f") == None;
  }

  /** A VAR list without its ";" runs for ever. */
  lemma UnclosedVarListDiverges()
    ensures ParseProgram(["VAR", "x"]) == Diverges
  {
    var t := ["VAR", "x"];
    assert ParseNames(t, 2, ";", ["x"]) == Diverges;
    assert ParseNames(t, 1, ";", []) == Diverges;
  }

  /** IF builds the one-branch `If`: its else branch is always absent. */
  lemma IfHasOnlyThenBranch()
    ensures ParseStatement(["IF", "x", "<", "y", "THEN", "WRITELN", "(", "x", ")", ";"], 0) ==
      Parsed(If(Condition("<", Variable("x"), Variable("y")), Writeln(Variable("x")), None), 10)
  {
    var t := ["IF", "x", "<", "y", "THEN", "WRITELN", "(", "x", ")", ";"];
    assert ParseInt("x") == None;
    assert ParseInt("y") == None;
    assert ParseExpression(t, 1) == Parsed(Variable("x"), 2) by {
      assert ParseFactor(t, 1) == Parsed(Variable("x"), 2);
      assert ParseTerm(t, 1) == Parsed(Variable("x"), 2);
    }
    assert ParseExpression(t, 3) == Parsed(Variable("y"), 4) by {
      assert ParseFactor(t, 3) == Parsed(Variable("y"), 4);
      assert ParseTerm(t, 3) == Parsed(Variable("y"), 4);
    }
    assert ParseCondition(t, 1) == Parsed(Condition("<", Variable("x"), Variable("y")), 4);
    assert ParseExpression(t, 7) == Parsed(Variable("x"), 8) by {
      assert ParseFactor(t, 7) == Parsed(Variable("x"), 8);
      assert ParseTerm(t, 7) == Parsed(Variable("x"), 8);
    }
    assert ParseStatement(t, 5) == Parsed(Writeln(Variable("x")), 10);
  }

}
