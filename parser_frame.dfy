/**
 * What the parser reads: a parse depends only on the tokens from its start up to the index it
 * stops at (for an expression or a loop, including the token at that index, which it inspects to
 * decide to stop; for a statement, excluding it), wherever those tokens stand in the stream. From
 * that follow the facts about separators and about the end of a program: a "," after a name or an
 * argument is optional there when the items cannot run into each other, and no token after a
 * program's main statement is read.
 *
 * Each proof below takes one step of one parse function and hides the bodies of the functions it
 * calls, whose results it knows from the recursive frame facts.
 */
module ParserFrame {
  import opened Options
  import opened Decimal
  import opened Ast
  import opened Parsing

  /**
   * The `k` tokens from index `p` of `t` are those from index `q` of `u`, and each lies inside
   * its list exactly when its counterpart does.
   */
  predicate Agree(t: seq<string>, p: nat, u: seq<string>, q: nat, k: nat)
    decreases k
  {
    k > 0 ==> Tok(t, p) == Tok(u, q) && (p < |t| <==> q < |u|) && Agree(t, p + 1, u, q + 1, k - 1)
  }

  lemma {:induction false} AgreeAt(t: seq<string>, p: nat, u: seq<string>, q: nat, k: nat, i: nat, j: nat)
    requires Agree(t, p, u, q, k) && p <= i < p + k && j - q == i - p
    ensures Tok(t, i) == Tok(u, j) && (i < |t| <==> j < |u|)
    decreases k
  {
    if p < i {
      AgreeAt(t, p + 1, u, q + 1, k - 1, i, j);
    }
  }

  lemma {:induction false} AgreeSub(t: seq<string>, p: nat, u: seq<string>, q: nat, k: nat, p2: nat, q2: nat, k2: nat)
    requires Agree(t, p, u, q, k) && p <= p2 && p2 + k2 <= p + k && q2 - q == p2 - p
    ensures Agree(t, p2, u, q2, k2)
    decreases k2
  {
    if k2 > 0 {
      AgreeAt(t, p, u, q, k, p2, q2);
      AgreeSub(t, p, u, q, k, p2 + 1, q2 + 1, k2 - 1);
    }
  }

  /** Equal slices, inside both lists, agree. */
  lemma {:induction false} AgreeSlices(t: seq<string>, p: nat, u: seq<string>, q: nat, k: nat)
    requires p + k <= |t| && q + k <= |u| && t[p..p + k] == u[q..q + k]
    ensures Agree(t, p, u, q, k)
    decreases k
  {
    if k > 0 {
      assert t[p] == t[p..p + k][0] == u[q..q + k][0] == u[q];
      assert t[p + 1..p + k] == t[p..p + k][1..] == u[q..q + k][1..] == u[q + 1..q + k];
      AgreeSlices(t, p + 1, u, q + 1, k - 1);
    }
  }

  /** A token other than "EOF" is one of the list. */
  lemma {:induction false} InList(t: seq<string>, p: nat)
    requires Tok(t, p) != "EOF"
    ensures p < |t| && Rem(t, p + 1) < Rem(t, p)
  {}

  // ---------------------------------------------------------------------------------------------
  // Expressions read their tokens and the one after them
  //
  // Each `...Frame` lemma splits the parse in `t` into its parts; its `...FrameStep` lemma moves
  // those parts to `u` and puts them together there. `v`, `n` are the tree and the index the
  // parse in `t` returns, and `r` is the index it returns in `u`.
  // ---------------------------------------------------------------------------------------------

  lemma {:induction false} FactorFrame(t: seq<string>, p: nat, u: seq<string>, q: nat, v: Expr, n: nat, r: nat)
    requires ParseFactor(t, p) == Parsed(v, n)
    requires r == n - p + q && Agree(t, p, u, q, n - p + 1)
    ensures ParseFactor(u, q) == Parsed(v, r)
    decreases Rem(t, p), 0, 1
  {
    hide Agree, ParseExpression, ParseArgs, ParseInt, Tok;
    AgreeAt(t, p, u, q, n - p + 1, p, q);
    var c := Tok(t, p);
    if c == "(" {
      var x := ParseExpression(t, p + 1);
      FactorParenFrameStep(t, p, u, q, x.value, x.next, n, r);
    } else if c == "-" {
      var x := ParseFactor(t, p + 1);
      FactorMinusFrameStep(t, p, u, q, x.value, n, r);
    } else if ParseInt(c).None? {
      AgreeAt(t, p, u, q, n - p + 1, p + 1, q + 1);
      if Tok(t, p + 1) == "(" {
        FactorCallFrameStep(t, p, u, q, c, ParseArgs(t, p + 2, []).value, n, r);
      }
    }
  }

  lemma {:induction false} FactorParenFrameStep(t: seq<string>, p: nat, u: seq<string>, q: nat, e: Expr, m: nat, n: nat, r: nat)
    requires Tok(t, p) == "(" && ParseExpression(t, p + 1) == Parsed(e, m) && Tok(t, m) == ")" && n == m + 1
    requires r == n - p + q && Agree(t, p, u, q, n - p + 1)
    ensures ParseFactor(u, q) == Parsed(e, r)
    decreases Rem(t, p), 0, 0
  {
    hide Agree, ParseExpression, Tok;
    InList(t, p);
    AgreeAt(t, p, u, q, n - p + 1, p, q);
    var m2 := m - p + q;
    AgreeSub(t, p, u, q, n - p + 1, p + 1, q + 1, m - (p + 1) + 1);
    ExpressionFrame(t, p + 1, u, q + 1, e, m, m2);
    AgreeAt(t, p, u, q, n - p + 1, m, m2);
  }

  lemma {:induction false} FactorMinusFrameStep(t: seq<string>, p: nat, u: seq<string>, q: nat, f: Expr, n: nat, r: nat)
    requires Tok(t, p) == "-" && ParseFactor(t, p + 1) == Parsed(f, n)
    requires r == n - p + q && Agree(t, p, u, q, n - p + 1)
    ensures ParseFactor(u, q) == Parsed(BinOp("-", Number(0), f), r)
    decreases Rem(t, p), 0, 0
  {
    hide Agree, Tok;
    InList(t, p);
    AgreeAt(t, p, u, q, n - p + 1, p, q);
    AgreeSub(t, p, u, q, n - p + 1, p + 1, q + 1, n - (p + 1) + 1);
    FactorFrame(t, p + 1, u, q + 1, f, n, r);
  }

  lemma {:induction false} FactorCallFrameStep(t: seq<string>, p: nat, u: seq<string>, q: nat, c: string, args: seq<Expr>, n: nat, r: nat)
    requires Tok(t, p) == c && c != "(" && c != "-" && ParseInt(c).None?
    requires Tok(t, p + 1) == "(" && ParseArgs(t, p + 2, []) == Parsed(args, n)
    requires r == n - p + q && Agree(t, p, u, q, n - p + 1)
    ensures ParseFactor(u, q) == Parsed(ProcedureCall(c, args), r)
    decreases Rem(t, p), 0, 0
  {
    hide Agree, ParseArgs, ParseInt, Tok;
    InList(t, p + 1);
    AgreeAt(t, p, u, q, n - p + 1, p, q);
    AgreeAt(t, p, u, q, n - p + 1, p + 1, q + 1);
    AgreeSub(t, p, u, q, n - p + 1, p + 2, q + 2, n - (p + 2) + 1);
    ArgsFrame(t, p + 2, [], u, q + 2, args, n, r);
  }

  lemma {:induction false} ArgsFrame(t: seq<string>, p: nat, acc: seq<Expr>, u: seq<string>, q: nat, v: seq<Expr>, n: nat, r: nat)
    requires ParseArgs(t, p, acc) == Parsed(v, n)
    requires r == n - p + q && Agree(t, p, u, q, n - p + 1)
    ensures ParseArgs(u, q, acc) == Parsed(v, r)
    decreases Rem(t, p), 5, 1
  {
    hide Agree, ParseExpression, Tok;
    AgreeAt(t, p, u, q, n - p + 1, p, q);
    if Tok(t, p) != ")" {
      var x := ParseExpression(t, p);
      var s := if Tok(t, x.next) == "," then x.next + 1 else x.next;
      ArgsFrameStep(t, p, acc, u, q, x.value, x.next, s, v, n, r);
    }
  }

  lemma {:induction false} ArgsFrameStep(t: seq<string>, p: nat, acc: seq<Expr>, u: seq<string>, q: nat,
                      e: Expr, m: nat, s: nat, v: seq<Expr>, n: nat, r: nat)
    requires Tok(t, p) != ")" && p < |t| && ParseExpression(t, p) == Parsed(e, m)
    requires s == (if Tok(t, m) == "," then m + 1 else m) && ParseArgs(t, s, acc + [e]) == Parsed(v, n)
    requires r == n - p + q && Agree(t, p, u, q, n - p + 1)
    ensures ParseArgs(u, q, acc) == Parsed(v, r)
    decreases Rem(t, p), 5, 0
  {
    hide Agree, ParseExpression, Tok;
    AgreeAt(t, p, u, q, n - p + 1, p, q);
    var m2 := m - p + q;
    AgreeSub(t, p, u, q, n - p + 1, p, q, m - p + 1);
    ExpressionFrame(t, p, u, q, e, m, m2);
    AgreeAt(t, p, u, q, n - p + 1, m, m2);
    var s2 := s - p + q;
    AgreeSub(t, p, u, q, n - p + 1, s, s2, n - s + 1);
    ArgsFrame(t, s, acc + [e], u, s2, v, n, r);
  }

  lemma {:induction false} TermFrame(t: seq<string>, p: nat, u: seq<string>, q: nat, v: Expr, n: nat, r: nat)
    requires ParseTerm(t, p) == Parsed(v, n)
    requires r == n - p + q && Agree(t, p, u, q, n - p + 1)
    ensures ParseTerm(u, q) == Parsed(v, r)
    decreases Rem(t, p), 2, 1
  {
    hide Agree, ParseFactor, TermLoop, Tok;
    var x := ParseFactor(t, p);
    TermFrameStep(t, p, u, q, x.value, x.next, v, n, r);
  }

  lemma {:induction false} TermFrameStep(t: seq<string>, p: nat, u: seq<string>, q: nat, f: Expr, m: nat, v: Expr, n: nat, r: nat)
    requires ParseFactor(t, p) == Parsed(f, m) && TermLoop(t, f, m) == Parsed(v, n)
    requires r == n - p + q && Agree(t, p, u, q, n - p + 1)
    ensures ParseTerm(u, q) == Parsed(v, r)
    decreases Rem(t, p), 2, 0
  {
    hide Agree, ParseFactor, TermLoop, Tok;
    var m2 := m - p + q;
    AgreeSub(t, p, u, q, n - p + 1, p, q, m - p + 1);
    FactorFrame(t, p, u, q, f, m, m2);
    AgreeSub(t, p, u, q, n - p + 1, m, m2, n - m + 1);
    TermLoopFrame(t, f, m, u, m2, v, n, r);
  }

  lemma {:induction false} TermLoopFrame(t: seq<string>, acc: Expr, p: nat, u: seq<string>, q: nat, v: Expr, n: nat, r: nat)
    requires TermLoop(t, acc, p) == Parsed(v, n)
    requires r == n - p + q && Agree(t, p, u, q, n - p + 1)
    ensures TermLoop(u, acc, q) == Parsed(v, r)
    decreases Rem(t, p), 1, 1
  {
    hide Agree, ParseFactor, Tok;
    AgreeAt(t, p, u, q, n - p + 1, p, q);
    if Tok(t, p) == "/" || Tok(t, p) == "*" {
      var x := ParseFactor(t, p + 1);
      TermLoopFrameStep(t, acc, p, u, q, x.value, x.next, v, n, r);
    }
  }

  lemma {:induction false} TermLoopFrameStep(t: seq<string>, acc: Expr, p: nat, u: seq<string>, q: nat,
                          f: Expr, m: nat, v: Expr, n: nat, r: nat)
    requires (Tok(t, p) == "/" || Tok(t, p) == "*") && ParseFactor(t, p + 1) == Parsed(f, m)
    requires TermLoop(t, BinOp(Tok(t, p), acc, f), m) == Parsed(v, n)
    requires r == n - p + q && Agree(t, p, u, q, n - p + 1)
    ensures TermLoop(u, acc, q) == Parsed(v, r)
    decreases Rem(t, p), 1, 0
  {
    hide Agree, ParseFactor, Tok;
    InList(t, p);
    AgreeAt(t, p, u, q, n - p + 1, p, q);
    var m2 := m - p + q;
    AgreeSub(t, p, u, q, n - p + 1, p + 1, q + 1, m - (p + 1) + 1);
    FactorFrame(t, p + 1, u, q + 1, f, m, m2);
    AgreeSub(t, p, u, q, n - p + 1, m, m2, n - m + 1);
    TermLoopFrame(t, BinOp(Tok(t, p), acc, f), m, u, m2, v, n, r);
  }

  lemma {:induction false} ExpressionFrame(t: seq<string>, p: nat, u: seq<string>, q: nat, v: Expr, n: nat, r: nat)
    requires ParseExpression(t, p) == Parsed(v, n)
    requires r == n - p + q && Agree(t, p, u, q, n - p + 1)
    ensures ParseExpression(u, q) == Parsed(v, r)
    decreases Rem(t, p), 4, 1
  {
    hide Agree, ParseTerm, ExprLoop, Tok;
    var x := ParseTerm(t, p);
    ExpressionFrameStep(t, p, u, q, x.value, x.next, v, n, r);
  }

  lemma {:induction false} ExpressionFrameStep(t: seq<string>, p: nat, u: seq<string>, q: nat, f: Expr, m: nat, v: Expr, n: nat, r: nat)
    requires ParseTerm(t, p) == Parsed(f, m) && ExprLoop(t, f, m) == Parsed(v, n)
    requires r == n - p + q && Agree(t, p, u, q, n - p + 1)
    ensures ParseExpression(u, q) == Parsed(v, r)
    decreases Rem(t, p), 4, 0
  {
    hide Agree, ParseTerm, ExprLoop, Tok;
    var m2 := m - p + q;
    AgreeSub(t, p, u, q, n - p + 1, p, q, m - p + 1);
    TermFrame(t, p, u, q, f, m, m2);
    AgreeSub(t, p, u, q, n - p + 1, m, m2, n - m + 1);
    ExprLoopFrame(t, f, m, u, m2, v, n, r);
  }

  lemma {:induction false} ExprLoopFrame(t: seq<string>, acc: Expr, p: nat, u: seq<string>, q: nat, v: Expr, n: nat, r: nat)
    requires ExprLoop(t, acc, p) == Parsed(v, n)
    requires r == n - p + q && Agree(t, p, u, q, n - p + 1)
    ensures ExprLoop(u, acc, q) == Parsed(v, r)
    decreases Rem(t, p), 3, 1
  {
    hide Agree, ParseTerm, Tok;
    AgreeAt(t, p, u, q, n - p + 1, p, q);
    if Tok(t, p) == "+" || Tok(t, p) == "-" {
      var x := ParseTerm(t, p + 1);
      ExprLoopFrameStep(t, acc, p, u, q, x.value, x.next, v, n, r);
    }
  }

  lemma {:induction false} ExprLoopFrameStep(t: seq<string>, acc: Expr, p: nat, u: seq<string>, q: nat,
                          f: Expr, m: nat, v: Expr, n: nat, r: nat)
    requires (Tok(t, p) == "+" || Tok(t, p) == "-") && ParseTerm(t, p + 1) == Parsed(f, m)
    requires ExprLoop(t, BinOp(Tok(t, p), acc, f), m) == Parsed(v, n)
    requires r == n - p + q && Agree(t, p, u, q, n - p + 1)
    ensures ExprLoop(u, acc, q) == Parsed(v, r)
    decreases Rem(t, p), 3, 0
  {
    hide Agree, ParseTerm, Tok;
    InList(t, p);
    AgreeAt(t, p, u, q, n - p + 1, p, q);
    var m2 := m - p + q;
    AgreeSub(t, p, u, q, n - p + 1, p + 1, q + 1, m - (p + 1) + 1);
    TermFrame(t, p + 1, u, q + 1, f, m, m2);
    AgreeSub(t, p, u, q, n - p + 1, m, m2, n - m + 1);
    ExprLoopFrame(t, BinOp(Tok(t, p), acc, f), m, u, m2, v, n, r);
  }

  lemma {:induction false} ConditionFrame(t: seq<string>, p: nat, u: seq<string>, q: nat, v: Condition, n: nat, r: nat)
    requires ParseCondition(t, p) == Parsed(v, n)
    requires r == n - p + q && Agree(t, p, u, q, n - p + 1)
    ensures ParseCondition(u, q) == Parsed(v, r)
  {
    hide Agree, ParseExpression, ParseCompOp, IsCompOp, Tok;
    var x := ParseExpression(t, p);
    ConditionFrameStep(t, p, u, q, x.value, x.next, ParseExpression(t, x.next + 1).value, n, r);
  }

  lemma {:induction false} ConditionFrameStep(t: seq<string>, p: nat, u: seq<string>, q: nat, l: Expr, m: nat, e: Expr, n: nat, r: nat)
    requires ParseExpression(t, p) == Parsed(l, m) && IsCompOp(Tok(t, m))
    requires ParseExpression(t, m + 1) == Parsed(e, n)
    requires r == n - p + q && Agree(t, p, u, q, n - p + 1)
    ensures ParseCondition(u, q) == Parsed(Condition(Tok(t, m), l, e), r)
  {
    hide Agree, ParseExpression, ParseCompOp, IsCompOp, Tok;
    var m2 := m - p + q;
    AgreeSub(t, p, u, q, n - p + 1, p, q, m - p + 1);
    ExpressionFrame(t, p, u, q, l, m, m2);
    AgreeAt(t, p, u, q, n - p + 1, m, m2);
    AgreeSub(t, p, u, q, n - p + 1, m + 1, m2 + 1, n - (m + 1) + 1);
    ExpressionFrame(t, m + 1, u, m2 + 1, e, n, r);
  }

  // ---------------------------------------------------------------------------------------------
  // Statements read only their own tokens
  // ---------------------------------------------------------------------------------------------

  lemma {:induction false} StatementFrame(t: seq<string>, p: nat, u: seq<string>, q: nat, v: Stmt, n: nat, r: nat)
    requires ParseStatement(t, p) == Parsed(v, n)
    requires r == n - p + q && Agree(t, p, u, q, n - p)
    ensures ParseStatement(u, q) == Parsed(v, r)
    decreases Rem(t, p), 7, 1
  {
    hide Agree, ParseWriteln, ParseBeginEnd, ParseIfThen, ParseWhileDo, ParseAssignment, Tok;
    AgreeAt(t, p, u, q, n - p, p, q);
    var c := Tok(t, p);
    if c == "WRITELN" {
      WritelnFrame(t, p, u, q, v, n, r);
    } else if c == "BEGIN" {
      BeginEndFrame(t, p, u, q, v, n, r);
    } else if c == "IF" {
      IfThenFrame(t, p, u, q, v, n, r);
    } else if c == "WHILE" {
      WhileDoFrame(t, p, u, q, v, n, r);
    } else {
      AssignmentFrame(t, p, u, q, v, n, r);
    }
  }

  lemma {:induction false} WritelnFrame(t: seq<string>, p: nat, u: seq<string>, q: nat, v: Stmt, n: nat, r: nat)
    requires Tok(t, p) == "WRITELN" && Tok(u, q) == "WRITELN"
    requires ParseWriteln(t, p) == Parsed(v, n)
    requires r == n - p + q && Agree(t, p, u, q, n - p)
    ensures ParseWriteln(u, q) == Parsed(v, r)
  {
    hide Agree, ParseExpression, Tok;
    var x := ParseExpression(t, p + 2);
    WritelnFrameStep(t, p, u, q, x.value, x.next, n, r);
  }

  lemma {:induction false} WritelnFrameStep(t: seq<string>, p: nat, u: seq<string>, q: nat, e: Expr, m: nat, n: nat, r: nat)
    requires Tok(u, q) == "WRITELN" && Tok(t, p + 1) == "(" && ParseExpression(t, p + 2) == Parsed(e, m)
    requires Tok(t, m) == ")" && Tok(t, m + 1) == ";" && n == m + 2
    requires r == n - p + q && Agree(t, p, u, q, n - p)
    ensures ParseWriteln(u, q) == Parsed(Writeln(e), r)
  {
    hide Agree, ParseExpression, Tok;
    AgreeAt(t, p, u, q, n - p, p + 1, q + 1);
    var m2 := m - p + q;
    AgreeSub(t, p, u, q, n - p, p + 2, q + 2, m - (p + 2) + 1);
    ExpressionFrame(t, p + 2, u, q + 2, e, m, m2);
    AgreeAt(t, p, u, q, n - p, m, m2);
    AgreeAt(t, p, u, q, n - p, m + 1, m2 + 1);
  }

  lemma {:induction false} BeginEndFrame(t: seq<string>, p: nat, u: seq<string>, q: nat, v: Stmt, n: nat, r: nat)
    requires Tok(t, p) == "BEGIN" && Tok(u, q) == "BEGIN"
    requires ParseBeginEnd(t, p) == Parsed(v, n)
    requires r == n - p + q && Agree(t, p, u, q, n - p)
    ensures ParseBeginEnd(u, q) == Parsed(v, r)
    decreases Rem(t, p), 6, 1
  {
    hide Agree, BlockLoop, Tok;
    var x := BlockLoop(t, p + 1, []);
    BeginEndFrameStep(t, p, u, q, x.value, x.next, n, r);
  }

  lemma {:induction false} BeginEndFrameStep(t: seq<string>, p: nat, u: seq<string>, q: nat, ss: seq<Stmt>, m: nat, n: nat, r: nat)
    requires Tok(t, p) == "BEGIN" && Tok(u, q) == "BEGIN"
    requires BlockLoop(t, p + 1, []) == Parsed(ss, m) && Tok(t, m + 1) == ";" && n == m + 2
    requires r == n - p + q && Agree(t, p, u, q, n - p)
    ensures ParseBeginEnd(u, q) == Parsed(Block(ss), r)
    decreases Rem(t, p), 6, 0
  {
    hide Agree, BlockLoop, Tok;
    InList(t, p);
    var m2 := m - p + q;
    AgreeSub(t, p, u, q, n - p, p + 1, q + 1, m - (p + 1) + 1);
    BlockLoopFrame(t, p + 1, [], u, q + 1, ss, m, m2);
    AgreeAt(t, p, u, q, n - p, m + 1, m2 + 1);
  }

  lemma {:induction false} IfThenFrame(t: seq<string>, p: nat, u: seq<string>, q: nat, v: Stmt, n: nat, r: nat)
    requires Tok(t, p) == "IF" && Tok(u, q) == "IF"
    requires ParseIfThen(t, p) == Parsed(v, n)
    requires r == n - p + q && Agree(t, p, u, q, n - p)
    ensures ParseIfThen(u, q) == Parsed(v, r)
    decreases Rem(t, p), 6, 1
  {
    hide Agree, ParseCondition, ParseStatement, Tok;
    var x := ParseCondition(t, p + 1);
    IfThenFrameStep(t, p, u, q, x.value, x.next, ParseStatement(t, x.next + 1).value, n, r);
  }

  lemma {:induction false} IfThenFrameStep(t: seq<string>, p: nat, u: seq<string>, q: nat, cond: Condition, m: nat, s: Stmt, n: nat, r: nat)
    requires Tok(t, p) == "IF" && Tok(u, q) == "IF"
    requires ParseCondition(t, p + 1) == Parsed(cond, m) && Tok(t, m) == "THEN"
    requires ParseStatement(t, m + 1) == Parsed(s, n)
    requires r == n - p + q && Agree(t, p, u, q, n - p)
    ensures ParseIfThen(u, q) == Parsed(If(cond, s, None), r)
    decreases Rem(t, p), 6, 0
  {
    hide Agree, ParseCondition, ParseStatement, Tok;
    InList(t, p);
    var m2 := m - p + q;
    AgreeSub(t, p, u, q, n - p, p + 1, q + 1, m - (p + 1) + 1);
    ConditionFrame(t, p + 1, u, q + 1, cond, m, m2);
    AgreeAt(t, p, u, q, n - p, m, m2);
    AgreeSub(t, p, u, q, n - p, m + 1, m2 + 1, n - (m + 1));
    StatementFrame(t, m + 1, u, m2 + 1, s, n, r);
  }

  lemma {:induction false} WhileDoFrame(t: seq<string>, p: nat, u: seq<string>, q: nat, v: Stmt, n: nat, r: nat)
    requires Tok(t, p) == "WHILE" && Tok(u, q) == "WHILE"
    requires ParseWhileDo(t, p) == Parsed(v, n)
    requires r == n - p + q && Agree(t, p, u, q, n - p)
    ensures ParseWhileDo(u, q) == Parsed(v, r)
    decreases Rem(t, p), 6, 1
  {
    hide Agree, ParseCondition, ParseStatement, Tok;
    var x := ParseCondition(t, p + 1);
    WhileDoFrameStep(t, p, u, q, x.value, x.next, ParseStatement(t, x.next + 1).value, n, r);
  }

  lemma {:induction false} WhileDoFrameStep(t: seq<string>, p: nat, u: seq<string>, q: nat, cond: Condition, m: nat, s: Stmt, n: nat, r: nat)
    requires Tok(t, p) == "WHILE" && Tok(u, q) == "WHILE"
    requires ParseCondition(t, p + 1) == Parsed(cond, m) && Tok(t, m) == "DO"
    requires ParseStatement(t, m + 1) == Parsed(s, n)
    requires r == n - p + q && Agree(t, p, u, q, n - p)
    ensures ParseWhileDo(u, q) == Parsed(While(cond, s), r)
    decreases Rem(t, p), 6, 0
  {
    hide Agree, ParseCondition, ParseStatement, Tok;
    InList(t, p);
    var m2 := m - p + q;
    AgreeSub(t, p, u, q, n - p, p + 1, q + 1, m - (p + 1) + 1);
    ConditionFrame(t, p + 1, u, q + 1, cond, m, m2);
    AgreeAt(t, p, u, q, n - p, m, m2);
    AgreeSub(t, p, u, q, n - p, m + 1, m2 + 1, n - (m + 1));
    StatementFrame(t, m + 1, u, m2 + 1, s, n, r);
  }

  lemma {:induction false} AssignmentFrame(t: seq<string>, p: nat, u: seq<string>, q: nat, v: Stmt, n: nat, r: nat)
    requires ParseAssignment(t, p) == Parsed(v, n)
    requires r == n - p + q && Agree(t, p, u, q, n - p)
    ensures ParseAssignment(u, q) == Parsed(v, r)
  {
    hide Agree, ParseExpression, Tok;
    var x := ParseExpression(t, p + 2);
    AssignmentFrameStep(t, p, u, q, x.value, x.next, n, r);
  }

  lemma {:induction false} AssignmentFrameStep(t: seq<string>, p: nat, u: seq<string>, q: nat, e: Expr, m: nat, n: nat, r: nat)
    requires Tok(t, p + 1) == ":=" && ParseExpression(t, p + 2) == Parsed(e, m) && Tok(t, m) == ";" && n == m + 1
    requires r == n - p + q && Agree(t, p, u, q, n - p)
    ensures ParseAssignment(u, q) == Parsed(Assignment(Tok(t, p), e), r)
  {
    hide Agree, ParseExpression, Tok;
    AgreeAt(t, p, u, q, n - p, p, q);
    AgreeAt(t, p, u, q, n - p, p + 1, q + 1);
    var m2 := m - p + q;
    AgreeSub(t, p, u, q, n - p, p + 2, q + 2, m - (p + 2) + 1);
    ExpressionFrame(t, p + 2, u, q + 2, e, m, m2);
    AgreeAt(t, p, u, q, n - p, m, m2);
  }

  /** A block's loop also reads the "END" it stops on. */
  lemma {:induction false} BlockLoopFrame(t: seq<string>, p: nat, acc: seq<Stmt>, u: seq<string>, q: nat, v: seq<Stmt>, n: nat, r: nat)
    requires BlockLoop(t, p, acc) == Parsed(v, n)
    requires r == n - p + q && Agree(t, p, u, q, n - p + 1)
    ensures BlockLoop(u, q, acc) == Parsed(v, r)
    decreases Rem(t, p), 8, 1
  {
    hide Agree, ParseStatement, Tok;
    AgreeAt(t, p, u, q, n - p + 1, p, q);
    if Tok(t, p) != "END" {
      var x := ParseStatement(t, p);
      BlockLoopFrameStep(t, p, acc, u, q, x.value, x.next, v, n, r);
    }
  }

  lemma {:induction false} BlockLoopFrameStep(t: seq<string>, p: nat, acc: seq<Stmt>, u: seq<string>, q: nat,
                           s: Stmt, m: nat, v: seq<Stmt>, n: nat, r: nat)
    requires Tok(t, p) != "END" && ParseStatement(t, p) == Parsed(s, m)
    requires BlockLoop(t, m, acc + [s]) == Parsed(v, n)
    requires r == n - p + q && Agree(t, p, u, q, n - p + 1)
    ensures BlockLoop(u, q, acc) == Parsed(v, r)
    decreases Rem(t, p), 8, 0
  {
    hide Agree, ParseStatement, Tok;
    AgreeAt(t, p, u, q, n - p + 1, p, q);
    var m2 := m - p + q;
    AgreeSub(t, p, u, q, n - p + 1, p, q, m - p);
    StatementFrame(t, p, u, q, s, m, m2);
    AgreeSub(t, p, u, q, n - p + 1, m, m2, n - m + 1);
    BlockLoopFrame(t, m, acc + [s], u, m2, v, n, r);
  }

  // ---------------------------------------------------------------------------------------------
  // Programs
  // ---------------------------------------------------------------------------------------------

  /** A name list also reads the closing token it stops on. */
  lemma {:induction false} NamesFrame(t: seq<string>, p: nat, close: string, acc: seq<string>, u: seq<string>, q: nat,
                   v: seq<string>, n: nat, r: nat)
    requires ParseNames(t, p, close, acc) == Parsed(v, n)
    requires r == n - p + q && Agree(t, p, u, q, n - p + 1)
    ensures ParseNames(u, q, close, acc) == Parsed(v, r)
    decreases Rem(t, p)
  {
    hide Agree, Tok;
    AgreeAt(t, p, u, q, n - p + 1, p, q);
    if Tok(t, p) != close {
      AgreeAt(t, p, u, q, n - p + 1, p + 1, q + 1);
      if Tok(t, p + 1) == "," {
        AgreeSub(t, p, u, q, n - p + 1, p + 2, q + 2, n - (p + 2) + 1);
        NamesFrame(t, p + 2, close, acc + [Tok(t, p)], u, q + 2, v, n, r);
      } else {
        AgreeSub(t, p, u, q, n - p + 1, p + 1, q + 1, n - (p + 1) + 1);
        NamesFrame(t, p + 1, close, acc + [Tok(t, p)], u, q + 1, v, n, r);
      }
    }
  }

  /** The VAR loop also reads the token after its last section. */
  lemma {:induction false} VarSectionsFrame(t: seq<string>, p: nat, acc: seq<string>, u: seq<string>, q: nat,
                         v: seq<string>, n: nat, r: nat)
    requires VarSections(t, p, acc) == Parsed(v, n)
    requires r == n - p + q && Agree(t, p, u, q, n - p + 1)
    ensures VarSections(u, q, acc) == Parsed(v, r)
    decreases Rem(t, p), 1
  {
    hide Agree, ParseNames, Tok;
    AgreeAt(t, p, u, q, n - p + 1, p, q);
    if Tok(t, p) == "VAR" {
      var x := ParseNames(t, p + 1, ";", acc);
      VarSectionsFrameStep(t, p, acc, u, q, x.value, x.next, v, n, r);
    }
  }

  lemma {:induction false} VarSectionsFrameStep(t: seq<string>, p: nat, acc: seq<string>, u: seq<string>, q: nat,
                             vs: seq<string>, m: nat, v: seq<string>, n: nat, r: nat)
    requires Tok(t, p) == "VAR" && ParseNames(t, p + 1, ";", acc) == Parsed(vs, m)
    requires VarSections(t, m + 1, vs) == Parsed(v, n)
    requires r == n - p + q && Agree(t, p, u, q, n - p + 1)
    ensures VarSections(u, q, acc) == Parsed(v, r)
    decreases Rem(t, p), 0
  {
    hide Agree, ParseNames, Tok;
    InList(t, p);
    AgreeAt(t, p, u, q, n - p + 1, p, q);
    var m2 := m - p + q;
    AgreeSub(t, p, u, q, n - p + 1, p + 1, q + 1, m - (p + 1) + 1);
    NamesFrame(t, p + 1, ";", acc, u, q + 1, vs, m, m2);
    AgreeSub(t, p, u, q, n - p + 1, m + 1, m2 + 1, n - (m + 1) + 1);
    VarSectionsFrame(t, m + 1, vs, u, m2 + 1, v, n, r);
  }

  lemma {:induction false} ProcHeadFrame(t: seq<string>, p: nat, u: seq<string>, q: nat, v: (string, seq<string>), n: nat, r: nat)
    requires Tok(t, p) == "PROCEDURE" && Tok(u, q) == "PROCEDURE"
    requires ParseProcHead(t, p) == Parsed(v, n)
    requires r == n - p + q && Agree(t, p, u, q, n - p)
    ensures ParseProcHead(u, q) == Parsed(v, r)
  {
    hide Agree, ParseNames, Tok;
    var x := ParseNames(t, p + 3, ")", []);
    ProcHeadFrameStep(t, p, u, q, x.value, x.next, n, r);
  }

  lemma {:induction false} ProcHeadFrameStep(t: seq<string>, p: nat, u: seq<string>, q: nat, ps: seq<string>, m: nat, n: nat, r: nat)
    requires Tok(u, q) == "PROCEDURE" && Tok(t, p + 2) == "("
    requires ParseNames(t, p + 3, ")", []) == Parsed(ps, m) && Tok(t, m + 1) == ";" && n == m + 2
    requires r == n - p + q && Agree(t, p, u, q, n - p)
    ensures ParseProcHead(u, q) == Parsed((Tok(t, p + 1), ps), r)
  {
    hide Agree, ParseNames, Tok;
    AgreeAt(t, p, u, q, n - p, p + 1, q + 1);
    AgreeAt(t, p, u, q, n - p, p + 2, q + 2);
    var m2 := m - p + q;
    AgreeSub(t, p, u, q, n - p, p + 3, q + 3, m - (p + 3) + 1);
    NamesFrame(t, p + 3, ")", [], u, q + 3, ps, m, m2);
    AgreeAt(t, p, u, q, n - p, m + 1, m2 + 1);
  }

  lemma {:induction false} ProcDeclFrame(t: seq<string>, p: nat, u: seq<string>, q: nat, v: ProcDecl, n: nat, r: nat)
    requires Tok(t, p) == "PROCEDURE" && Tok(u, q) == "PROCEDURE"
    requires ParseProcDecl(t, p) == Parsed(v, n)
    requires r == n - p + q && Agree(t, p, u, q, n - p)
    ensures ParseProcDecl(u, q) == Parsed(v, r)
  {
    hide Agree, ParseProcHead, ParseStatement, Tok;
    var x := ParseProcHead(t, p);
    ProcDeclFrameStep(t, p, u, q, x.value, x.next, v.body, n, r);
  }

  lemma {:induction false} ProcDeclFrameStep(t: seq<string>, p: nat, u: seq<string>, q: nat,
                          h: (string, seq<string>), m: nat, s: Stmt, n: nat, r: nat)
    requires Tok(t, p) == "PROCEDURE" && Tok(u, q) == "PROCEDURE"
    requires ParseProcHead(t, p) == Parsed(h, m) && ParseStatement(t, m) == Parsed(s, n)
    requires r == n - p + q && Agree(t, p, u, q, n - p)
    ensures ParseProcDecl(u, q) == Parsed(ProcDecl(h.0, s, h.1), r)
  {
    hide Agree, ParseProcHead, ParseStatement, Tok;
    var m2 := m - p + q;
    AgreeSub(t, p, u, q, n - p, p, q, m - p);
    ProcHeadFrame(t, p, u, q, h, m, m2);
    AgreeSub(t, p, u, q, n - p, m, m2, n - m);
    StatementFrame(t, m, u, m2, s, n, r);
  }

  /** The PROCEDURE loop also reads the token after its last declaration. */
  lemma {:induction false} ProcDeclsFrame(t: seq<string>, p: nat, acc: seq<ProcDecl>, u: seq<string>, q: nat,
                       v: seq<ProcDecl>, n: nat, r: nat)
    requires ProcDecls(t, p, acc) == Parsed(v, n)
    requires r == n - p + q && Agree(t, p, u, q, n - p + 1)
    ensures ProcDecls(u, q, acc) == Parsed(v, r)
    decreases Rem(t, p), 1
  {
    hide Agree, ParseProcDecl, Tok;
    AgreeAt(t, p, u, q, n - p + 1, p, q);
    if Tok(t, p) == "PROCEDURE" {
      var x := ParseProcDecl(t, p);
      ProcDeclsFrameStep(t, p, acc, u, q, x.value, x.next, v, n, r);
    }
  }

  lemma {:induction false} ProcDeclsTurn(t: seq<string>, p: nat, acc: seq<ProcDecl>, d: ProcDecl, m: nat)
    requires Tok(t, p) == "PROCEDURE" && ParseProcDecl(t, p) == Parsed(d, m)
    ensures ProcDecls(t, p, acc) == ProcDecls(t, m, acc + [d])
  {}

  lemma {:induction false} ProcDeclsFrameStep(t: seq<string>, p: nat, acc: seq<ProcDecl>, u: seq<string>, q: nat,
                           d: ProcDecl, m: nat, v: seq<ProcDecl>, n: nat, r: nat)
    requires Tok(t, p) == "PROCEDURE" && ParseProcDecl(t, p) == Parsed(d, m)
    requires ProcDecls(t, m, acc + [d]) == Parsed(v, n)
    requires r == n - p + q && Agree(t, p, u, q, n - p + 1)
    ensures ProcDecls(u, q, acc) == Parsed(v, r)
    decreases Rem(t, p), 0
  {
    hide Agree, ParseProcDecl, Tok, ProcDecls;
    ProcDeclsTurn(t, p, acc, d, m);
    InList(t, p);
    AgreeAt(t, p, u, q, n - p + 1, p, q);
    var m2 := m - p + q;
    AgreeSub(t, p, u, q, n - p + 1, p, q, m - p);
    ProcDeclFrame(t, p, u, q, d, m, m2);
    AgreeSub(t, p, u, q, n - p + 1, m, m2, n - m + 1);
    ProcDeclsFrame(t, m, acc + [d], u, m2, v, n, r);
    ProcDeclsTurn(u, q, acc, d, m2);
  }

  /** A parsed program depends only on the tokens before the index it ends at. */
  lemma {:induction false} ProgramFrame(t: seq<string>, u: seq<string>, prog: Program, n: nat)
    requires ParseProgram(t) == Parsed(prog, n)
    requires Agree(t, 0, u, 0, n)
    ensures ParseProgram(u) == Parsed(prog, n)
  {
    hide Agree, VarSections, ProcDecls, ParseStatement, Tok;
    var a := VarSections(t, 0, []).next;
    ProgramFrameStep(t, u, prog.vars, a, prog.procs, ProcDecls(t, a, []).next, prog.main, n);
  }

  lemma {:induction false} ProgramFrameStep(t: seq<string>, u: seq<string>, vars: seq<string>, a: nat, procs: seq<ProcDecl>, b: nat,
                         main: Stmt, n: nat)
    requires VarSections(t, 0, []) == Parsed(vars, a) && ProcDecls(t, a, []) == Parsed(procs, b)
    requires ParseStatement(t, b) == Parsed(main, n)
    requires Agree(t, 0, u, 0, n)
    ensures ParseProgram(u) == Parsed(Program(vars, procs, main), n)
  {
    hide Agree, VarSections, ProcDecls, ParseStatement, Tok;
    AgreeSub(t, 0, u, 0, n, 0, 0, a + 1);
    VarSectionsFrame(t, 0, [], u, 0, vars, a, a);
    AgreeSub(t, 0, u, 0, n, a, a, b - a + 1);
    ProcDeclsFrame(t, a, [], u, a, procs, b, b);
    AgreeSub(t, 0, u, 0, n, b, b, n - b);
    StatementFrame(t, b, u, b, main, n, n);
  }

  /**
   * `parseProgram` reads no token after its main statement: whatever follows it, the program is
   * the same and ends at the same index.
   */
  lemma TrailingTokensUnread(t: seq<string>, prog: Program, n: nat, w: seq<string>)
    requires ParseProgram(t) == Parsed(prog, n)
    ensures ParseProgram(t[..n] + w) == Parsed(prog, n)
  {
    var u := t[..n] + w;
    assert t[0..n] == u[0..n];
    AgreeSlices(t, 0, u, 0, n);
    ProgramFrame(t, u, prog, n);
  }

  /** "x := 1 ; y @" is the assignment alone: "y" and "@" are never looked at. */
  lemma TrailingTokensExample()
    ensures ParseProgram(["x", ":=", "1", ";", "y", "@"]) ==
      Parsed(Program([], [], Assignment("x", Number(1))), 4)
  {
    var t := ["x", ":=", "1", ";"];
    assert ParseInt("1") == Some(1) by {
      assert DigitsValue("1") == 1 by {
        assert "1"[..0] == "";
      }
    }
    assert ParseExpression(t, 2) == Parsed(Number(1), 3) by {
      assert ParseFactor(t, 2) == Parsed(Number(1), 3);
      assert ParseTerm(t, 2) == Parsed(Number(1), 3);
    }
    assert ParseStatement(t, 0) == Parsed(Assignment("x", Number(1)), 4);
    assert ParseProgram(t) == Parsed(Program([], [], Assignment("x", Number(1))), 4);
    TrailingTokensUnread(t, Program([], [], Assignment("x", Number(1))), 4, ["y", "@"]);
    assert t[..4] + ["y", "@"] == ["x", ":=", "1", ";", "y", "@"];
  }

  // ---------------------------------------------------------------------------------------------
  // Optional commas
  // ---------------------------------------------------------------------------------------------

  /** The list `w` stands in `t` from index `p` on. */
  predicate StartsWith(t: seq<string>, p: nat, w: seq<string>) {
    p + |w| <= |t| && t[p..p + |w|] == w
  }

  lemma StartsWithSplit(t: seq<string>, p: nat, a: seq<string>, b: seq<string>)
    requires StartsWith(t, p, a + b)
    ensures StartsWith(t, p, a) && StartsWith(t, p + |a|, b)
  {
    assert t[p..p + |a|] == (a + b)[..|a|];
    assert t[p + |a|..p + |a| + |b|] == (a + b)[|a|..];
  }

  lemma StartsWithTok(t: seq<string>, p: nat, w: seq<string>, i: nat)
    requires StartsWith(t, p, w) && i < |w|
    ensures Tok(t, p + i) == w[i] && p + i < |t|
  {
    assert t[p..p + |w|][i] == t[p + i];
  }

  /** The names with "," between each two of them. */
  function WithCommas(ns: seq<string>): (r: seq<string>)
    ensures |r| == if ns == [] then 0 else 2 * |ns| - 1
  {
    if |ns| <= 1 then ns else [ns[0], ","] + WithCommas(ns[1..])
  }

  /** Names without separators are read one by one, up to the closing token. */
  lemma {:induction false} NamesWithoutCommas(t: seq<string>, p: nat, close: string, ns: seq<string>, acc: seq<string>)
    requires close != ","
    requires forall i :: 0 <= i < |ns| ==> ns[i] != "," && ns[i] != close
    requires StartsWith(t, p, ns + [close])
    ensures ParseNames(t, p, close, acc) == Parsed(acc + ns, p + |ns|)
    decreases |ns|
  {
    StartsWithTok(t, p, ns + [close], 0);
    if ns == [] {
      assert (ns + [close])[0] == close;
      assert acc + ns == acc;
    } else {
      PlainNames(ns, close);
      assert acc + [ns[0]] + ns[1..] == acc + ns;
      StartsWithTok(t, p, [ns[0]] + (ns[1..] + [close]), 1);
      StartsWithSplit(t, p, [ns[0]], ns[1..] + [close]);
      hide *;
      NamesTakeOne(t, p, close, acc, ns[0]);
      NamesWithoutCommas(t, p + 1, close, ns[1..], acc + [ns[0]]);
    }
  }

  /** A non-empty list of names, none of them "," or the closing token, split after its first. */
  lemma PlainNames(ns: seq<string>, close: string)
    requires close != ","
    requires |ns| > 0 && forall i :: 0 <= i < |ns| ==> ns[i] != "," && ns[i] != close
    ensures ns + [close] == [ns[0]] + (ns[1..] + [close])
    ensures ns[0] != close && ([ns[0]] + (ns[1..] + [close]))[0] == ns[0]
    ensures ([ns[0]] + (ns[1..] + [close]))[1] != ","
    ensures forall i :: 0 <= i < |ns[1..]| ==> ns[1..][i] != "," && ns[1..][i] != close
  {
    forall i | 0 <= i < |ns[1..]|
      ensures ns[1..][i] != "," && ns[1..][i] != close
    {
      assert ns[1..][i] == ns[i + 1];
    }
  }

  /** A name followed by anything but "," is taken, and the list goes on right after it. */
  lemma NamesTakeOne(t: seq<string>, p: nat, close: string, acc: seq<string>, name: string)
    requires Tok(t, p) == name && name != close && p < |t| && Tok(t, p + 1) != ","
    ensures ParseNames(t, p, close, acc) == ParseNames(t, p + 1, close, acc + [name])
  {}

  /** Names separated by "," give the same list: each "," after a name is eaten. */
  lemma {:induction false} NamesWithCommas(t: seq<string>, p: nat, close: string, ns: seq<string>, acc: seq<string>)
    requires close != ","
    requires forall i :: 0 <= i < |ns| ==> ns[i] != "," && ns[i] != close
    requires StartsWith(t, p, WithCommas(ns) + [close])
    ensures ParseNames(t, p, close, acc) == Parsed(acc + ns, p + |WithCommas(ns)|)
    decreases |ns|, 1
  {
    if ns == [] {
      assert WithCommas(ns) + [close] == [close];
      StartsWithTok(t, p, [close], 0);
      assert acc + ns == acc;
    } else if |ns| == 1 {
      assert WithCommas(ns) + [close] == [ns[0], close];
      StartsWithTok(t, p, [ns[0], close], 0);
      StartsWithTok(t, p, [ns[0], close], 1);
      assert ParseNames(t, p + 1, close, acc + [ns[0]]) == Parsed(acc + [ns[0]], p + 1);
      assert acc + [ns[0]] == acc + ns;
    } else {
      NamesWithCommasStep(t, p, close, ns, acc);
    }
  }

  lemma {:induction false} NamesWithCommasStep(t: seq<string>, p: nat, close: string, ns: seq<string>, acc: seq<string>)
    requires close != "," && |ns| > 1
    requires forall i :: 0 <= i < |ns| ==> ns[i] != "," && ns[i] != close
    requires StartsWith(t, p, WithCommas(ns) + [close])
    ensures ParseNames(t, p, close, acc) == Parsed(acc + ns, p + |WithCommas(ns)|)
    decreases |ns|, 0
  {
    var rest := WithCommas(ns[1..]) + [close];
    CommaSeparatedNames(ns, close);
    assert acc + [ns[0]] + ns[1..] == acc + ns;
    hide WithCommas;
    StartsWithTok(t, p, [ns[0], ","] + rest, 0);
    StartsWithTok(t, p, [ns[0], ","] + rest, 1);
    StartsWithSplit(t, p, [ns[0], ","], rest);
    NamesCommaStep(t, p, close, acc, ns[0]);
    hide ParseNames, StartsWith;
    NamesWithCommas(t, p + 2, close, ns[1..], acc + [ns[0]]);
  }

  /** Two or more names with commas: the first, a ",", then the others with commas. */
  lemma CommaSeparatedNames(ns: seq<string>, close: string)
    requires |ns| > 1 && forall i :: 0 <= i < |ns| ==> ns[i] != "," && ns[i] != close
    ensures WithCommas(ns) + [close] == [ns[0], ","] + (WithCommas(ns[1..]) + [close])
    ensures |WithCommas(ns)| == 2 + |WithCommas(ns[1..])|
    ensures ns[0] != close && forall i :: 0 <= i < |ns[1..]| ==> ns[1..][i] != "," && ns[1..][i] != close
  {
    forall i | 0 <= i < |ns[1..]|
      ensures ns[1..][i] != "," && ns[1..][i] != close
    {
      assert ns[1..][i] == ns[i + 1];
    }
  }

  /** A name followed by "," is taken and the "," skipped. */
  lemma NamesCommaStep(t: seq<string>, p: nat, close: string, acc: seq<string>, name: string)
    requires Tok(t, p) == name && name != close && p < |t| && Tok(t, p + 1) == ","
    ensures ParseNames(t, p, close, acc) == ParseNames(t, p + 2, close, acc + [name])
  {}

  /** The items laid end to end, with `sep` between each two of them. */
  function Joined(items: seq<seq<string>>, sep: seq<string>): seq<string> {
    if |items| == 0 then [] else if |items| == 1 then items[0] else items[0] + sep + Joined(items[1..], sep)
  }

  /** Read before the token `stop`, the tokens `w` are exactly the expression `e`. */
  predicate ParsesBefore(w: seq<string>, e: Expr, stop: string) {
    ParseExpression(w + [stop], 0) == Parsed(e, |w|)
  }

  /**
   * The items of an argument list joined with `sep`: each, read before the token that follows it
   * in the list (the first of `sep` and the next item, or the closing ")"), is the expression
   * `es[i]`, and none starts with the ")" that would end the list.
   */
  predicate ArgItems(items: seq<seq<string>>, es: seq<Expr>, sep: seq<string>) {
    |items| == |es| && forall i :: 0 <= i < |items| ==> ArgItem(items, es, sep, i)
  }

  /** Item `i` does not start with ")" and, read before the token that follows it, is `es[i]`. */
  predicate ArgItem(items: seq<seq<string>>, es: seq<Expr>, sep: seq<string>, i: nat)
    requires i < |items| == |es|
  {
    Tok(items[i], 0) != ")" &&
    ParsesBefore(items[i], es[i], if i + 1 < |items| then Tok(sep + items[i + 1], 0) else ")")
  }

  lemma ArgItemsTail(items: seq<seq<string>>, es: seq<Expr>, sep: seq<string>)
    requires ArgItems(items, es, sep) && |items| > 0
    ensures ArgItems(items[1..], es[1..], sep)
  {
    forall i | 0 <= i < |items[1..]|
      ensures ArgItem(items[1..], es[1..], sep, i)
    {
      assert ArgItem(items, es, sep, i + 1);
      assert items[1..][i] == items[i + 1] && es[1..][i] == es[i + 1];
      if i + 1 < |items[1..]| {
        assert items[1..][i + 1] == items[i + 2];
      }
    }
  }

  /** An item that parses before `stop` parses the same where it stands in `t`, before that token. */
  lemma ItemInPlace(t: seq<string>, p: nat, w: seq<string>, e: Expr, stop: string)
    requires ParsesBefore(w, e, stop)
    requires StartsWith(t, p, w + [stop])
    ensures ParseExpression(t, p) == Parsed(e, p + |w|)
  {
    var x := w + [stop];
    AgreeSlices(x, 0, t, p, |x|);
    ExpressionFrame(x, 0, t, p, e, |w|, p + |w|);
  }

  lemma JoinedCons(items: seq<seq<string>>, sep: seq<string>)
    requires |items| > 1
    ensures Joined(items, sep) == items[0] + sep + Joined(items[1..], sep)
  {}

  lemma JoinedStart(items: seq<seq<string>>, sep: seq<string>)
    requires |items| > 0
    ensures |items[0]| <= |Joined(items, sep)| && Joined(items, sep)[..|items[0]|] == items[0]
  {
    if |items| > 1 {
      assert Joined(items, sep) == items[0] + (sep + Joined(items[1..], sep));
    }
  }

  /** A list standing at `p` ahead of a non-empty rest also stands there ahead of the rest's first token. */
  lemma StartsWithFirst(t: seq<string>, p: nat, w: seq<string>, rest: seq<string>)
    requires StartsWith(t, p, w + rest) && |rest| > 0
    ensures StartsWith(t, p, w + [rest[0]]) && Tok(t, p + |w|) == rest[0]
  {
    assert (w + rest)[..|w| + 1] == w + [rest[0]];
    assert t[p..p + |w| + 1] == t[p..p + |w + rest|][..|w| + 1];
    StartsWithTok(t, p, w + rest, |w|);
  }

  /** An item that is not ")" and parses before some token is not empty, and `t` starts it at `p`. */
  lemma ItemFirst(t: seq<string>, p: nat, w: seq<string>, e: Expr, stop: string)
    requires Tok(w, 0) != ")" && ParsesBefore(w, e, stop) && StartsWith(t, p, w + [stop])
    ensures |w| > 0 && p < |t| && Tok(t, p) != ")"
  {
    StartsWithTok(t, p, w + [stop], 0);
  }

  /**
   * An item standing at `p` ahead of `rest`, whose first token is the one the item parses
   * before: the expression is read there, and the rest stands right after it.
   */
  lemma ItemHead(t: seq<string>, p: nat, w: seq<string>, e: Expr, rest: seq<string>)
    requires |rest| > 0 && Tok(w, 0) != ")" && ParsesBefore(w, e, rest[0]) && StartsWith(t, p, w + rest)
    ensures p < |t| && Tok(t, p) != ")" && ParseExpression(t, p) == Parsed(e, p + |w|)
    ensures Tok(t, p + |w|) == rest[0] && StartsWith(t, p + |w|, rest)
  {
    StartsWithFirst(t, p, w, rest);
    ItemFirst(t, p, w, e, rest[0]);
    ItemInPlace(t, p, w, e, rest[0]);
    StartsWithSplit(t, p, w, rest);
  }

  /** Read before anything, an expression takes at least one token. */
  lemma ItemNonEmpty(w: seq<string>, e: Expr, stop: string)
    requires ParsesBefore(w, e, stop)
    ensures |w| > 0
  {}

  /** The first token of joined items, the first of them not empty. */
  lemma JoinedFirst(items: seq<seq<string>>, sep: seq<string>, close: seq<string>)
    requires |items| > 0 && |items[0]| > 0
    ensures |Joined(items, sep) + close| > 0 && (Joined(items, sep) + close)[0] == Tok(items[0], 0)
  {
    JoinedStart(items, sep);
    assert (Joined(items, sep) + close)[0] == Joined(items, sep)[..|items[0]|][0];
  }

  /** One argument, then a ",": it is taken and the "," skipped. */
  lemma ArgsCommaStep(t: seq<string>, p: nat, acc: seq<Expr>, e: Expr, m: nat)
    requires Tok(t, p) != ")" && p < |t| && ParseExpression(t, p) == Parsed(e, m) && Tok(t, m) == ","
    ensures ParseArgs(t, p, acc) == ParseArgs(t, m + 1, acc + [e])
  {
    hide ParseExpression;
  }

  /** One argument, then anything but ",": it is taken and the next argument starts right after. */
  lemma ArgsPlainStep(t: seq<string>, p: nat, acc: seq<Expr>, e: Expr, m: nat)
    requires Tok(t, p) != ")" && p < |t| && ParseExpression(t, p) == Parsed(e, m) && Tok(t, m) != ","
    ensures ParseArgs(t, p, acc) == ParseArgs(t, m, acc + [e])
  {
    hide ParseExpression;
  }

  /** The last argument, then ")". */
  lemma ArgsLast(t: seq<string>, p: nat, w: seq<string>, e: Expr, acc: seq<Expr>)
    requires Tok(w, 0) != ")" && ParsesBefore(w, e, ")") && StartsWith(t, p, w + [")"])
    ensures ParseArgs(t, p, acc) == Parsed(acc + [e], p + |w| + 1)
  {
    ItemHead(t, p, w, e, [")"]);
    StartsWithTok(t, p + |w|, [")"], 0);
    ArgsPlainStep(t, p, acc, e, p + |w|);
    hide ParseExpression, ParsesBefore;
    assert ParseArgs(t, p + |w|, acc + [e]) == Parsed(acc + [e], p + |w| + 1);
  }

  /** The empty argument list: ")" alone. */
  lemma ArgsNone(t: seq<string>, p: nat, acc: seq<Expr>)
    requires StartsWith(t, p, [")"])
    ensures ParseArgs(t, p, acc) == Parsed(acc, p + 1)
  {
    StartsWithTok(t, p, [")"], 0);
  }

  /** The separator of an argument list written with commas. */
  const CommaSep: seq<string> := [","]

  /** Arguments separated by "," are the items' expressions, in order. */
  lemma {:induction false} ArgsWithCommas(t: seq<string>, p: nat, items: seq<seq<string>>, es: seq<Expr>, acc: seq<Expr>)
    requires ArgItems(items, es, CommaSep)
    requires StartsWith(t, p, Joined(items, CommaSep) + [")"])
    ensures ParseArgs(t, p, acc) == Parsed(acc + es, p + |Joined(items, CommaSep)| + 1)
    decreases |items|
  {
    if |items| == 0 {
      assert Joined(items, CommaSep) + [")"] == [")"];
      ArgsNone(t, p, acc);
      assert acc + es == acc;
    } else if |items| == 1 {
      assert ArgItem(items, es, CommaSep, 0);
      assert Joined(items, CommaSep) == items[0];
      ArgsLast(t, p, items[0], es[0], acc);
      assert acc + [es[0]] == acc + es;
    } else {
      var w, rest := items[0], Joined(items[1..], CommaSep) + [")"];
      SeparatedItems(items, es);
      ArgItemsTail(items, es, CommaSep);
      assert acc + [es[0]] + es[1..] == acc + es;
      hide *;
      ItemThenComma(t, p, w, es[0], rest);
      ArgsCommaStep(t, p, acc, es[0], p + |w|);
      ArgsWithCommas(t, p + |w| + 1, items[1..], es[1..], acc + [es[0]]);
    }
  }

  /** An item, then ",": the expression is read, and the rest stands after the ",". */
  lemma ItemThenComma(t: seq<string>, p: nat, w: seq<string>, e: Expr, rest: seq<string>)
    requires Tok(w, 0) != ")" && ParsesBefore(w, e, ",") && StartsWith(t, p, w + (CommaSep + rest))
    ensures p < |t| && Tok(t, p) != ")" && ParseExpression(t, p) == Parsed(e, p + |w|)
    ensures Tok(t, p + |w|) == "," && StartsWith(t, p + |w| + 1, rest)
  {
    ItemHead(t, p, w, e, CommaSep + rest);
    StartsWithSplit(t, p + |w|, CommaSep, rest);
  }

  /** With "," between items, the first item is followed by "," and then the other items. */
  lemma SeparatedItems(items: seq<seq<string>>, es: seq<Expr>)
    requires ArgItems(items, es, CommaSep) && |items| > 1
    ensures Joined(items, CommaSep) + [")"] == items[0] + (CommaSep + (Joined(items[1..], CommaSep) + [")"]))
    ensures |Joined(items, CommaSep)| == |items[0]| + 1 + |Joined(items[1..], CommaSep)|
    ensures Tok(items[0], 0) != ")" && ParsesBefore(items[0], es[0], ",")
  {
    JoinedCons(items, CommaSep);
    var a, b := items[0], Joined(items[1..], CommaSep);
    hide Joined;
    AppendAssociates(a, CommaSep, b);
    AppendAssociates(a + CommaSep, b, [")"]);
    AppendAssociates(a, CommaSep, b + [")"]);
    assert ArgItem(items, es, CommaSep, 0);
    assert Tok(CommaSep + items[1], 0) == ",";
  }

  /**
   * Arguments without separators are the same expressions, as long as no item after the first
   * starts with "," and each item's expression stops before the next item's first token.
   */
  lemma {:induction false} ArgsWithoutCommas(t: seq<string>, p: nat, items: seq<seq<string>>, es: seq<Expr>, acc: seq<Expr>)
    requires ArgItems(items, es, [])
    requires forall i :: 0 < i < |items| ==> Tok(items[i], 0) != ","
    requires StartsWith(t, p, Joined(items, []) + [")"])
    ensures ParseArgs(t, p, acc) == Parsed(acc + es, p + |Joined(items, [])| + 1)
    decreases |items|, 1
  {
    if |items| == 0 {
      assert Joined(items, []) + [")"] == [")"];
      ArgsNone(t, p, acc);
      assert acc + es == acc;
    } else if |items| == 1 {
      assert ArgItem(items, es, [], 0);
      assert Joined(items, []) == items[0];
      ArgsLast(t, p, items[0], es[0], acc);
      assert acc + [es[0]] == acc + es;
    } else {
      ArgsWithoutCommasStep(t, p, items, es, acc);
    }
  }

  lemma {:induction false} ArgsWithoutCommasStep(t: seq<string>, p: nat, items: seq<seq<string>>, es: seq<Expr>, acc: seq<Expr>)
    requires ArgItems(items, es, []) && |items| > 1
    requires forall i :: 0 < i < |items| ==> Tok(items[i], 0) != ","
    requires StartsWith(t, p, Joined(items, []) + [")"])
    ensures ParseArgs(t, p, acc) == Parsed(acc + es, p + |Joined(items, [])| + 1)
    decreases |items|, 0
  {
    var w, rest := items[0], Joined(items[1..], []) + [")"];
    UnseparatedItems(items, es);
    ArgItemsTail(items, es, []);
    UnseparatedTail(items);
    assert acc + [es[0]] + es[1..] == acc + es;
    hide ArgItems, ArgItem, Joined, ParseArgs;
    ItemHead(t, p, w, es[0], rest);
    ArgsPlainStep(t, p, acc, es[0], p + |w|);
    hide ParseExpression, StartsWith, ParsesBefore;
    ArgsWithoutCommas(t, p + |w|, items[1..], es[1..], acc + [es[0]]);
  }

  /**
   * Without separators, the list after the first item starts with the next item's first token,
   * which is not ",", and the first item parses before it.
   */
  lemma UnseparatedItems(items: seq<seq<string>>, es: seq<Expr>)
    requires ArgItems(items, es, []) && |items| > 1
    requires forall i :: 0 < i < |items| ==> Tok(items[i], 0) != ","
    ensures Joined(items, []) + [")"] == items[0] + (Joined(items[1..], []) + [")"])
    ensures (Joined(items[1..], []) + [")"])[0] != ","
    ensures Tok(items[0], 0) != ")" && ParsesBefore(items[0], es[0], (Joined(items[1..], []) + [")"])[0])
  {
    JoinedConsClosed(items, [")"]);
    assert ArgItem(items, es, [], 0);
    assert ArgItem(items, es, [], 1);
    assert Tok(items[1], 0) != ",";
    assert [] + items[1] == items[1];
    ItemNonEmpty(items[1], es[1], if 2 < |items| then Tok([] + items[2], 0) else ")");
    assert items[1..][0] == items[1];
    hide ArgItems, ArgItem, ParsesBefore;
    JoinedFirst(items[1..], [], [")"]);
  }

  /** Items laid end to end, then a closing list: the first item, then the rest. */
  lemma JoinedConsClosed(items: seq<seq<string>>, close: seq<string>)
    requires |items| > 1
    ensures Joined(items, []) + close == items[0] + (Joined(items[1..], []) + close)
  {
    JoinedCons(items, []);
    var a, b := items[0], Joined(items[1..], []);
    hide Joined;
    assert a + [] == a;
    assert Joined(items, []) == a + b;
    AppendAssociates(a, b, close);
  }

  lemma AppendAssociates(a: seq<string>, b: seq<string>, c: seq<string>)
    ensures (a + b) + c == a + (b + c)
  {}

  /** The items after the first keep the proviso that none starts with ",". */
  lemma UnseparatedTail(items: seq<seq<string>>)
    requires |items| > 0 && forall i :: 0 < i < |items| ==> Tok(items[i], 0) != ","
    ensures forall i :: 0 < i < |items[1..]| ==> Tok(items[1..][i], 0) != ","
  {
    forall i | 0 < i < |items[1..]|
      ensures Tok(items[1..][i], 0) != ","
    {
      assert items[1..][i] == items[i + 1];
    }
  }

  /**
   * The comma matters before a signed argument: "a , - b )" is two arguments, the second
   * negated, while without the comma the minus subtracts "b" from "a" (`MinusWithoutComma`).
   */
  lemma SignedArgumentAfterComma()
    ensures ParseArgs(["a", ",", "-", "b", ")"], 0, []) ==
      Parsed([Variable("a"), BinOp("-", Number(0), Variable("b"))], 5)
  {
    assert ParseInt("a") == None;
    assert ParseInt("b") == None;
    var t := ["a", ",", "-", "b", ")"];
    assert ParseExpression(t, 0) == Parsed(Variable("a"), 1) by {
      assert ParseFactor(t, 0) == Parsed(Variable("a"), 1);
      assert ParseTerm(t, 0) == Parsed(Variable("a"), 1);
    }
    assert ParseExpression(t, 2) == Parsed(BinOp("-", Number(0), Variable("b")), 4) by {
      assert ParseFactor(t, 3) == Parsed(Variable("b"), 4);
      assert ParseFactor(t, 2) == Parsed(BinOp("-", Number(0), Variable("b")), 4);
      assert ParseTerm(t, 2) == Parsed(BinOp("-", Number(0), Variable("b")), 4);
    }
    ArgsCommaStep(t, 0, [], Variable("a"), 1);
    assert [] + [Variable("a")] == [Variable("a")];
    ArgsPlainStep(t, 2, [Variable("a")], BinOp("-", Number(0), Variable("b")), 4);
    assert [Variable("a")] + [BinOp("-", Number(0), Variable("b"))] ==
      [Variable("a"), BinOp("-", Number(0), Variable("b"))];
  }

  /** "a - b )": one argument, the difference. */
  lemma MinusWithoutComma()
    ensures ParseArgs(["a", "-", "b", ")"], 0, []) ==
      Parsed([BinOp("-", Variable("a"), Variable("b"))], 4)
  {
    assert ParseInt("a") == None;
    assert ParseInt("b") == None;
    var v := ["a", "-", "b", ")"];
    assert ParseExpression(v, 0) == Parsed(BinOp("-", Variable("a"), Variable("b")), 3) by {
      assert ParseFactor(v, 0) == Parsed(Variable("a"), 1);
      assert ParseTerm(v, 0) == Parsed(Variable("a"), 1);
      assert ParseFactor(v, 2) == Parsed(Variable("b"), 3);
      assert ParseTerm(v, 2) == Parsed(Variable("b"), 3);
    }
    ArgsPlainStep(v, 0, [], BinOp("-", Variable("a"), Variable("b")), 3);
    assert [] + [BinOp("-", Variable("a"), Variable("b"))] == [BinOp("-", Variable("a"), Variable("b"))];
  }
}
